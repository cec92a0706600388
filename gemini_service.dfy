/**
 * The comparison requester: it checks the credential, frames both texts into one prompt,
 * makes one backend call and maps its outcome. The backend itself is a function parameter.
 */
module GeminiService {
  import opened Wrappers

  /** The credential as read from the environment: absent, or a string that may be empty. */
  type ApiKey = Option<string>

  /** A configured backend client. */
  datatype Client = Client(apiKey: string)

  /** The ways a comparison fails. */
  datatype Failure = MissingApiKey | ConnectionFailed
  {
    /** The message of the error that is thrown. */
    function Message(): string
    {
      match this
      case MissingApiKey => "API Key is missing in process.env"
      case ConnectionFailed => "Đã xảy ra lỗi khi kết nối với AI. Vui lòng kiểm tra API Key hoặc thử lại sau."
    }
  }

  /** One text-generation request: the user prompt and the system instruction. */
  datatype Request = Request(contents: string, systemInstruction: string)

  /** What the backend call yields: a response whose text may be absent, or a thrown error. */
  datatype Outcome = Responded(text: Option<string>) | Threw

  /** A key is usable when it is present and non-empty (a truthy string). */
  predicate HasKey(apiKey: ApiKey)
  {
    apiKey.Some? && apiKey.value != ""
  }

  /** getClient: a client for a usable key, the missing-key error otherwise. */
  function GetClient(apiKey: ApiKey): (r: Result<Client, Failure>)
    ensures r.Success? <==> HasKey(apiKey)
    ensures r.Success? ==> r.value.apiKey == apiKey.value
    ensures r.Failure? ==> r.error == MissingApiKey
  {
    if apiKey.Some? && apiKey.value != "" then Success(Client(apiKey.value)) else Failure(MissingApiKey)
  }

  /** The reply the backend is told to give when the draft has no wording errors. */
  const NoErrorsVerdict: string := "Tuyệt vời! Không tìm thấy lỗi sai nào giữa SRT và Content gốc."

  /** The task description sent as system instruction; it depends on neither text. */
  const SystemInstruction: string :=
    "\n"
    + "    Bạn là một trợ lý AI chuyên nghiệp về biên tập phụ đề và kiểm tra văn bản.\n"
    + "    Nhiệm vụ của bạn là so sánh nội dung của một file \"Content Gốc\" và một file \"SRT Chưa hoàn thiện\".\n"
    + "    \n"
    + "    Quy tắc so sánh:\n"
    + "    1. Rà soát từ nào trong \"Srt Chưa hoàn thiện\" sai hoặc không đúng với từ tương ứng trong \"Content Gốc\".\n"
    + "    2. Bỏ qua các khác biệt về dấu câu, viết hoa viết thường. Tập trung vào sai khác về từ ngữ (sai chính tả, sai từ, thiếu từ quan trọng).\n"
    + "    3. Output phải tuân thủ CHÍNH XÁC định dạng bên dưới. Không thêm lời dẫn nhập hay kết luận thừa thãi.\n"
    + "    \n"
    + "    Định dạng Output bắt buộc:\n"
    + "    Sửa lỗi từ trong SRT :\n"
    + "    Vị trí [số thứ tự].\n"
    + "    [Timestamp lấy từ file SRT tại vị trí lỗi]\n"
    + "    - [Câu chứa từ bị sai trích từ SRT]\n"
    + "    - [Câu đúng tương ứng trích từ Content Gốc]\n"
    + "\n"
    + "    Vị trí [số thứ tự tiếp theo].\n"
    + "    ... (lặp lại cho các lỗi tiếp theo)\n"
    + "\n"
    + "    Nếu không có lỗi nào, hãy trả về: \"" + NoErrorsVerdict + "\"\n"
    + "  "

  /** The delimiter line before an embedded text, up to the text's indentation. */
  const Open: string := "\"\"\"\n    "
  /** The line break and delimiter line after an embedded text. */
  const Close: string := "\n    \"\"\""

  /** The heading line of the original's section. */
  const OriginalHeading: string := "\n    Dưới đây là Content Gốc:\n    "
  /** The blank line and heading line of the draft's section. */
  const SrtHeading: string := "\n\n    Dưới đây là SRT Chưa hoàn thiện:\n    "
  /** The closing request after both sections. */
  const Closing: string := "\n\n    Hãy thực hiện rà soát theo yêu cầu và format đã đề ra.\n  "

  /** The prompt up to the original content. */
  const PromptHead: string := OriginalHeading + Open
  /** The prompt between the original content and the draft. */
  const PromptMiddle: string := Close + SrtHeading + Open
  /** The prompt after the draft. */
  const PromptTail: string := Close + Closing

  /** The user prompt: both texts embedded verbatim, the original first. */
  function Prompt(originalContent: string, srtContent: string): (p: string)
    ensures |p| == |PromptHead| + |originalContent| + |PromptMiddle| + |srtContent| + |PromptTail|
  {
    PromptHead + originalContent + PromptMiddle + srtContent + PromptTail
  }

  /** The reply placeholder used when the backend returns no text. */
  const EmptyReplyPlaceholder: string := "Không thể tạo phản hồi. Vui lòng thử lại."

  /** `response.text || placeholder`: a non-empty reply unmodified, otherwise the placeholder. */
  function ReplyText(text: Option<string>): (r: string)
    ensures r != ""
    ensures text.Some? && text.value != "" ==> r == text.value
    ensures text.None? || text.value == "" ==> r == EmptyReplyPlaceholder
  {
    if text.Some? && text.value != "" then text.value else EmptyReplyPlaceholder
  }

  /** How the requester maps the backend's outcome: a reply to its text or the placeholder, a thrown error to the connection error. */
  function MapOutcome(outcome: Outcome): (r: Result<string, Failure>)
    ensures r.Success? <==> outcome.Responded?
    ensures r.Success? ==> r.value == ReplyText(outcome.text) && r.value != ""
    ensures r.Failure? ==> r.error == ConnectionFailed
  {
    match outcome
    case Responded(text) => Success(ReplyText(text))
    case Threw => Failure(ConnectionFailed)
  }

  /**
   * The text-generation backend as the requester sees it: every call is recorded in
   * `requests`, and the calls are answered in turn by the outcomes in `script`. A call
   * made after the script is exhausted fails as if the backend threw.
   */
  class Backend {
    var requests: seq<Request>
    var script: seq<Outcome>

    constructor (script: seq<Outcome>)
      ensures this.requests == [] && this.script == script
    {
      this.requests := [];
      this.script := script;
    }

    /** The outcome the next call will get. */
    function Next(): Outcome
      reads this
    {
      if script == [] then Threw else script[0]
    }

    /** One call: the request is recorded and answered with the next outcome. */
    method Generate(request: Request) returns (outcome: Outcome)
      modifies this
      ensures outcome == old(Next())
      ensures requests == old(requests) + [request]
      ensures script == if old(script) == [] then [] else old(script)[1..]
    {
      outcome := Next();
      requests := requests + [request];
      if script != [] {
        script := script[1..];
      }
    }
  }

  /**
   * compareContentWithSrt. The credential is checked before any call, and its error is
   * returned as it is, not rewrapped; then exactly one request, carrying the prompt and
   * the system instruction, is sent to `backend`, and the outcome of that one call is mapped.
   */
  method CompareContentWithSrt(apiKey: ApiKey, originalContent: string, srtContent: string, backend: Backend)
    returns (result: Result<string, Failure>)
    modifies backend
    ensures !HasKey(apiKey) ==> backend.requests == old(backend.requests) && backend.script == old(backend.script)
    ensures !HasKey(apiKey) ==> result == Failure(MissingApiKey)
                                && result.error.Message() == "API Key is missing in process.env"
    ensures HasKey(apiKey) ==>
              backend.requests == old(backend.requests) + [Request(Prompt(originalContent, srtContent), SystemInstruction)]
    ensures HasKey(apiKey) ==> result == MapOutcome(old(backend.Next()))
    ensures result.Success? ==> result.value != ""
  {
    var client := GetClient(apiKey);
    if client.Failure? {
      return Failure(client.error);
    }
    var prompt := Prompt(originalContent, srtContent);
    var request := Request(prompt, SystemInstruction);
    var response := backend.Generate(request);
    match response
    case Responded(text) =>
      result := Success(ReplyText(text));
    case Threw =>
      result := Failure(ConnectionFailed);
  }

  /** Each text sits between an opening and a closing delimiter line, and the original comes first. */
  lemma PromptFramesTexts(originalContent: string, srtContent: string)
    ensures var p, i := Prompt(originalContent, srtContent), |PromptHead|;
            var j := i + |originalContent| + |PromptMiddle|;
            |Open| <= i && i + |originalContent| + |Close| <= j - |Open|
            && p[i - |Open|..i] == Open
            && p[i..i + |originalContent|] == originalContent
            && p[i + |originalContent|..i + |originalContent| + |Close|] == Close
            && p[j - |Open|..j] == Open
            && p[j..j + |srtContent|] == srtContent
            && p[j + |srtContent|..j + |srtContent| + |Close|] == Close
  {
    FramesOf(OriginalHeading, originalContent, SrtHeading, srtContent, Closing);
  }

  /** Where each part of a prompt built from the headings `h`, `m`, `t` and the texts `o`, `s` sits. */
  lemma FramesOf(h: string, o: string, m: string, s: string, t: string)
    ensures var p, i := (h + Open) + o + (Close + m + Open) + s + (Close + t), |h + Open|;
            var j := i + |o| + |Close + m + Open|;
            |Open| <= i && i + |o| + |Close| <= j - |Open|
            && p[i - |Open|..i] == Open
            && p[i..i + |o|] == o
            && p[i + |o|..i + |o| + |Close|] == Close
            && p[j - |Open|..j] == Open
            && p[j..j + |s|] == s
            && p[j + |s|..j + |s| + |Close|] == Close
  {
    var p := (h + Open) + o + (Close + m + Open) + s + (Close + t);
    assert p == h + Open + o + Close + m + Open + s + Close + t;
    SliceAt(h, Open, o + Close + m + Open + s + Close + t);
    SliceAt(h + Open, o, Close + m + Open + s + Close + t);
    SliceAt(h + Open + o, Close, m + Open + s + Close + t);
    SliceAt(h + Open + o + Close + m, Open, s + Close + t);
    SliceAt(h + Open + o + Close + m + Open, s, Close + t);
    SliceAt(h + Open + o + Close + m + Open + s, Close, t);
  }

  /** The middle part of a three-part concatenation sits right after the first part. */
  lemma SliceAt(a: string, b: string, c: string)
    ensures (a + b + c)[|a|..|a| + |b|] == b
  {
    assert (a + b + c)[|a|..|a| + |b|] == (a + b)[|a|..];
  }

  /** Knowing the length of the original, the prompt determines both texts. */
  lemma PromptDeterminesTexts(o1: string, s1: string, o2: string, s2: string)
    requires Prompt(o1, s1) == Prompt(o2, s2) && |o1| == |o2|
    ensures o1 == o2 && s1 == s2
  {
    PromptFramesTexts(o1, s1);
    PromptFramesTexts(o2, s2);
  }

  /**
   * Without that length the framing is ambiguous: an original that itself contains the text
   * between the two sections yields the same prompt as a different pair of texts.
   */
  lemma PromptIsAmbiguous()
    ensures exists o1, s1, o2, s2 :: (o1, s1) != (o2, s2) && Prompt(o1, s1) == Prompt(o2, s2)
  {
    var o1, s1 := "a" + PromptMiddle + "b", "c";
    var o2, s2 := "a", "b" + PromptMiddle + "c";
    Regroup(PromptHead, "a", PromptMiddle, "b", "c", PromptTail);
    assert |o1| != |o2|;
    assert Prompt(o1, s1) == Prompt(o2, s2);
  }

  /** Moving the separator `m` between the two embedded parts leaves the string unchanged. */
  lemma Regroup(h: string, a: string, m: string, b: string, c: string, t: string)
    ensures h + (a + m + b) + m + c + t == h + a + m + (b + m + c) + t
  {
  }
}
