/**
 * The chat-flow state machine: it asks for the original content, then for the draft
 * subtitles, starts one comparison and records how it ended. `Session` and the transition
 * functions are the specification; class `Conversation` is the component whose state the
 * event handlers update in place.
 */
module App {
  import opened Wrappers
  import opened Types
  import GeminiService

  /** Longest user text shown unabridged in the transcript. */
  const DisplayLimit: nat := 300
  /** Appended to a user text cut at the display limit. */
  const TruncationMarker: string := "... (Đã nhận nội dung)"

  const Greeting: string := "Chào bạn. Cho tôi file Content gốc của bạn?"
  const RestartGreeting: string := "Cho tôi file Content gốc của bạn?"
  const AskForSrt: string := "Ok. Tiếp theo hãy cung cấp file SRT chưa hoàn thiện cho tôi."
  const Acknowledgement: string :=
    "Ok, cảm ơn bạn, tôi đã nhận đủ Content gốc và SRT chưa hoàn thiện. Bây giờ tôi sẽ tiến hành rà soát..."
  const FailureNotice: string := "Xin lỗi, đã xảy ra lỗi trong quá trình xử lý. Vui lòng làm mới trang và thử lại."

  /** A plain-text bot entry. */
  function BotSays(content: string): Message { Message(Bot, content, false) }

  /** The transcript entry for a user submission: long texts are cut and marked as received. */
  function DisplayContent(text: string): (r: string)
    ensures |text| <= DisplayLimit ==> r == text
    ensures |text| > DisplayLimit ==>
              (|r| == DisplayLimit + |TruncationMarker|
               && r[..DisplayLimit] == text[..DisplayLimit] && r[DisplayLimit..] == TruncationMarker)
    ensures |r| <= DisplayLimit + |TruncationMarker|
  {
    if |text| > DisplayLimit then text[..DisplayLimit] + TruncationMarker else text
  }

  /** The whole state of the conversation. */
  datatype Session = Session(step: Step, original: string, srt: string, messages: seq<Message>)

  /** The arguments of a started comparison: the stored original and the draft. */
  datatype Comparison = Comparison(original: string, srt: string)

  /** Typing and uploading are refused while the comparison runs and after it has ended. */
  function InputDisabled(step: Step): (r: bool)
    ensures r <==> !(step == RequestOriginal || step == RequestSrt)
  {
    step == Processing || step == Completed || step == Error
  }

  /** The restart control is shown once the comparison has ended, either way. */
  function ResetOffered(step: Step): (r: bool)
    ensures r <==> InputDisabled(step) && step != Processing
  {
    step == Completed || step == Error
  }

  /** The conversation after mounting: nothing collected, the greeting shown. */
  function Initial(): (s: Session)
    ensures s.step == RequestOriginal && s.original == "" && s.srt == ""
    ensures s.messages == [BotSays(Greeting)]
  {
    Session(RequestOriginal, "", "", [BotSays(Greeting)])
  }

  /** handleUserResponse: log the (abridged) text, then store it and move on when a text is awaited. */
  function Submitted(s: Session, text: string): Session
  {
    var logged := s.messages + [Message(User, DisplayContent(text), false)];
    match s.step
    case RequestOriginal => s.(step := RequestSrt, original := text, messages := logged + [BotSays(AskForSrt)])
    case RequestSrt => s.(step := Processing, srt := text, messages := logged + [BotSays(Acknowledgement)])
    case _ => s.(messages := logged)
  }

  /** The comparison a submission starts: one, on the draft, with the untruncated texts. */
  function Started(s: Session, text: string): (c: Option<Comparison>)
    ensures c.Some? <==> s.step == RequestSrt
  {
    if s.step == RequestSrt then Some(Comparison(s.original, text)) else None
  }

  /** processComparison: the result as a markdown entry and COMPLETED, or the fixed notice and ERROR. */
  function Settled(s: Session, outcome: Result<string, GeminiService.Failure>): Session
  {
    match outcome
    case Success(report) => s.(step := Completed, messages := s.messages + [Message(Bot, report, true)])
    case Failure(_) => s.(step := Error, messages := s.messages + [BotSays(FailureNotice)])
  }

  /** resetProcess: everything cleared, back to the first question. */
  function Restarted(s: Session): Session
  {
    Session(RequestOriginal, "", "", [BotSays(RestartGreeting)])
  }

  /** Number of markdown entries in a transcript. */
  function MarkdownCount(ms: seq<Message>): nat
  {
    if ms == [] then 0 else MarkdownCount(ms[..|ms| - 1]) + (if ms[|ms| - 1].isMarkdown then 1 else 0)
  }

  /**
   * The invariant of every reachable session: the transcript opens with a greeting; while
   * the original is awaited it is the greeting alone and nothing is stored; the draft is
   * stored only from PROCESSING on; exactly the COMPLETED sessions hold a markdown entry.
   */
  predicate Valid(s: Session)
  {
    && |s.messages| > 0
    && (s.messages[0] == BotSays(Greeting) || s.messages[0] == BotSays(RestartGreeting))
    && (s.step == RequestOriginal ==> |s.messages| == 1 && s.original == "" && s.srt == "")
    && (s.step == RequestSrt ==> s.srt == "")
    && MarkdownCount(s.messages) == (if s.step == Completed then 1 else 0)
  }

  /** The events the conversation reacts to. */
  datatype Event = Submit(text: string) | Resolve(outcome: Result<string, GeminiService.Failure>) | Reset

  /** When an event can occur: a comparison resolves only while it runs; reset only when offered. */
  predicate Enabled(s: Session, e: Event)
  {
    match e
    case Submit(_) => true
    case Resolve(_) => s.step == Processing
    case Reset => ResetOffered(s.step)
  }

  function Apply(s: Session, e: Event): Session
  {
    match e
    case Submit(text) => Submitted(s, text)
    case Resolve(outcome) => Settled(s, outcome)
    case Reset => Restarted(s)
  }

  /** Every event of `es` is enabled in the session it meets. */
  predicate Admissible(s: Session, es: seq<Event>)
    decreases |es|
  {
    es == [] || (Enabled(s, es[0]) && Admissible(Apply(s, es[0]), es[1..]))
  }

  /** The session after the events `es`, in order. */
  function Run(s: Session, es: seq<Event>): Session
    decreases |es|
  {
    if es == [] then s else Run(Apply(s, es[0]), es[1..])
  }

  /** Number of comparisons started while the events `es` are handled. */
  function StartCount(s: Session, es: seq<Event>): nat
    decreases |es|
  {
    if es == [] then 0
    else (if es[0].Submit? && Started(s, es[0].text).Some? then 1 else 0) + StartCount(Apply(s, es[0]), es[1..])
  }

  ghost predicate Reachable(s: Session)
  {
    exists es :: Admissible(Initial(), es) && Run(Initial(), es) == s
  }

  lemma {:induction false} MarkdownCountAppend(ms: seq<Message>, m: Message)
    ensures MarkdownCount(ms + [m]) == MarkdownCount(ms) + (if m.isMarkdown then 1 else 0)
  {
    assert (ms + [m])[..|ms|] == ms;
  }

  /** Every submission logs the user's entry right after the old transcript, which it keeps. */
  lemma SubmitLogsUserEntry(s: Session, text: string)
    ensures var r := Submitted(s, text);
            |r.messages| > |s.messages| && r.messages[..|s.messages|] == s.messages
            && r.messages[|s.messages|] == Message(User, DisplayContent(text), false)
  {
  }

  /** Submitting the original stores it whole, asks for the draft and leaves the draft alone. */
  lemma SubmitOriginal(s: Session, text: string)
    requires s.step == RequestOriginal
    ensures var r := Submitted(s, text);
            r.step == RequestSrt && r.original == text && r.srt == s.srt
            && r.messages == s.messages + [Message(User, DisplayContent(text), false), BotSays(AskForSrt)]
            && Started(s, text) == None
  {
  }

  /** Submitting the draft stores it whole, acknowledges, and starts one comparison of the two texts. */
  lemma SubmitDraft(s: Session, text: string)
    requires s.step == RequestSrt
    ensures var r := Submitted(s, text);
            r.step == Processing && r.srt == text && r.original == s.original
            && r.messages == s.messages + [Message(User, DisplayContent(text), false), BotSays(Acknowledgement)]
            && Started(s, text) == Some(Comparison(s.original, text))
  {
  }

  /** A submission moves the conversation on exactly when input is enabled; otherwise only the entry is logged. */
  lemma SubmitAdvancesIffEnabled(s: Session, text: string)
    ensures Submitted(s, text).step != s.step <==> !InputDisabled(s.step)
    ensures InputDisabled(s.step) ==>
              Submitted(s, text) == s.(messages := s.messages + [Message(User, DisplayContent(text), false)])
              && Started(s, text) == None
  {
  }

  /** A success ends the flow with the report as the last, markdown, entry; a failure with the fixed notice. */
  lemma SettleOutcome(s: Session, outcome: Result<string, GeminiService.Failure>)
    ensures var r := Settled(s, outcome);
            r.messages[..|s.messages|] == s.messages && |r.messages| == |s.messages| + 1
            && r.original == s.original && r.srt == s.srt
            && (outcome.Success? ==> r.step == Completed && r.messages[|s.messages|] == Message(Bot, outcome.value, true))
            && (outcome.Failure? ==> r.step == Error && r.messages[|s.messages|] == BotSays(FailureNotice))
  {
  }

  /** Reset leaves a transcript of exactly the restart greeting, nothing stored, the first step. */
  lemma ResetRestarts(s: Session)
    ensures Restarted(s).step == RequestOriginal && !InputDisabled(Restarted(s).step)
    ensures Restarted(s).original == "" && Restarted(s).srt == ""
    ensures |Restarted(s).messages| == 1 && Restarted(s).messages[0].content == RestartGreeting
    ensures Restarted(s).messages[0].sender == Bot && !Restarted(s).messages[0].isMarkdown
    ensures Valid(Restarted(s))
  {
  }

  lemma ApplyKeepsValid(s: Session, e: Event)
    requires Valid(s) && Enabled(s, e)
    ensures Valid(Apply(s, e))
  {
    match e
    case Submit(text) =>
      var logged := s.messages + [Message(User, DisplayContent(text), false)];
      MarkdownCountAppend(s.messages, Message(User, DisplayContent(text), false));
      MarkdownCountAppend(logged, BotSays(AskForSrt));
      MarkdownCountAppend(logged, BotSays(Acknowledgement));
      assert (logged + [BotSays(AskForSrt)])[0] == s.messages[0];
      assert (logged + [BotSays(Acknowledgement)])[0] == s.messages[0];
    case Resolve(outcome) =>
      match outcome {
        case Success(report) => MarkdownCountAppend(s.messages, Message(Bot, report, true));
        case Failure(_) => MarkdownCountAppend(s.messages, BotSays(FailureNotice));
      }
    case Reset =>
  }

  /** The invariant holds after any admissible run from a valid session. */
  lemma {:induction false} RunKeepsValid(s: Session, es: seq<Event>)
    requires Valid(s) && Admissible(s, es)
    ensures Valid(Run(s, es))
    decreases |es|
  {
    if es != [] {
      ApplyKeepsValid(s, es[0]);
      RunKeepsValid(Apply(s, es[0]), es[1..]);
    }
  }

  /** In every reachable session, however many resets came before, the first entry is a bot greeting. */
  lemma ReachableOpensWithGreeting(s: Session)
    requires Reachable(s)
    ensures Valid(s)
    ensures s.messages[0].sender == Bot && !s.messages[0].isMarkdown
    ensures s.messages[0].content == Greeting || s.messages[0].content == RestartGreeting
  {
    var es :| Admissible(Initial(), es) && Run(Initial(), es) == s;
    RunKeepsValid(Initial(), es);
  }

  /** Without a reset, entries are only ever added at the end: the old transcript is a prefix of the new. */
  lemma {:induction false} RunOnlyAppends(s: Session, es: seq<Event>)
    requires forall i :: 0 <= i < |es| ==> !es[i].Reset?
    ensures |s.messages| <= |Run(s, es).messages|
    ensures Run(s, es).messages[..|s.messages|] == s.messages
    decreases |es|
  {
    if es != [] {
      var t := Apply(s, es[0]);
      assert |s.messages| <= |t.messages| && t.messages[..|s.messages|] == s.messages;
      RunOnlyAppends(t, es[1..]);
      var u := Run(t, es[1..]);
      assert u.messages[..|s.messages|] == u.messages[..|t.messages|][..|s.messages|];
    }
  }

  /** Order of the steps between resets; a step never moves back without one. */
  function Rank(step: Step): nat
  {
    match step
    case RequestOriginal => 0
    case RequestSrt => 1
    case Processing => 2
    case Completed => 3
    case Error => 3
  }

  /** Between resets at most one comparison is started, and none once the draft has been taken. */
  lemma {:induction false} AtMostOneComparison(s: Session, es: seq<Event>)
    requires Admissible(s, es)
    requires forall i :: 0 <= i < |es| ==> !es[i].Reset?
    ensures StartCount(s, es) <= (if Rank(s.step) <= 1 then 1 else 0)
    decreases |es|
  {
    if es != [] {
      var t := Apply(s, es[0]);
      assert Rank(s.step) <= Rank(t.step);
      assert es[0].Submit? && Started(s, es[0].text).Some? ==> t.step == Processing;
      AtMostOneComparison(t, es[1..]);
    }
  }

  /** Two submissions from the start reach PROCESSING with one comparison of the two full texts; a third changes nothing but the log. */
  lemma TwoSubmissionsStartComparison(original: string, draft: string, third: string)
    ensures var s1 := Submitted(Initial(), original);
            var s2 := Submitted(s1, draft);
            Started(Initial(), original) == None
            && Started(s1, draft) == Some(Comparison(original, draft))
            && s2.step == Processing && s2.original == original && s2.srt == draft
            && Started(s2, third) == None
            && Submitted(s2, third).(messages := s2.messages) == s2
  {
  }

  /** The session reached by a full conversation that ends with the given comparison outcome. */
  lemma {:induction false} FullConversation(original: string, draft: string, outcome: Result<string, GeminiService.Failure>)
    ensures var es := [Submit(original), Submit(draft), Resolve(outcome)];
            var r := Run(Initial(), es);
            Admissible(Initial(), es) && StartCount(Initial(), es) == 1
            && r.messages == [BotSays(Greeting), Message(User, DisplayContent(original), false), BotSays(AskForSrt),
                              Message(User, DisplayContent(draft), false), BotSays(Acknowledgement),
                              if outcome.Success? then Message(Bot, outcome.value, true) else BotSays(FailureNotice)]
            && r.step == (if outcome.Success? then Completed else Error)
            && ResetOffered(r.step) && Admissible(Initial(), es + [Reset])
  {
    var es := [Submit(original), Submit(draft), Resolve(outcome)];
    var s1 := Submitted(Initial(), original);
    var s2 := Submitted(s1, draft);
    assert es[1..] == [Submit(draft), Resolve(outcome)];
    assert es[1..][1..] == [Resolve(outcome)];
    assert Run(Initial(), es) == Run(s1, es[1..]);
    assert Run(s1, es[1..]) == Run(s2, [Resolve(outcome)]);
    assert Run(s2, [Resolve(outcome)]) == Run(Settled(s2, outcome), []);
    assert Admissible(Settled(s2, outcome), []);
    assert StartCount(s2, [Resolve(outcome)]) == 0 + StartCount(Settled(s2, outcome), []);
    var es' := es + [Reset];
    assert es'[1..] == [Submit(draft), Resolve(outcome), Reset];
    assert es'[1..][1..] == [Resolve(outcome), Reset];
    assert es'[1..][1..][1..] == [Reset];
    var s3 := Settled(s2, outcome);
    assert Admissible(Restarted(s3), []);
    assert Admissible(s3, [Reset]);
    assert Admissible(s2, [Resolve(outcome), Reset]);
    assert Admissible(s1, [Submit(draft), Resolve(outcome), Reset]);
  }

  /** The conversation component: the four pieces of state the event handlers update. */
  class Conversation {
    var step: Step
    var original: string
    var srt: string
    var messages: seq<Message>

    /** The component's state as a session value. */
    function Snapshot(): Session
      reads this
    {
      Session(step, original, srt, messages)
    }

    ghost predicate Inv()
      reads this
    {
      Valid(Snapshot())
    }

    /** Mounting: empty state, then the greeting effect. */
    constructor ()
      ensures Snapshot() == Initial() && Inv()
    {
      step, original, srt, messages := RequestOriginal, "", "", [];
      messages := messages + [BotSays(Greeting)];
    }

    /** addMessage: append one entry at the end of the transcript. */
    method AddMessage(sender: Sender, content: string, isMarkdown: bool)
      modifies this
      ensures messages == old(messages) + [Message(sender, content, isMarkdown)]
      ensures step == old(step) && original == old(original) && srt == old(srt)
    {
      messages := messages + [Message(sender, content, isMarkdown)];
    }

    /** handleUserResponse; `started` is the comparison it schedules, if any. */
    method Submit(text: string) returns (started: Option<Comparison>)
      requires Inv()
      modifies this
      ensures Inv()
      ensures Snapshot() == Submitted(old(Snapshot()), text)
      ensures started == Started(old(Snapshot()), text)
    {
      ApplyKeepsValid(Snapshot(), Event.Submit(text));
      AddMessage(User, DisplayContent(text), false);
      started := None;
      if step == RequestOriginal {
        original := text;
        step := RequestSrt;
        AddMessage(Bot, AskForSrt, false);
      } else if step == RequestSrt {
        srt := text;
        step := Processing;
        AddMessage(Bot, Acknowledgement, false);
        started := Some(Comparison(original, text));
      }
    }

    /** processComparison once the awaited comparison has settled. */
    method ProcessComparison(outcome: Result<string, GeminiService.Failure>)
      requires Inv() && step == Processing
      modifies this
      ensures Inv()
      ensures Snapshot() == Settled(old(Snapshot()), outcome)
    {
      ApplyKeepsValid(Snapshot(), Resolve(outcome));
      match outcome
      case Success(report) =>
        AddMessage(Bot, report, true);
        step := Completed;
      case Failure(_) =>
        AddMessage(Bot, FailureNotice, false);
        step := Error;
    }

    /** resetProcess, reachable through the restart control. */
    method ResetProcess()
      requires Inv() && ResetOffered(step)
      modifies this
      ensures Inv()
      ensures Snapshot() == Restarted(old(Snapshot()))
    {
      messages := [];
      original := "";
      srt := "";
      step := RequestOriginal;
      AddMessage(Bot, RestartGreeting, false);
    }
  }

  /**
   * One full round, as the running page performs it: the draft's submission starts a
   * comparison, the requester is called with the texts it names, and its outcome settles
   * the conversation.
   */
  method SubmitDraftAndCompare(c: Conversation, text: string, apiKey: GeminiService.ApiKey,
                               backend: GeminiService.Backend)
    requires c.Inv() && c.step == RequestSrt
    modifies c, backend
    ensures c.Inv()
    ensures backend.requests == old(backend.requests)
              + if GeminiService.HasKey(apiKey)
                then [GeminiService.Request(GeminiService.Prompt(old(c.original), text), GeminiService.SystemInstruction)]
                else []
    ensures |old(c.messages)| < |c.messages| && c.messages[..|old(c.messages)|] == old(c.messages)
    ensures c.original == old(c.original) && c.srt == text
    ensures c.step == Completed <==> GeminiService.HasKey(apiKey) && old(backend.Next()).Responded?
    ensures c.step == Completed || c.step == Error
    ensures ResetOffered(c.step)
    ensures c.step == Completed ==>
              c.messages[|c.messages| - 1] == Message(Bot, GeminiService.ReplyText(old(backend.Next()).text), true)
    ensures c.step == Error ==> c.messages[|c.messages| - 1] == BotSays(FailureNotice)
  {
    var started := c.Submit(text);
    var request := started.value;
    var outcome := GeminiService.CompareContentWithSrt(apiKey, request.original, request.srt, backend);
    c.ProcessComparison(outcome);
  }
}
