# SRT vs Content Checker — a Dafny model of the chat flow

The application is a chat page that asks the user for an "original content" text, then
for an unfinished SRT subtitle draft, and hands both to a hosted language model that
reports the wording errors in the draft. This project models the three pieces of logic
behind the page:

- **The conversation state machine** (`app.dfy`, module `App`). `Session` holds the step,
  the stored original, the stored draft and the transcript. The functions `Submitted`,
  `Started`, `Settled` and `Restarted` give the effect of each event handler. The class
  `Conversation` has the four fields the handlers update in place; each method's
  postcondition ties the new state to those functions. `Valid` is the invariant of every
  reachable session, and the lemmas state the transitions, append-only logging, at most
  one comparison per round, and the result or failure entry that ends a round.
- **The input box** (`input_area.dfy`, module `InputArea`, with JavaScript `trim` in
  `text.dfy`). It covers the typed-send guard and the clearing of the box, the Enter
  versus Shift+Enter rule, the file-content check and the send button's disabled state.
- **The comparison requester** (`gemini_service.dfy`, module `GeminiService`). It covers
  the credential check, the system instruction and prompt templates, and the mapping of
  the backend's outcome. The backend is an object of class `Backend`, whose `Generate`
  method records each request it receives and answers with the next scripted outcome.
  The requester's postcondition gives the backend's request record after the call, so
  "no call without a key" and "exactly one call, no retry" constrain what the body does.

Modelling choices:
- A bot message that the page adds after a timer is appended in the same transition as
  the event that sets the timer. The comparison the timer starts is returned by
  `Conversation.Submit` as `started`.
- `Conversation.ProcessComparison` requires the step to be PROCESSING. Its only caller
  is the comparison started by the draft submission. Nothing leaves PROCESSING before
  that comparison settles: submissions keep the step, and reset is not offered.
- `Conversation.ResetProcess` requires `ResetOffered(step)`, because the restart button
  is rendered only in COMPLETED and ERROR (App.tsx:103-110).
- In the page, the missing-key error is thrown from an async function. So it reaches
  `processComparison` as a rejection and ends the round like any other failure.
  `SubmitDraftAndCompare` composes the two parts in this way.

Behaviour of the code worth noting:
- A submission in PROCESSING, COMPLETED or ERROR still logs the user's entry; only the
  step and the stored texts stay as they are (App.tsx:42-64).
- A complete round leaves six transcript entries: the greeting, the original, the
  request for the draft, the draft, the acknowledgement and the result
  (`FullConversation`).
- The greeting after a reset, "Cho tôi file Content gốc của bạn?", is worded
  differently from the first greeting.
- File content is forwarded only when it is non-empty (components/InputArea.tsx:33).

## Model

| member | source | states |
|---|---|---|
| Text.TrimStart | components/InputArea.tsx:14 | the result is the suffix of the input after its leading whitespace; every dropped character is whitespace and the result does not start with whitespace |
| Text.TrimEnd | components/InputArea.tsx:14 | the result is the prefix of the input before its trailing whitespace; every dropped character is whitespace and the result does not end with whitespace |
| Text.Trim | components/InputArea.tsx:14 | a non-empty trimmed string starts and ends with a non-whitespace character |
| Text.TrimEmptyIffBlank | components/InputArea.tsx:14 | `text.trim()` is empty (falsy) exactly when every character of the text is whitespace |
| InputArea.CanSend | components/InputArea.tsx:14 | a typed send goes through exactly when input is enabled and the text has a non-whitespace character |
| InputArea.SendButtonDisabled | components/InputArea.tsx:79 | the send button is disabled exactly when a click would forward nothing; in particular for blank text |
| InputArea.IsSendKey | components/InputArea.tsx:21 | Enter without Shift sends; Enter with Shift never sends; no other key sends |
| InputArea.OnFileLoaded | components/InputArea.tsx:31-36 | file content is forwarded if and only if it is non-empty, unchanged, with no trim and no disabled check |
| InputArea.TextBox.constructor | components/InputArea.tsx:10 | the box starts empty |
| InputArea.TextBox.Change | components/InputArea.tsx:68 | the box holds what was typed |
| InputArea.TextBox.SendClick | components/InputArea.tsx:13-18 | forwards the untrimmed box content exactly when the guard holds and then empties the box; otherwise forwards nothing and keeps the text |
| InputArea.TextBox.KeyDown | components/InputArea.tsx:20-25 | a send key behaves as the send click; any other key, and Shift+Enter, forwards nothing and keeps the text |
| GeminiService.GetClient | services/geminiService.ts:3-9 | a client exists exactly for a present, non-empty key, built from that key; otherwise the missing-key error |
| GeminiService.Prompt | services/geminiService.ts:36-48 | the prompt's length is the two texts' lengths plus the fixed template length |
| GeminiService.PromptFramesTexts | services/geminiService.ts:36-48 | the original appears verbatim between an opening and a closing `"""` delimiter, and the draft likewise, strictly after it |
| GeminiService.PromptDeterminesTexts | services/geminiService.ts:36-48 | given the original's length, the prompt determines both texts |
| GeminiService.PromptIsAmbiguous | services/geminiService.ts:36-48 | without that length the framing is ambiguous: two different text pairs give the same prompt |
| GeminiService.ReplyText | services/geminiService.ts:60 | a non-empty backend text is returned unmodified; an absent or empty one becomes the fixed placeholder; the result is never empty |
| GeminiService.MapOutcome | services/geminiService.ts:60-63 | a backend reply becomes a success carrying its text or the placeholder, never empty; a thrown error becomes the single connection error |
| GeminiService.Backend.constructor | services/geminiService.ts:51-58 | a backend that has received no request yet and will answer with the given outcomes in turn |
| GeminiService.Backend.Generate | services/geminiService.ts:51-58 | one call records its request after the earlier ones and is answered with the next outcome |
| GeminiService.CompareContentWithSrt | services/geminiService.ts:11-65 | without a usable key the backend receives no request and the missing-key error comes back with its own message, not rewrapped; otherwise the backend receives exactly one request, with the prompt and the system instruction, and the result is the mapping of that call's outcome; a success is never empty |
| App.DisplayContent | App.tsx:44 | texts of up to 300 characters are shown unchanged; longer ones as their first 300 characters followed by the received marker; never longer than 322 characters |
| App.InputDisabled | App.tsx:144 | input is disabled exactly when neither text is being asked for (PROCESSING, COMPLETED, ERROR) |
| App.ResetOffered | App.tsx:103 | the restart control is shown exactly when input is disabled and no comparison is running, i.e. in COMPLETED and ERROR |
| App.Initial | App.tsx:14-24 | a fresh conversation asks for the original, stores nothing, and its transcript is exactly the plain greeting |
| App.Started | App.tsx:55-62 | a submission starts a comparison exactly when the draft is awaited |
| App.SubmitLogsUserEntry | App.tsx:44 | every submission keeps the old transcript and appends the user's display entry right after it |
| App.SubmitOriginal | App.tsx:47-53 | submitting the original stores it whole, moves to REQUEST_SRT, leaves the draft unchanged, appends the user entry and the request for the draft, starts nothing |
| App.SubmitDraft | App.tsx:55-62 | submitting the draft stores it whole, moves to PROCESSING, appends the user entry and the acknowledgement, and starts one comparison of the stored original and the full draft |
| App.SubmitAdvancesIffEnabled | App.tsx:42-64 | a submission changes the step exactly when input is enabled; otherwise only the user entry is appended and nothing starts |
| App.SettleOutcome | App.tsx:66-75 | settling keeps the transcript and both texts; a success appends the result as a markdown entry and completes; a failure appends the fixed notice and ends in ERROR |
| App.ResetRestarts | App.tsx:77-85 | after reset the transcript is the single plain restart greeting, both texts are empty, input is enabled again at REQUEST_ORIGINAL, and the session is valid |
| App.ApplyKeepsValid | App.tsx:42-85 | every enabled event keeps the session invariant |
| App.RunKeepsValid | App.tsx:42-85 | the session invariant holds after any admissible sequence of events |
| App.ReachableOpensWithGreeting | App.tsx:20-24 | in every reachable session, however many resets came before, the first entry is a plain bot greeting |
| App.RunOnlyAppends | App.tsx:31-40 | without a reset, entries are only added at the end; earlier entries never change or move |
| App.AtMostOneComparison | App.tsx:55-62 | between resets at most one comparison is started, and none once the draft has been taken |
| App.TwoSubmissionsStartComparison | App.tsx:47-62 | two submissions from the start reach PROCESSING with one comparison of the two full texts; a third changes only the transcript |
| App.FullConversation | App.tsx:42-75 | a complete round produces the six listed entries, starts one comparison, ends in COMPLETED on success and ERROR on failure, and then offers reset as an admissible next event |
| App.Conversation.constructor | App.tsx:13-24 | mounting yields the initial session |
| App.Conversation.AddMessage | App.tsx:31-40 | appends one entry at the end and changes nothing else |
| App.Conversation.Submit | App.tsx:42-64 | the new state and the started comparison are those of `Submitted` and `Started`; the invariant is kept |
| App.Conversation.ProcessComparison | App.tsx:66-75 | the new state is that of `Settled`; the invariant is kept |
| App.Conversation.ResetProcess | App.tsx:77-85 | the new state is that of `Restarted`; the invariant is kept |
| App.SubmitDraftAndCompare | App.tsx:55-75 | submitting the draft and settling the comparison sends the backend exactly one request, built from the stored original and the full draft, and only when a key is present; it ends in COMPLETED with the reply as the last, markdown, entry exactly when that call returned, otherwise in ERROR with the fixed notice; either way reset is then offered |

## Left out

- Message ids (random, App.tsx:9-11) and timestamps: the model does not claim ids are unique.
- Timer delays (App.tsx:51, 59, 82): the delayed bot entry is appended in the same transition. So the model does not cover a user submission that lands before a delayed entry.
- React's asynchronous state updates and stale handler closures: each handler sees the state left by the previous one.
- Text lengths are counted in Unicode characters. JavaScript counts UTF-16 code units, so the 300 limit differs for characters outside the Basic Multilingual Plane.
- The backend SDK call, the model name and `temperature: 0.1` (a float). The call is `Backend.Generate` on a scripted backend; a call made after the script is exhausted is answered as a thrown error. The credential is an `Option<string>` parameter instead of the process environment.
- The `console.error` logging of backend errors.
- The backend's report format and the comparison itself: the backend produces them, not this code.
- Rendering: components/ChatMessage.tsx, markdown display, the "working" indicator, the placeholder texts (App.tsx:145-149), scrolling and focus.
- The FileReader, the hidden file input, its reset after each upload, and `preventDefault` on Enter.
