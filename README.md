# GarAi chat page: the send state machine

The GarAi front end is a single chat page, `ChatGPTReplica` in `src/app/page.js`.
It keeps three pieces of component state:

- `messages`: the transcript, which starts with one `"ai"` greeting;
- `inputMessage`: the draft in the text field;
- `loading`: raised while a question is waiting for the answering service.

`handleSendMessage` works in order:

1. It ignores a message whose `trim()` is empty.
2. It appends the message verbatim as a `"user"` entry.
3. It clears the draft and raises `loading`.
4. It POSTs `{ question }` and awaits the reply.
5. It appends exactly one `"ai"` entry: the returned `answer`, or the fixed apology if anything threw.
6. It lowers `loading` in `finally`.

Enter sends only while nothing is in flight. The text field and the Send button are disabled while `loading`. A suggestion click only fills the draft.

The project models this as a two-state machine (idle, then waiting, then idle again) over an append-only transcript:

- `js_string.dfy` (module `JsString`): `String.prototype.trim` and "blank", over the ECMAScript whitespace and line-terminator code points.
- `chat_state.dfy` (module `ChatState`): the state as a value (`Session`), the two halves of `handleSendMessage` (`Submit` up to the awaited request, `Settle` for its settlement), `SuggestionClick`, the user events the page wires to them (`Step`, `Run`), and the well-formedness invariant (`WellFormed`: the greeting, then question/answer turns, with `loading` raised exactly while a question is open).
- `chat_properties.dfy` (module `ChatProperties`): the lemmas.
- `chat_page.dfy` (module `ChatPage`): the component as a class `ChatReplica` whose fields `messages`, `input` and `loading` are updated step by step by its handlers. Each handler keeps `Valid()`, which is `WellFormed` of the fields. Each handler states the new fields in terms of the old ones.

The network request is not performed. `Submit` returns the request it would send, and the settlement arrives as a parameter: `Success(answer)` or `Failure`.

## What the page does not do

- Nothing is persisted or restored. The page always starts from `initialMessages`.
- The "no send while pending" guard is in the UI, not in `handleSendMessage`. Enter checks `!loading`, and the field and button are disabled. `Submit` therefore requires `!loading`, and the event layer drops sends while `loading`.
- The HTTP status is never checked, and an `answer` that is missing or not a string is stored as it is rather than replaced by the apology (see Left out).

## Model

| member | source | states |
|---|---|---|
| JsString.TrimStart | src/app/page.js:29 | the result is a suffix of the input, everything dropped is whitespace, and the result starts with non-whitespace |
| JsString.TrimEnd | src/app/page.js:29 | the result is a prefix of the input, everything dropped is whitespace, and the result ends with non-whitespace |
| JsString.Trim | src/app/page.js:29 | `trim()` is no longer than its input, and a non-empty result starts and ends with non-whitespace |
| JsString.TrimIsMiddle | src/app/page.js:29 | `trim()` is the middle `s[i..j]` of the message: only the whitespace before `i` and after `j` is dropped |
| JsString.BlankIffAllWhitespace | src/app/page.js:29 | `message.trim() === ""` holds exactly when every character is whitespace, including for the empty string |
| JsString.NonWhitespaceNotBlank | src/app/page.js:29 | a message with any non-whitespace character passes the blank check |
| ChatProperties.InitialWellFormed | src/app/page.js:11-19 | the initial state holds only the `"ai"` greeting, with an empty draft and `loading` false, and is well formed |
| ChatProperties.WhitespaceSubmitChangesNothing | src/app/page.js:29 | an empty or all-whitespace message leaves the transcript, draft and `loading` untouched and sends no request |
| ChatProperties.SubmitNonBlank | src/app/page.js:29-45 | a message with a non-whitespace character is appended verbatim as `"user"`; the draft is cleared, `loading` raised, and the request's `question` is the untrimmed message |
| ChatProperties.SubmitThenSettle | src/app/page.js:31-56 | a submit plus its settlement grows the transcript by exactly 2 (the question, then one `"ai"` reply), keeps the old transcript as a prefix, and ends with `loading` false |
| ChatProperties.SettleReply | src/app/page.js:47-56 | a settlement keeps every earlier entry and appends exactly one `"ai"` entry: the answer on success, "Sorry, something went wrong." on a rejection; `loading` is false afterwards |
| ChatProperties.NoSendWhileLoading | src/app/page.js:121-128 | while `loading`, Enter, the Send button and typing change nothing |
| ChatProperties.SuggestionOnlySetsDraft | src/app/page.js:59-61 | a suggestion click sets the draft and leaves the transcript and `loading` alone |
| ChatProperties.StepAppendOnly | src/app/page.js:31-53 | no single event removes or rewrites a transcript entry |
| ChatProperties.RunAppendOnly | src/app/page.js:31-53 | over any event sequence the old transcript stays an unchanged prefix |
| ChatProperties.SubmitPreservesWellFormed | src/app/page.js:29-34 | a submit from a well-formed idle state leaves a well-formed state |
| ChatProperties.SettlePreservesWellFormed | src/app/page.js:47-56 | a settlement from a well-formed waiting state leaves a well-formed state |
| ChatProperties.StepPreservesWellFormed | src/app/page.js:121-128 | every user or network event keeps the state well formed |
| ChatProperties.RunPreservesWellFormed | src/app/page.js:28-61 | any event sequence from a well-formed state ends in a well-formed state |
| ChatProperties.Reachable | src/app/page.js:11-19 | every state reachable from the first render is well formed and still starts with the greeting |
| ChatProperties.LoadingIffQuestionOpen | src/app/page.js:31-55 | in a well-formed state, `loading` is true exactly when the last entry is a `"user"` question |
| ChatProperties.TurnsAnswered | src/app/page.js:31-53 | with nothing pending, each question in the turns is followed by its answer and then by a question, if there is a next entry |
| ChatProperties.EveryQuestionAnswered | src/app/page.js:31-55 | once `loading` is false, every `"user"` entry is followed by exactly one `"ai"` entry |
| ChatProperties.RapidResubmitDropped | src/app/page.js:123-128 | a second send while the first is in flight is dropped: the transcript grows by 2, not 4 |
| ChatProperties.AnsweredQuestionScenario | src/app/page.js:11-61 | a fresh page, a suggestion sent and answered: the transcript is the greeting, the question and the answer |
| ChatProperties.RejectedQuestionScenario | src/app/page.js:11-57 | a typed question sent with Enter and rejected: the transcript ends with the fixed apology and `loading` is false |
| ChatPage.ChatReplica.constructor | src/app/page.js:11-19 | the component starts with the greeting, an empty draft and `loading` false, and is valid |
| ChatPage.ChatReplica.Submit | src/app/page.js:28-45 | blank input changes nothing; otherwise the fields become the old transcript plus the verbatim `"user"` entry, an empty draft and `loading` true, and the returned request carries the raw message; validity is kept |
| ChatPage.ChatReplica.Settle | src/app/page.js:47-56 | the transcript gains one `"ai"` entry (the answer or the apology), the draft is untouched, `loading` becomes false, and validity is kept |
| ChatPage.ChatReplica.SuggestionClick | src/app/page.js:59-61 | only the draft changes, to the suggestion, even while `loading` |
| ChatPage.ChatReplica.Type | src/app/page.js:121-126 | the draft follows the typed text unless the field is disabled by `loading`; nothing else changes |
| ChatPage.ChatReplica.KeyPress | src/app/page.js:122-124 | Enter while idle sends the draft as a submit would; any other key, or Enter while `loading`, changes nothing and sends nothing |
| ChatPage.ChatReplica.ClickSend | src/app/page.js:128 | the button sends the draft as a submit would while idle; while `loading` it is disabled and nothing changes |

## Left out

- The `fetch` call, its endpoint, headers and `response.json()` (src/app/page.js:38-47) are network I/O. The settlement is a parameter: `Success(answer)` or `Failure`.
- The HTTP status is never checked. A non-2xx reply whose body parses to an object settles like a 2xx one: its `answer` property, whatever it holds, becomes the content. Only a body that fails to parse, or one that parses to `null` (reading `answer` of `null` throws), ends in the apology. The model's `Failure` stands for every path that throws inside the `try`.
- Only string answers are represented. A parsed body whose `answer` is missing (`undefined`), `null`, a number or an object stores that value as the content, and `Success(answer: string)` cannot carry it.
- Async interleaving and React's batched or stale-closure state updates are not modelled. `Submit` and `Settle` are two atomic steps. `Settle` appends to the current transcript, which equals the `newMessages` captured at submit time, because nothing else changes the transcript while a request is in flight.
- An event the page cannot deliver is a no-op in `Step`: typing into the disabled field, clicking the disabled Send button, or a settlement with nothing in flight.
- Persistence and restore of the transcript: the page has no storage code.
- Theme toggling, the suggestion list's contents, rendering, avatars, styling and scrolling (src/app/page.js:21-26, 63-135) are presentation only.
- The `console.error` logging in the rejection path (src/app/page.js:52) is not modelled.
