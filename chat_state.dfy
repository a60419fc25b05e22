/**
 * The conversation held by the `ChatGPTReplica` page component, as a value: the
 * transcript `messages`, the draft `inputMessage` and the in-flight flag `loading`,
 * the two halves of `handleSendMessage` (the part before the request is awaited,
 * and its settlement), `handleSuggestionClick`, and the user events the page wires
 * to them. The request to the answering service is not performed: `Submit` returns
 * the request it would send, and `Settle` receives its outcome as a parameter.
 */
module ChatState {
  import opened JsString

  datatype Sender = User | Ai

  /** One transcript entry, `{ content, sender }`. */
  datatype Message = Message(content: string, sender: Sender)

  /** The body of the outbound POST, `{ question }`. */
  datatype Request = Request(question: string)

  /** How the awaited request settled: the `answer` of the parsed body, or
      anything thrown inside the `try` (a rejected fetch, a body that does not
      parse, a `null` body). */
  datatype Outcome = Success(answer: string) | Failure

  datatype Option<T> = None | Some(value: T)

  /** The component state that the send logic reads and writes. */
  datatype Session = Session(messages: seq<Message>, input: string, loading: bool)

  const Greeting: string :=
    "Hi, I\U{2019}m GarAi, here to answer your questions as Garrett. Ask me anything about his skills, experience, or projects, and I\U{2019}ll respond just like he would. Let\U{2019}s chat!"

  const FailureText: string := "Sorry, something went wrong."

  const GreetingMessage: Message := Message(Greeting, Ai)

  /** `initialMessages`, an empty draft and no request in flight. */
  const Initial: Session := Session([GreetingMessage], "", false)

  /** The content of the `"ai"` message that a settlement appends. */
  function Reply(outcome: Outcome): string {
    match outcome
    case Success(answer) => answer
    case Failure => FailureText
  }

  /** `handleSendMessage(message)` up to the awaited request: a blank message is
      ignored; otherwise the message is appended verbatim, the draft is cleared,
      `loading` is raised and the request carrying the raw message is issued.
      The page only calls it while no request is in flight. */
  function Submit(s: Session, message: string): (Session, Option<Request>)
    requires !s.loading
  {
    if IsBlank(message) then (s, None)
    else
      (Session(s.messages + [Message(message, User)], "", true), Some(Request(message)))
  }

  /** The rest of `handleSendMessage` once the request settles: exactly one `"ai"`
      message is appended (the answer, or the fixed apology when the request
      rejected) and `loading` is lowered. The draft is left as it is. */
  function Settle(s: Session, outcome: Outcome): Session
    requires s.loading
  {
    Session(s.messages + [Message(Reply(outcome), Ai)], s.input, false)
  }

  /** `handleSuggestionClick(suggestion)`: overwrite the draft, nothing else. */
  function SuggestionClick(s: Session, suggestion: string): Session {
    s.(input := suggestion)
  }

  /** What the user (or the network) can do to the page. */
  datatype Event =
    | Type(text: string)               // the input's onChange
    | ClickSuggestion(suggestion: string)
    | KeyPress(key: string)            // the input's onKeyPress
    | ClickSend
    | Settled(outcome: Outcome)        // the awaited request settles

  /** One event. The input field and the Send button are disabled while
      `loading`, so typing and clicking Send then do nothing; Enter sends only
      when not `loading`; a settlement happens only while a request is in flight. */
  function Step(s: Session, e: Event): Session {
    match e
    case Type(text) => if s.loading then s else s.(input := text)
    case ClickSuggestion(suggestion) => SuggestionClick(s, suggestion)
    case KeyPress(key) => if key == "Enter" && !s.loading then Submit(s, s.input).0 else s
    case ClickSend => if s.loading then s else Submit(s, s.input).0
    case Settled(outcome) => if s.loading then Settle(s, outcome) else s
  }

  /** The session after a sequence of events, in order. */
  function Run(s: Session, events: seq<Event>): Session
    decreases |events|
  {
    if events == [] then s else Run(Step(s, events[0]), events[1..])
  }

  /** The questions and answers after the greeting alternate, starting with a
      question, and every question is non-blank; an odd count means the last
      question is still waiting for its answer. */
  ghost predicate Turns(t: seq<Message>, pending: bool) {
    (|t| % 2 == 1 <==> pending)
    && forall i :: 0 <= i < |t| ==>
         (t[i].sender == User <==> i % 2 == 0) && (t[i].sender == User ==> !IsBlank(t[i].content))
  }

  /** The shape of every transcript the page can reach: the greeting first, then
      question/answer turns, with `loading` raised exactly while a question is
      unanswered. */
  ghost predicate WellFormed(s: Session) {
    |s.messages| >= 1 && s.messages[0] == GreetingMessage && Turns(s.messages[1..], s.loading)
  }
}
