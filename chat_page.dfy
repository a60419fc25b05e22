/**
 * The `ChatGPTReplica` component as an object: its three pieces of state are fields
 * that the handlers update one step at a time, as the component's setters do.
 * Every handler keeps the transcript well formed (the greeting, then
 * question/answer turns, with `loading` raised exactly while a question is open).
 */
module ChatPage {
  import opened JsString
  import opened ChatState
  import ChatProperties

  class ChatReplica {
    var messages: seq<Message>
    var input: string
    var loading: bool

    /** The component state as a value. */
    function Snapshot(): Session
      reads this
    {
      Session(messages, input, loading)
    }

    ghost predicate Valid()
      reads this
    {
      WellFormed(Snapshot())
    }

    /** First render: `initialMessages`, an empty draft, nothing in flight. */
    constructor ()
      ensures Valid()
      ensures messages == [Message(Greeting, Ai)] && input == "" && !loading
    {
      messages := [GreetingMessage];
      input := "";
      loading := false;
      ChatProperties.InitialWellFormed();
    }

    /** `handleSendMessage(message)` up to the awaited request. Blank input
        returns at once; otherwise the message is appended verbatim, the draft
        cleared, `loading` raised, and the request with the untrimmed message
        returned. Callers only get here while nothing is in flight. */
    method Submit(message: string) returns (request: Option<Request>)
      requires Valid() && !loading
      modifies this
      ensures Valid()
      ensures Snapshot() == ChatState.Submit(old(Snapshot()), message).0
      ensures IsBlank(message) ==>
        request == None && messages == old(messages) && input == old(input) && !loading
      ensures !IsBlank(message) ==>
        && request == Some(Request(message))
        && messages == old(messages) + [Message(message, User)]
        && input == ""
        && loading
    {
      ChatProperties.SubmitPreservesWellFormed(Snapshot(), message);
      if IsBlank(message) {
        return None;
      }
      messages := messages + [Message(message, User)];
      input := "";
      loading := true;
      request := Some(Request(message));
    }

    /** The settlement of the awaited request: on success the answer, on a
        rejection the fixed apology, is appended as one `"ai"` message; in every
        case `loading` is lowered afterwards. The draft is not touched. */
    method Settle(outcome: Outcome)
      requires Valid() && loading
      modifies this
      ensures Valid()
      ensures Snapshot() == ChatState.Settle(old(Snapshot()), outcome)
      ensures messages == old(messages) + [Message(Reply(outcome), Ai)]
      ensures messages[|old(messages)|].content == (if outcome.Success? then outcome.answer else FailureText)
      ensures input == old(input) && !loading
    {
      ChatProperties.SettlePreservesWellFormed(Snapshot(), outcome);
      match outcome {
        case Success(answer) =>
          messages := messages + [Message(answer, Ai)];
        case Failure =>
          messages := messages + [Message(FailureText, Ai)];
      }
      loading := false;
    }

    /** `handleSuggestionClick(suggestion)`: fills the draft and sends nothing,
        even while a request is in flight. */
    method SuggestionClick(suggestion: string)
      requires Valid()
      modifies this
      ensures Valid()
      ensures input == suggestion && messages == old(messages) && loading == old(loading)
    {
      input := suggestion;
    }

    /** The input's onChange; the input is disabled while `loading`. */
    method Type(text: string)
      requires Valid()
      modifies this
      ensures Valid()
      ensures input == (if old(loading) then old(input) else text)
      ensures messages == old(messages) && loading == old(loading)
    {
      if !loading {
        input := text;
      }
    }

    /** The input's onKeyPress: Enter sends the draft unless a request is in
        flight; any other key, or Enter while `loading`, does nothing. */
    method KeyPress(key: string) returns (request: Option<Request>)
      requires Valid()
      modifies this
      ensures Valid()
      ensures Snapshot() == Step(old(Snapshot()), Event.KeyPress(key))
      ensures key == "Enter" && !old(loading) ==> request == ChatState.Submit(old(Snapshot()), old(input)).1
      ensures old(loading) || key != "Enter" ==>
        request == None && messages == old(messages) && input == old(input) && loading == old(loading)
    {
      if key == "Enter" && !loading {
        request := Submit(input);
      } else {
        request := None;
      }
    }

    /** The Send button, disabled while `loading`: sends the draft. */
    method ClickSend() returns (request: Option<Request>)
      requires Valid()
      modifies this
      ensures Valid()
      ensures Snapshot() == Step(old(Snapshot()), Event.ClickSend)
      ensures !old(loading) ==> request == ChatState.Submit(old(Snapshot()), old(input)).1
      ensures old(loading) ==>
        request == None && messages == old(messages) && input == old(input) && loading
    {
      if !loading {
        request := Submit(input);
      } else {
        request := None;
      }
    }
  }
}
