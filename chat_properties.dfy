/**
 * What the send logic of the chat page guarantees: the transcript is append-only,
 * blank input and sends while a request is in flight change nothing, every
 * question gets exactly one answer once the request settles, and every state the
 * page can reach has the greeting followed by question/answer turns.
 */
module ChatProperties {
  import opened JsString
  import opened ChatState

  /** The page starts with only the greeting, an empty draft and nothing in flight. */
  lemma InitialWellFormed()
    ensures WellFormed(Initial)
    ensures Initial.messages == [Message(Greeting, Ai)] && Initial.input == "" && !Initial.loading
  {
  }

  /** Submitting a message that is empty or all whitespace leaves the transcript,
      the draft and `loading` as they were, and issues no request. */
  lemma WhitespaceSubmitChangesNothing(s: Session, message: string)
    requires !s.loading
    requires forall k :: 0 <= k < |message| ==> IsWhitespace(message[k])
    ensures Submit(s, message) == (s, None)
  {
    BlankIffAllWhitespace(message);
  }

  /** Submitting a message with any non-whitespace character appends it verbatim
      as a `"user"` message, clears the draft, raises `loading` and sends the
      untrimmed message as `question`. */
  lemma SubmitNonBlank(s: Session, message: string, k: nat)
    requires !s.loading
    requires k < |message| && !IsWhitespace(message[k])
    ensures Submit(s, message).0 == Session(s.messages + [Message(message, User)], "", true)
    ensures Submit(s, message).1 == Some(Request(message))
  {
    BlankIffAllWhitespace(message);
  }

  /** A submit followed by its settlement grows the transcript by exactly two
      entries, the question and then one `"ai"` reply, keeps the old transcript as
      an untouched prefix, and ends with `loading` lowered whatever the outcome. */
  lemma SubmitThenSettle(s: Session, message: string, outcome: Outcome)
    requires !s.loading && !IsBlank(message)
    ensures Submit(s, message).0.loading
    ensures var t := Settle(Submit(s, message).0, outcome);
      && t.messages == s.messages + [Message(message, User), Message(Reply(outcome), Ai)]
      && |t.messages| == |s.messages| + 2
      && t.messages[..|s.messages|] == s.messages
      && !t.loading
      && t.input == ""
  {
  }

  /** A rejected request is answered with the fixed apology, a resolved one with
      its answer: both as the one `"ai"` message appended. */
  lemma SettleReply(s: Session, outcome: Outcome)
    requires s.loading
    ensures var t := Settle(s, outcome);
      && t.messages[..|s.messages|] == s.messages
      && |t.messages| == |s.messages| + 1
      && t.messages[|s.messages|].sender == Ai
      && t.messages[|s.messages|].content == (if outcome.Failure? then FailureText else outcome.answer)
      && !t.loading
  {
  }

  /** While a request is in flight, neither Enter nor the Send button sends
      anything, and typing into the disabled input does nothing. */
  lemma NoSendWhileLoading(s: Session, key: string, text: string)
    requires s.loading
    ensures Step(s, KeyPress(key)) == s
    ensures Step(s, ClickSend) == s
    ensures Step(s, Type(text)) == s
  {
  }

  /** A suggestion click only overwrites the draft, in any state. */
  lemma SuggestionOnlySetsDraft(s: Session, suggestion: string)
    ensures Step(s, ClickSuggestion(suggestion)).input == suggestion
    ensures Step(s, ClickSuggestion(suggestion)).messages == s.messages
    ensures Step(s, ClickSuggestion(suggestion)).loading == s.loading
  {
  }

  /** No event removes or rewrites a transcript entry. */
  lemma StepAppendOnly(s: Session, e: Event)
    ensures |s.messages| <= |Step(s, e).messages|
    ensures Step(s, e).messages[..|s.messages|] == s.messages
  {
    var t := Step(s, e);
    assert s.messages <= t.messages;
  }

  /** Over any sequence of events the old transcript stays an unchanged prefix. */
  lemma {:induction false} RunAppendOnly(s: Session, events: seq<Event>)
    ensures |s.messages| <= |Run(s, events).messages|
    ensures Run(s, events).messages[..|s.messages|] == s.messages
    decreases |events|
  {
    if events != [] {
      var s1 := Step(s, events[0]);
      StepAppendOnly(s, events[0]);
      RunAppendOnly(s1, events[1..]);
      assert s.messages <= s1.messages <= Run(s1, events[1..]).messages;
    }
  }

  lemma SubmitPreservesWellFormed(s: Session, message: string)
    requires WellFormed(s) && !s.loading
    ensures WellFormed(Submit(s, message).0)
  {
    if !IsBlank(message) {
      var m := Submit(s, message).0.messages;
      assert m[1..] == s.messages[1..] + [Message(message, User)];
    }
  }

  lemma SettlePreservesWellFormed(s: Session, outcome: Outcome)
    requires WellFormed(s) && s.loading
    ensures WellFormed(Settle(s, outcome))
  {
    var m := Settle(s, outcome).messages;
    assert m[1..] == s.messages[1..] + [Message(Reply(outcome), Ai)];
  }

  /** Every event keeps the transcript's greeting-then-turns shape. */
  lemma StepPreservesWellFormed(s: Session, e: Event)
    requires WellFormed(s)
    ensures WellFormed(Step(s, e))
  {
    match e
    case KeyPress(key) =>
      if key == "Enter" && !s.loading { SubmitPreservesWellFormed(s, s.input); }
    case ClickSend =>
      if !s.loading { SubmitPreservesWellFormed(s, s.input); }
    case Settled(outcome) =>
      if s.loading { SettlePreservesWellFormed(s, outcome); }
    case _ =>
  }

  lemma {:induction false} RunPreservesWellFormed(s: Session, events: seq<Event>)
    requires WellFormed(s)
    ensures WellFormed(Run(s, events))
    decreases |events|
  {
    if events != [] {
      StepPreservesWellFormed(s, events[0]);
      RunPreservesWellFormed(Step(s, events[0]), events[1..]);
    }
  }

  /** Every state the page can reach from its initial state is well formed. */
  lemma Reachable(events: seq<Event>)
    ensures WellFormed(Run(Initial, events))
    ensures Run(Initial, events).messages[0] == Message(Greeting, Ai)
  {
    InitialWellFormed();
    RunPreservesWellFormed(Initial, events);
  }

  /** In a well-formed state, `loading` is raised exactly when the last entry is
      a question still waiting for its answer. */
  lemma LoadingIffQuestionOpen(s: Session)
    requires WellFormed(s)
    ensures s.loading <==> s.messages[|s.messages| - 1].sender == User
  {
    var t := s.messages[1..];
    if |t| > 0 {
      assert s.messages[|s.messages| - 1] == t[|t| - 1];
    }
  }

  /** With no question pending, a question among the turns is answered by the
      next turn, and the turn after that (if any) is a question again. */
  lemma TurnsAnswered(t: seq<Message>, j: nat)
    requires Turns(t, false) && j < |t| && t[j].sender == User
    ensures j + 1 < |t| && t[j + 1].sender == Ai
    ensures j + 2 < |t| ==> t[j + 2].sender == User
  {
    assert j % 2 == 0;
    assert |t| % 2 == 0;
    assert (j + 1) % 2 == 1;
  }

  /** Once nothing is in flight, every `"user"` message is followed by exactly one
      `"ai"` message: the next entry is the answer, and the one after it (if any)
      is the next question. */
  lemma EveryQuestionAnswered(s: Session)
    requires WellFormed(s) && !s.loading
    ensures forall i :: 0 <= i < |s.messages| && s.messages[i].sender == User ==>
      && i + 1 < |s.messages|
      && s.messages[i + 1].sender == Ai
      && (i + 2 < |s.messages| ==> s.messages[i + 2].sender == User)
  {
    var m, t := s.messages, s.messages[1..];
    forall i | 0 <= i < |m| && m[i].sender == User
      ensures i + 1 < |m| && m[i + 1].sender == Ai && (i + 2 < |m| ==> m[i + 2].sender == User)
    {
      assert i != 0 by { assert m[0] == GreetingMessage; }
      assert m[i] == t[i - 1];
      TurnsAnswered(t, i - 1);
      assert m[i + 1] == t[i];
      if i + 2 < |m| {
        assert m[i + 2] == t[i + 1];
      }
    }
  }

  /** A second send while the first is in flight is dropped, even when a
      suggestion refilled the draft: the transcript grows by two, not four. */
  lemma RapidResubmitDropped(s: Session, first: string, second: string, outcome: Outcome)
    requires !s.loading && !IsBlank(first)
    ensures var t := Run(s, [Type(first), ClickSend, ClickSuggestion(second), ClickSend, KeyPress("Enter"), Settled(outcome)]);
      && t.messages == s.messages + [Message(first, User), Message(Reply(outcome), Ai)]
      && t.input == second
      && !t.loading
  {
    var events := [Type(first), ClickSend, ClickSuggestion(second), ClickSend, KeyPress("Enter"), Settled(outcome)];
    var s2 := Session(s.messages + [Message(first, User)], "", true);
    var s3 := s2.(input := second);
    calc {
      Run(s, events);
      { assert Step(s, events[0]) == s.(input := first); }
      Run(s.(input := first), events[1..]);
      { assert events[1..][1..] == events[2..]; }
      Run(s2, events[2..]);
      { assert events[2..][1..] == events[3..]; }
      Run(s3, events[3..]);
      { assert events[3..][1..] == events[4..]; }
      Run(s3, events[4..]);
      { assert events[4..][1..] == events[5..]; }
      Run(s3, events[5..]);
      { assert events[5..][1..] == []; }
      Settle(s3, outcome);
    }
  }

  /** A fresh page, the suggestion "What is GarAi?" sent with the button and
      answered: the transcript is the greeting, the question and the answer. */
  lemma AnsweredQuestionScenario()
    ensures var t := Run(Initial, [ClickSuggestion("What is GarAi?"), ClickSend, Settled(Success("I am GarAi."))]);
      t == Session([Message(Greeting, Ai), Message("What is GarAi?", User), Message("I am GarAi.", Ai)], "", false)
  {
    var events := [ClickSuggestion("What is GarAi?"), ClickSend, Settled(Success("I am GarAi."))];
    NonWhitespaceNotBlank("What is GarAi?", 0);
    assert events[1..][1..] == [Settled(Success("I am GarAi."))];
  }

  /** The same question typed and sent with Enter, but the request rejects: the
      last entry is the fixed apology and nothing is left in flight. */
  lemma RejectedQuestionScenario()
    ensures var t := Run(Initial, [Type("What is GarAi?"), KeyPress("Enter"), Settled(Failure)]);
      t == Session([Message(Greeting, Ai), Message("What is GarAi?", User), Message("Sorry, something went wrong.", Ai)], "", false)
  {
    var events := [Type("What is GarAi?"), KeyPress("Enter"), Settled(Failure)];
    NonWhitespaceNotBlank("What is GarAi?", 0);
    assert events[1..][1..] == [Settled(Failure)];
  }
}
