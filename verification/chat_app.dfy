/**
 * The App component: its state (`messages`, `isLoading`, `error`, and whether
 * the chat handle exists) and `handleSendMessage`, the send workflow that
 * appends a user message and a placeholder, streams the model's answer into
 * the placeholder, and removes it again when the stream fails.
 *
 * The remote stream is given as the fragments it delivered before it ended,
 * together with how it ended.
 */
module ChatApp {
  import opened Wrappers
  import opened Conversation
  import Text
  import ChatInput

  /**
   * How the response stream ended: exhausted; rejected with an object whose
   * `message` may be missing; or rejected with `null` or `undefined`, where
   * reading `e.message` in the `catch` throws in turn, so that only the
   * `finally` runs.
   */
  datatype StreamEnd = Completed | Failed(message: Option<string>) | FailedNullish

  /** The text fragments delivered, in arrival order, and how the stream ended after them. */
  datatype Stream = Stream(fragments: seq<string>, end: StreamEnd)

  datatype ChatState = ChatState(messages: seq<Message>, isLoading: bool, error: Option<string>, initialized: bool)

  const NotInitialized: string := "Chat is not initialized."
  const UnknownError: string := "An unknown error occurred."

  /** The running accumulator after the given fragments: `fullResponse += chunkText` from `''`. */
  function Concat(fragments: seq<string>): (r: string)
  {
    if fragments == [] then "" else Concat(fragments[..|fragments| - 1]) + fragments[|fragments| - 1]
  }

  /** Chunking invariance: the accumulated text does not depend on where the fragments are cut. */
  lemma {:induction false} ConcatAppend(a: seq<string>, b: seq<string>)
    ensures Concat(a + b) == Concat(a) + Concat(b)
  {
    if b == [] {
      assert a + b == a;
    } else {
      var b' := b[..|b| - 1];
      assert (a + b)[..|a + b| - 1] == a + b';
      ConcatAppend(a, b');
    }
  }

  lemma ConcatSingle(x: string)
    ensures Concat([x]) == x
  {
    assert [x][..0] == [];
    assert "" + x == x;
  }

  /** One more fragment extends the accumulator by exactly that fragment. */
  lemma ConcatStep(fragments: seq<string>, i: nat)
    requires i < |fragments|
    ensures Concat(fragments[..i + 1]) == Concat(fragments[..i]) + fragments[i]
  {
    assert fragments[..i + 1][..i] == fragments[..i];
  }

  lemma ConcatPair(x: string, y: string)
    ensures Concat([x, y]) == x + y
  {
    assert [x, y][..1] == [x];
    ConcatSingle(x);
  }

  /** Cutting one fragment into two pieces leaves the accumulated text unchanged. */
  lemma SplitFragment(fragments: seq<string>, k: nat, cut: nat)
    requires k < |fragments| && cut <= |fragments[k]|
    ensures Concat(fragments[..k] + [fragments[k][..cut], fragments[k][cut..]] + fragments[k + 1..]) == Concat(fragments)
  {
    var before, after := fragments[..k], fragments[k + 1..];
    var f := fragments[k];
    var x, y := f[..cut], f[cut..];
    calc {
      Concat(before + [x, y] + after);
    == { ConcatAppend(before + [x, y], after); }
      Concat(before + [x, y]) + Concat(after);
    == { ConcatAppend(before, [x, y]); }
      Concat(before) + Concat([x, y]) + Concat(after);
    == { ConcatPair(x, y); assert x + y == f; ConcatSingle(f); }
      Concat(before) + Concat([f]) + Concat(after);
    == { ConcatAppend(before, [f]); }
      Concat(before + [f]) + Concat(after);
    == { ConcatAppend(before + [f], after); assert before + [f] + after == fragments; }
      Concat(fragments);
    }
  }

  /** `Error: ${e.message || 'An unknown error occurred.'}`: an empty message counts as none. */
  function ErrorText(message: Option<string>): (r: string)
  {
    "Error: " + if message.Some? && message.value != "" then message.value else UnknownError
  }

  /** The list after the fragments: the placeholder untouched if none came, else holding the accumulated text. */
  function StreamedTurn(turn: seq<Message>, modelId: string, fragments: seq<string>): (r: seq<Message>)
  {
    if fragments == [] then turn else ReplaceText(turn, modelId, Concat(fragments))
  }

  /** One more fragment: the placeholder is rewritten to the accumulator extended by that fragment. */
  lemma StreamedTurnStep(turn: seq<Message>, modelId: string, fragments: seq<string>, i: nat)
    requires i < |fragments|
    ensures Concat(fragments[..i + 1]) == Concat(fragments[..i]) + fragments[i]
    ensures StreamedTurn(turn, modelId, fragments[..i + 1])
         == ReplaceText(StreamedTurn(turn, modelId, fragments[..i]), modelId, Concat(fragments[..i + 1]))
  {
    ConcatStep(fragments, i);
    if i > 0 {
      ReplaceTextTwice(turn, modelId, Concat(fragments[..i]), Concat(fragments[..i + 1]));
    }
  }

  /** The state when the App component mounts: the greeting alone, not loading, no error. */
  function Initial(initialized: bool): (s: ChatState)
  {
    ChatState([Message(GreetingId, Model, GreetingText)], false, None, initialized)
  }

  /** The state once a `handleSendMessage(userInput)` has run to its end. */
  function SendOutcome(s: ChatState, userInput: string, userId: string, modelId: string, stream: Stream): (r: ChatState)
  {
    if !s.initialized then s.(error := Some(NotInitialized))
    else
      var turn := StartTurn(s.messages, userId, userInput, modelId);
      match stream.end
      case Completed => ChatState(StreamedTurn(turn, modelId, stream.fragments), false, None, true)
      case Failed(message) => ChatState(RemoveById(turn, modelId), false, Some(ErrorText(message)), true)
      case FailedNullish => ChatState(StreamedTurn(turn, modelId, stream.fragments), false, None, true)
  }

  /**
   * `<ChatInput onSendMessage={handleSendMessage} isLoading={isLoading} />`:
   * a submit from the input box under the App's loading flag, followed by the
   * send it triggers, if any. Gives the input's submission and the new App state.
   */
  function SubmitOutcome(s: ChatState, buffer: string, userId: string, modelId: string, stream: Stream): (r: (ChatInput.Submission, ChatState))
  {
    var sub := ChatInput.SubmitStep(buffer, s.isLoading);
    (sub, if sub.sent.Some? then SendOutcome(s, sub.sent.value, userId, modelId, stream) else s)
  }

  class App {
    var messages: seq<Message>
    var isLoading: bool
    var error: Option<string>
    /** Whether `chatRef.current` holds a chat handle. */
    var initialized: bool

    function State(): ChatState
      reads this
    {
      ChatState(messages, isLoading, error, initialized)
    }

    constructor (initialized: bool)
      ensures State() == Initial(initialized)
    {
      messages := [Message(GreetingId, Model, GreetingText)];
      isLoading := false;
      error := None;
      this.initialized := initialized;
    }

    /**
     * `handleSendMessage`. While the fragments are consumed, `isLoading` is
     * set, the error is cleared and the list keeps the length of the turn.
     */
    method Send(userInput: string, userId: string, modelId: string, stream: Stream)
      modifies this
      ensures State() == SendOutcome(old(State()), userInput, userId, modelId, stream)
    {
      if !initialized {
        error := Some(NotInitialized);
        return;
      }
      isLoading := true;
      error := None;
      messages := StartTurn(messages, userId, userInput, modelId);
      ghost var turn := messages;

      var fragments := stream.fragments;
      var fullResponse := "";
      var firstChunk := true;
      var i := 0;
      while i < |fragments|
        invariant 0 <= i <= |fragments|
        invariant isLoading && error == None && initialized
        invariant fullResponse == Concat(fragments[..i])
        invariant firstChunk <==> i == 0
        invariant messages == StreamedTurn(turn, modelId, fragments[..i])
        invariant |messages| == |turn|
      {
        var chunkText := fragments[i];
        fullResponse := fullResponse + chunkText;
        StreamedTurnStep(turn, modelId, fragments, i);
        if firstChunk {
          // the accumulator was empty, so the first chunk is all of it
          assert fullResponse == chunkText;
          messages := ReplaceText(messages, modelId, chunkText);
          firstChunk := false;
        } else {
          messages := ReplaceText(messages, modelId, fullResponse);
        }
        i := i + 1;
      }
      assert fragments[..i] == stream.fragments;

      // a rejection with null or undefined throws again on `e.message`: the catch does nothing more
      if stream.end.Failed? {
        error := Some(ErrorText(stream.end.message));
        if i > 0 {
          RemoveAfterReplace(turn, modelId, fullResponse);
        }
        messages := RemoveById(messages, modelId);
      }
      isLoading := false;
    }

    /** The input box submits under this App's loading flag; an accepted submit starts a send. */
    method SubmitFrom(input: ChatInput.InputBox, userId: string, modelId: string, stream: Stream) returns (sent: Option<string>)
      modifies this, input
      ensures (ChatInput.Submission(sent, input.text), State()) == SubmitOutcome(old(State()), old(input.text), userId, modelId, stream)
    {
      sent := input.Submit(isLoading);
      if sent.Some? {
        Send(sent.value, userId, modelId, stream);
      }
    }
  }

  /** A blank buffer never reaches the send workflow: the App state is untouched and the buffer kept. */
  lemma BlankSubmitIgnored(s: ChatState, buffer: string, userId: string, modelId: string, stream: Stream)
    requires Text.AllWhitespace(buffer)
    ensures SubmitOutcome(s, buffer, userId, modelId, stream) == (ChatInput.Submission(None, buffer), s)
  {
  }

  /** While a send is in flight a submit has no effect, whatever the buffer holds. */
  lemma BusySubmitIgnored(s: ChatState, buffer: string, userId: string, modelId: string, stream: Stream)
    requires s.isLoading
    ensures SubmitOutcome(s, buffer, userId, modelId, stream) == (ChatInput.Submission(None, buffer), s)
  {
  }

  /**
   * An accepted submit that completes with fragments: the user turn holds the
   * trimmed buffer, the model turn the joined fragments, and the buffer is empty.
   */
  lemma SubmittedTurn(s: ChatState, buffer: string, userId: string, modelId: string, fragments: seq<string>)
    requires s.initialized && !s.isLoading && !Text.AllWhitespace(buffer)
    requires FreshIds(s.messages, userId, modelId) && fragments != []
    ensures SubmitOutcome(s, buffer, userId, modelId, Stream(fragments, Completed))
         == (ChatInput.Submission(Some(Text.Trim(buffer)), ""),
             ChatState(s.messages + [Message(userId, User, Text.Trim(buffer)), Message(modelId, Model, Concat(fragments))], false, None, true))
  {
    var sub := ChatInput.SubmitStep(buffer, s.isLoading);
    Text.TrimUnique(buffer, sub.sent.value);
    SendCompleted(s, sub.sent.value, userId, modelId, fragments);
  }

  /** Without a chat handle the send only records the error; the list and the loading flag stay. */
  lemma SendUninitialized(s: ChatState, userInput: string, userId: string, modelId: string, stream: Stream)
    requires !s.initialized
    ensures var r := SendOutcome(s, userInput, userId, modelId, stream);
      r.messages == s.messages && r.isLoading == s.isLoading && r.error == Some(NotInitialized)
  {
  }

  /** The appended pair under fresh ids, followed by the placeholder rewritten to `text`. */
  lemma FinishedTurn(prev: seq<Message>, userId: string, userInput: string, modelId: string, text: string)
    requires FreshIds(prev, userId, modelId)
    ensures ReplaceText(StartTurn(prev, userId, userInput, modelId), modelId, text)
         == prev + [Message(userId, User, userInput), Message(modelId, Model, text)]
  {
    var pair := [Message(userId, User, userInput), Message(modelId, Model, Placeholder)];
    var done := [Message(userId, User, userInput), Message(modelId, Model, text)];
    calc {
      ReplaceText(StartTurn(prev, userId, userInput, modelId), modelId, text);
    == { assert StartTurn(prev, userId, userInput, modelId) == prev + pair; }
      ReplaceText(prev + pair, modelId, text);
    == { ReplaceTextAppend(prev, pair, modelId, text); }
      ReplaceText(prev, modelId, text) + ReplaceText(pair, modelId, text);
    == { ReplaceTextAbsent(prev, modelId, text); }
      prev + ReplaceText(pair, modelId, text);
    == { var r := ReplaceText(pair, modelId, text); assert r[0] == done[0] && r[1] == done[1]; }
      prev + done;
    }
  }

  /** The appended pair under fresh ids, with the placeholder filtered out again. */
  lemma AbandonedTurn(prev: seq<Message>, userId: string, userInput: string, modelId: string)
    requires FreshIds(prev, userId, modelId)
    ensures RemoveById(StartTurn(prev, userId, userInput, modelId), modelId) == prev + [Message(userId, User, userInput)]
  {
    var user, placeholder := Message(userId, User, userInput), Message(modelId, Model, Placeholder);
    calc {
      RemoveById(StartTurn(prev, userId, userInput, modelId), modelId);
    == { assert StartTurn(prev, userId, userInput, modelId) == (prev + [user]) + [placeholder]; }
      RemoveById((prev + [user]) + [placeholder], modelId);
    == { RemoveAppend(prev + [user], [placeholder], modelId); }
      RemoveById(prev + [user], modelId) + RemoveById([placeholder], modelId);
    == { assert RemoveById([placeholder], modelId) == []; }
      RemoveById(prev + [user], modelId);
    == { RemoveAppend(prev, [user], modelId); RemoveAbsent(prev, modelId); }
      prev + RemoveById([user], modelId);
    == { assert RemoveById([user], modelId) == [user]; }
      prev + [user];
    }
  }

  /**
   * A send whose stream completes after at least one fragment leaves the
   * history in place followed by the user message and the model message
   * holding all the fragments joined; loading is off and no error is shown.
   */
  lemma SendCompleted(s: ChatState, userInput: string, userId: string, modelId: string, fragments: seq<string>)
    requires s.initialized && FreshIds(s.messages, userId, modelId) && fragments != []
    ensures SendOutcome(s, userInput, userId, modelId, Stream(fragments, Completed))
         == ChatState(s.messages + [Message(userId, User, userInput), Message(modelId, Model, Concat(fragments))], false, None, true)
  {
    FinishedTurn(s.messages, userId, userInput, modelId, Concat(fragments));
  }

  /** A stream that completes without a fragment leaves the `'...'` placeholder as the answer. */
  lemma SendCompletedEmpty(s: ChatState, userInput: string, userId: string, modelId: string)
    requires s.initialized
    ensures SendOutcome(s, userInput, userId, modelId, Stream([], Completed))
         == ChatState(s.messages + [Message(userId, User, userInput), Message(modelId, Model, Placeholder)], false, None, true)
  {
  }

  /**
   * A stream that fails after any number of fragments: the model message,
   * partial text and all, is gone, the user message and the history stay, the
   * error shows the failure's message or the generic fallback, loading is off.
   */
  lemma SendFailed(s: ChatState, userInput: string, userId: string, modelId: string, fragments: seq<string>, message: Option<string>)
    requires s.initialized && FreshIds(s.messages, userId, modelId)
    ensures var r := SendOutcome(s, userInput, userId, modelId, Stream(fragments, Failed(message)));
      && r.messages == s.messages + [Message(userId, User, userInput)]
      && !r.isLoading
      && r.error == Some(if message.Some? && message.value != "" then "Error: " + message.value
                         else "Error: " + UnknownError)
  {
    AbandonedTurn(s.messages, userId, userInput, modelId);
  }

  /**
   * A stream rejected with `null` or `undefined`: the `catch` throws before it
   * removes anything, so the model message stays with whatever text it had,
   * no error is shown, and only loading is switched off.
   */
  lemma SendFailedNullish(s: ChatState, userInput: string, userId: string, modelId: string, fragments: seq<string>)
    requires s.initialized && FreshIds(s.messages, userId, modelId)
    ensures SendOutcome(s, userInput, userId, modelId, Stream(fragments, FailedNullish))
         == ChatState(s.messages + [Message(userId, User, userInput),
                                    Message(modelId, Model, if fragments == [] then Placeholder else Concat(fragments))],
                      false, None, true)
  {
    if fragments != [] {
      FinishedTurn(s.messages, userId, userInput, modelId, Concat(fragments));
    }
  }

  /** Distinct ids stay distinct across a send with fresh ids, whatever the stream does. */
  lemma SendKeepsUniqueIds(s: ChatState, userInput: string, userId: string, modelId: string, stream: Stream)
    requires UniqueIds(s.messages) && FreshIds(s.messages, userId, modelId)
    ensures UniqueIds(SendOutcome(s, userInput, userId, modelId, stream).messages)
  {
    var turn := StartTurn(s.messages, userId, userInput, modelId);
    StartTurnIds(s.messages, userId, userInput, modelId);
    if stream.fragments != [] {
      ReplaceKeepsUniqueIds(turn, modelId, Concat(stream.fragments));
    }
    RemoveKeepsUniqueIds(turn, modelId);
  }

  /**
   * Two streams whose non-empty fragment lists join to the same text leave the
   * same state: only the accumulated text reaches the list.
   */
  lemma SendChunkingInvariant(s: ChatState, userInput: string, userId: string, modelId: string, a: seq<string>, b: seq<string>, end: StreamEnd)
    requires a != [] && b != [] && Concat(a) == Concat(b)
    ensures SendOutcome(s, userInput, userId, modelId, Stream(a, end)) == SendOutcome(s, userInput, userId, modelId, Stream(b, end))
  {
  }

  /** Sending "What is 2+2?" from the initial state with the answer streamed as the single fragment "4". */
  lemma ScenarioAnswered()
    ensures var r := SendOutcome(Initial(true), "What is 2+2?", "1", "2", Stream(["4"], Completed));
      && |r.messages| == 3
      && r.messages[1] == Message("1", User, "What is 2+2?")
      && r.messages[2].text == "4"
      && r.error == None && !r.isLoading
  {
    var s := Initial(true);
    assert FreshIds(s.messages, "1", "2");
    assert Concat(["4"]) == "4" by {
      assert ["4"][..0] == [];
    }
    SendCompleted(s, "What is 2+2?", "1", "2", ["4"]);
  }

  /** A remote error before any fragment: the greeting and the user message remain, and an error shows. */
  lemma ScenarioRemoteError(message: Option<string>)
    ensures var r := SendOutcome(Initial(true), "What is 2+2?", "1", "2", Stream([], Failed(message)));
      && r.messages == [Message(GreetingId, Model, GreetingText), Message("1", User, "What is 2+2?")]
      && r.error.Some? && !r.isLoading
  {
    var s := Initial(true);
    assert FreshIds(s.messages, "1", "2");
    SendFailed(s, "What is 2+2?", "1", "2", [], message);
  }
}
