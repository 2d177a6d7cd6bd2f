/**
 * The ChatInput component: a text buffer that editing overwrites, a submit
 * guard that forwards the trimmed buffer only when it holds something other
 * than white space and no send is in flight, and the Enter-key rule.
 */
module ChatInput {
  import opened Wrappers
  import opened Text

  /** What one submit hands to `onSendMessage`, if anything, and the buffer afterwards. */
  datatype Submission = Submission(sent: Option<string>, buffer: string)

  /** `handleSubmit`. */
  function SubmitStep(buffer: string, isLoading: bool): (r: Submission)
    ensures r.sent.Some? <==> !isLoading && !AllWhitespace(buffer)
    ensures r.sent.Some? ==> IsTrimOf(buffer, r.sent.value) && r.buffer == ""
    ensures r.sent.None? ==> r.buffer == buffer
  {
    var trimmed := Trim(buffer);
    if trimmed != "" && !isLoading then Submission(Some(trimmed), "") else Submission(None, buffer)
  }

  /** The textarea's `onKeyDown`: Enter without Shift submits; any other key, or Shift+Enter, does nothing here. */
  function KeyStep(key: string, shiftKey: bool, buffer: string, isLoading: bool): (r: Submission)
    ensures key == "Enter" && !shiftKey ==> r == SubmitStep(buffer, isLoading)
    ensures key != "Enter" || shiftKey ==> r.sent == None && r.buffer == buffer
  {
    if key == "Enter" && !shiftKey then SubmitStep(buffer, isLoading) else Submission(None, buffer)
  }

  /** A forwarded message is never blank and is already trimmed: it neither starts nor ends with white space. */
  lemma SubmittedIsTrimmed(buffer: string, isLoading: bool)
    requires SubmitStep(buffer, isLoading).sent.Some?
    ensures var m := SubmitStep(buffer, isLoading).sent.value;
      m != "" && Trim(m) == m && !IsWhitespace(m[0]) && !IsWhitespace(m[|m| - 1])
  {
    TrimIdempotent(buffer);
  }

  /** The buffer is cleared on acceptance, so a second submit right after it forwards nothing. */
  lemma NoDuplicateSubmit(buffer: string, isLoading: bool)
    requires SubmitStep(buffer, isLoading).sent.Some?
    ensures SubmitStep(SubmitStep(buffer, isLoading).buffer, isLoading) == Submission(None, "")
  {
  }

  class InputBox {
    /** The controlled textarea's value. */
    var text: string

    constructor ()
      ensures text == ""
    {
      text := "";
    }

    /** `onChange`: the buffer becomes the textarea's new value; nothing is forwarded. */
    method Edit(value: string)
      modifies this
      ensures text == value
    {
      text := value;
    }

    /** `handleSubmit`, returning what it passes to `onSendMessage`. */
    method Submit(isLoading: bool) returns (sent: Option<string>)
      modifies this
      ensures Submission(sent, text) == SubmitStep(old(text), isLoading)
    {
      var trimmed := Trim(text);
      if trimmed != "" && !isLoading {
        sent := Some(trimmed);
        text := "";
      } else {
        sent := None;
      }
    }

    /** `onKeyDown`, returning what a submit it triggers passes to `onSendMessage`. */
    method KeyDown(key: string, shiftKey: bool, isLoading: bool) returns (sent: Option<string>)
      modifies this
      ensures Submission(sent, text) == KeyStep(key, shiftKey, old(text), isLoading)
    {
      if key == "Enter" && !shiftKey {
        sent := Submit(isLoading);
      } else {
        sent := None;
      }
    }
  }
}
