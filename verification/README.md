# Gemini for Kindle: a Dafny model of the send workflow

The repository is a small chat front end for e-ink browsers. It has one piece of logic worth modelling.
The `App` component keeps the conversation state: a list of `{id, role, text}` messages, a loading flag and an optional error banner.
Its `handleSendMessage` appends a user message and a `'...'` placeholder.
It then streams the model's answer into that placeholder through a running accumulator, or removes the placeholder when the stream throws.
In front of it, the `ChatInput` component forwards the trimmed input only when it is not blank and no send is in flight.

The model is organised as follows:

- `wrappers.dfy`: `Option`, which stands for JavaScript's `null`/`undefined`.
- `text.dfy` (module `Text`): `String.prototype.trim`, using the WhiteSpace and LineTerminator code points of ECMA-262 (sections 12.2 and 12.3).
  - `TrimUnique` proves that trimming is the one function meeting its characterisation `IsTrimOf`.
- `conversation.dfy` (module `Conversation`): the message datatype and the three pure updaters the send workflow passes to `setMessages`.
  - `StartTurn` is the spread-append.
  - `ReplaceText` is the `map`.
  - `RemoveById` is the `filter`.
  - Lemmas cover what each one keeps and how they compose.
- `chat_app.dfy` (module `ChatApp`):
  - the `App` class: the state fields, and `Send`, whose loop over the fragments is proved against the specification `SendOutcome`;
  - the accumulator `Concat` and its chunking invariance;
  - lemmas for each outcome of a send: no chat handle, completed with or without fragments, failed;
  - the wiring of the input box to the send workflow.
- `chat_input.dfy` (module `ChatInput`): the submit guard `SubmitStep`, the Enter-key rule `KeyStep`, and the `InputBox` class with `Edit`, `Submit` and `KeyDown`.

The remote stream is a `Stream`. It holds the fragments delivered before the stream ended, plus how it ended:
`Completed`; `Failed(message)`, a rejection with an object whose `message` may be missing; or `FailedNullish`, a rejection with `null` or `undefined`.
A failure of `sendMessageStream` itself is the same as `Failed` after zero fragments, because both reach the same `catch`.

Points where the code behaves differently from what a reader might expect, which the model follows:

- A stream that completes without any fragment leaves the `'...'` placeholder as the answer.
  - So "final text = concatenation of the fragments" holds only for at least one fragment (`SendCompleted`, `SendCompletedEmpty`).
  - Chunking invariance compares two non-empty fragment lists (`SendChunkingInvariant`).
- `e.message || 'An unknown error occurred.'` falls back also when the message is the empty string (`SendFailed`).
- A rejection with `null` or `undefined` makes the `catch` itself throw when it reads `e.message` (App.tsx:80), before `setError` and the `filter` run. The model message then stays with whatever text it had, no error is shown, and only the `finally` clears `isLoading` (`SendFailedNullish`).
- Replacing the text of an id that is absent is a silent no-op (`ReplaceTextAbsent`), not an error.
- The `map` and the `filter` act on every message carrying the id, not only the first one.
- `handleSendMessage` does not itself check that the ids are fresh. `Send` therefore has no freshness precondition. The lemmas that need fresh ids (`FreshIds`) take it as a hypothesis.

## Model

| member | source | states |
|---|---|---|
| `ChatApp.App.constructor` | App.tsx:9-13 | The first state holds only the greeting `{initial, model, "Hello! How can I help you today?"}`, is not loading and has no error. |
| `ChatApp.App.Send` | App.tsx:33-87 | After a send, the state equals `SendOutcome` of the old state. The loop keeps `isLoading` set and the error cleared. It keeps the list at the length of the turn, the accumulator equal to the concatenation of the fragments so far, and the list equal to the turn: with the `'...'` placeholder before any fragment, and with the placeholder holding the accumulated text after at least one fragment. |
| `ChatApp.App.SubmitFrom` | App.tsx:110 | The input box submits under the App's own loading flag, and only an accepted submit starts a send, with the trimmed text. |
| `ChatApp.SendUninitialized` | App.tsx:34-37 | Without a chat handle, the error becomes "Chat is not initialized.", and the messages and the loading flag are unchanged. |
| `ChatApp.SendCompleted` | App.tsx:39-86 | With fresh ids and at least one fragment, the list is the old history, then `{user, userInput}`, then `{model, F1+…+Fn}`. Loading is off and there is no error. |
| `ChatApp.SendCompletedEmpty` | App.tsx:50-62 | A stream that ends without fragments leaves the history, the user message and the `'...'` placeholder. |
| `ChatApp.SendFailed` | App.tsx:79-86 | After a failure following any number of fragments, the list is the history plus the user message, so the partial answer is gone. Loading is off. The error is `"Error: " + message`, or `"Error: An unknown error occurred."` when the message is missing or empty. |
| `ChatApp.SendFailedNullish` | App.tsx:79-86 | After a rejection with `null` or `undefined`, the list is the history, the user message, and the model message holding the joined fragments (or `'...'` if none came). No error is shown and loading is off. |
| `ChatApp.SendKeepsUniqueIds` | App.tsx:42-83 | A send with fresh ids keeps all ids distinct, whatever the stream does. |
| `ChatApp.SendChunkingInvariant` | App.tsx:59-76 | Two non-empty fragment lists that join to the same text leave the same state. |
| `ChatApp.ConcatAppend` | App.tsx:59-64 | The accumulator distributes over splitting the fragment list: `Concat(a + b) == Concat(a) + Concat(b)`. |
| `ChatApp.ConcatStep` | App.tsx:63-64 | `fullResponse += chunkText` turns the text of the first i fragments into the text of the first i+1. |
| `ChatApp.StreamedTurnStep` | App.tsx:62-76 | Each fragment extends the accumulator by that fragment. Rewriting the placeholder to the new accumulator turns the list after i fragments into the list after i+1 fragments. |
| `ChatApp.SplitFragment` | App.tsx:59-64 | Cutting any fragment into two pieces at any point leaves the accumulated text unchanged. |
| `ChatApp.FinishedTurn` | App.tsx:50-75 | Appending the pair under fresh ids and then rewriting the placeholder gives the history, then the user message, then the model message with the new text. |
| `ChatApp.AbandonedTurn` | App.tsx:50-83 | Appending the pair under fresh ids and then filtering out the placeholder gives the history followed by the user message. |
| `ChatApp.ScenarioAnswered` | App.tsx:9-86 | Sending "What is 2+2?" from the initial state with the single fragment "4" gives three messages. The user message is second and the last text is "4". |
| `ChatApp.ScenarioRemoteError` | App.tsx:9-86 | A failure before any fragment leaves exactly the greeting and the user message, and shows an error. |
| `ChatApp.BlankSubmitIgnored` | components/ChatInput.tsx:15 | A blank buffer forwards nothing, keeps the buffer and leaves the App state as it was. |
| `ChatApp.BusySubmitIgnored` | components/ChatInput.tsx:15 | While loading, a submit forwards nothing and changes nothing, whatever the buffer holds. |
| `ChatApp.SubmittedTurn` | components/ChatInput.tsx:13-19 | An accepted submit clears the buffer. The user message holds `trim(buffer)` and the model message holds the joined fragments. |
| `Conversation.StartTurn` | App.tsx:50-54 | The history stays a prefix. It is followed by `{userId, user, userInput}` and then by `{modelId, model, '...'}`. |
| `Conversation.StartTurnIds` | App.tsx:42-54 | The ids grow by exactly the two new ones, and fresh ids keep all ids distinct. |
| `Conversation.ReplaceText` | App.tsx:68-75 | The length stays the same, every message keeps its id and role, and only messages with the target id get the new text. |
| `Conversation.RemoveById` | App.tsx:83 | Exactly the messages with a different id survive, and the id is gone from the list. |
| `Conversation.RemoveAppend` | App.tsx:83 | The filter keeps the survivors in order: it distributes over concatenation. |
| `Conversation.ReplaceTextTwice` | App.tsx:68-75 | Two rewrites of the same id: the last write wins. |
| `Conversation.RemoveAfterReplace` | App.tsx:68-83 | Removing the placeholder after any rewrite of it equals removing it straight away, so the partial text leaves no trace. |
| `Conversation.ReplaceTextAbsent` | App.tsx:68-75 | Rewriting an id that is not in the list changes nothing. |
| `Conversation.RemoveKeepsUniqueIds` | App.tsx:83 | The filter keeps distinct ids distinct. |
| `Conversation.ReplaceKeepsUniqueIds` | App.tsx:68-75 | The map keeps distinct ids distinct. |
| `ChatInput.SubmitStep` | components/ChatInput.tsx:13-19 | A message is forwarded exactly when not loading and the buffer is not all white space. It is the buffer with the surrounding white space removed, and the buffer is then `""`. Otherwise the buffer is kept. |
| `ChatInput.KeyStep` | components/ChatInput.tsx:42-47 | Enter without Shift is exactly a submit. Any other key, or Shift+Enter, forwards nothing and keeps the buffer. |
| `ChatInput.SubmittedIsTrimmed` | components/ChatInput.tsx:16 | A forwarded message is non-empty, neither starts nor ends with white space, and trimming it again changes nothing. |
| `ChatInput.NoDuplicateSubmit` | components/ChatInput.tsx:16-17 | Once a submit is accepted, the next submit forwards nothing. |
| `ChatInput.InputBox.constructor` | components/ChatInput.tsx:10 | The buffer starts empty. |
| `ChatInput.InputBox.Edit` | components/ChatInput.tsx:37 | Editing replaces the buffer with the new value and forwards nothing. |
| `ChatInput.InputBox.Submit` | components/ChatInput.tsx:13-19 | Returns the forwarded message and leaves the buffer as `SubmitStep` says. |
| `ChatInput.InputBox.KeyDown` | components/ChatInput.tsx:42-47 | Returns the forwarded message and leaves the buffer as `KeyStep` says. |
| `Text.TrimStart` | components/ChatInput.tsx:15 | The result is a suffix of the input, everything dropped is white space, and the result does not start with white space. |
| `Text.TrimEnd` | components/ChatInput.tsx:15 | The result is a prefix of the input, everything dropped is white space, and the result does not end with white space. |
| `Text.Trim` | components/ChatInput.tsx:15 | The result is a slice of the input with only white space around it, and is empty or has non-white-space ends. It is empty exactly when the input is all white space. |
| `Text.TrimUnique` | components/ChatInput.tsx:15 | Any string meeting that characterisation is `Trim` of the input. |
| `Text.TrimIdempotent` | components/ChatInput.tsx:16 | Trimming a trimmed string changes nothing. |

## Left out

- services/geminiService.ts is not part of this model. It is the SDK session (`startChat`) and the `API_KEY` check, both foreign calls and network I/O. The chat handle is only the flag `initialized`.
- The startup effect (App.tsx:17-23) is not modelled: it calls `startChat`, and on failure sets the error from the exception's message or "Failed to initialize chat service.". `App.constructor` takes `initialized` as a parameter instead.
- `ChatApp.App.Send`: runs as one atomic step. React's event loop and the interleavings that `await` and `for await` allow are not modelled. The states seen during the stream are described only by the loop invariants (`isLoading` set, error cleared, the list at the turn's length).
- Id generation with `Date.now()` (App.tsx:43, :49) is not modelled. The ids are parameters, and freshness is a hypothesis of the lemmas that need it.
- Fragments are strings. The SDK's `chunk.text` may be `undefined`, and that case is not modelled. On the first chunk the message text would become the value `undefined` itself (App.tsx:69). The accumulator would gain the text "undefined" (App.tsx:64), which later chunks would then write into the message.
- `ChatApp.App.Send`: on a rejection with `null` or `undefined`, the `TypeError` thrown inside the `catch` escapes `handleSendMessage` as a rejected promise. The model keeps only its effect on the state, not the escaping exception.
- Strings are sequences of Unicode scalar values, not of UTF-16 code units.
- The `disabled={isLoading}` attributes of the textarea and the button (components/ChatInput.tsx:39, :51) are not modelled; `handleSubmit`'s own guard is.
- The browser's default action for Shift+Enter (inserting a newline) is not part of `KeyDown`. It reaches the buffer through `Edit`.
- Not modelled, because they are DOM and UI plumbing: scrolling to the newest message (App.tsx:25-31), resizing the textarea (components/ChatInput.tsx:22-29), `preventDefault`, `console.error`, markdown rendering and role-based layout (components/ChatMessage.tsx), and all JSX and CSS.
