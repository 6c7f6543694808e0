# rai: stop-sequence matcher and transcript, in Dafny

rai is a small chat loop around a local language model. Each turn it renders
the whole conversation as one prompt, lets the model continue it token by
token, and cuts the continuation off when the held-back text plus the next
chunk is exactly the human's name `"Human"`. This project models the core of `src/model.rs`:

- **StopMatcher** (`stop_matcher.dfy`): the inference callback. A `Matcher`
  object holds the stop sequence and the two strings the callback updates in
  place, `buf` (text held back because it may still become the stop
  sequence) and `out` (the reply so far); `Step` is one invocation. The pure
  function `Next` specifies one step and `Run` a whole stream fed until a
  step answers Halt. `AssembleReply` is the driver loop over a stream of
  events.
- **Transcript** (`transcript.dfy`): the prompt rendering of
  `Rai::recompute`. `Line`, `Lines`, `History` and `PromptText` specify it;
  `RenderHistory` is the loop that builds the history one line at a time.
- **Session** (`session.dfy`): `Conversation` (an append-only list of
  messages) and `Rai` (a fixed purpose and the conversation it owns) with
  `FromPurpose`, `Default`, `Prompt` and `Recompute`. The language model is a
  parameter `generate: string -> seq<Event>`: the stream of events it yields
  for a given prompt in that call.

Behaviour modelled as the code has it, including details a reader might not
expect:

- The stop sequence passed to the callback is `"Human"` (the human's name
  without the colon, src/model.rs:74). The examples use it; the general
  lemmas hold for any stop sequence.
- On divergence the held-back text is emitted together with the token but
  `buf` is not cleared (src/model.rs:124-128). A stale prefix therefore stays
  held back, is emitted again at the next divergence (`StalePrefixExample`:
  `"Hu"`, `"go"`, `"x"` gives `"HugoHux"`) and still takes part in later
  matching.
- End of text halts without emitting a pending partial match
  (src/model.rs:132, `EndOfTextExample`).
- The reply may contain the stop sequence: only a candidate that is exactly
  the stop sequence is withheld, so a chunk that merely contains it is emitted
  verbatim (`EmbeddedMarkerExample`). No lemma claims otherwise.
- A user message is rendered with the AI's label and a reply with the human's
  label (src/model.rs:47-51), as the code does.

## Model

| member | source | states |
|---|---|---|
| `StopMatcher.Next` | src/model.rs:112-134 | one invocation of the callback, branch by branch (exact match, proper prefix, divergence without clearing `buf`, end of text, other responses); its contract: the answer is Halt exactly on end of text or when `buf + t` equals the stop sequence |
| `StopMatcher.Run` | src/model.rs:60-76 | the inference loop feeding events to the callback until it answers Halt (`ReplyText` takes the final `out` from empty strings); its contract: a run that never halts saw no end of text |
| `StopMatcher.Matcher.constructor` | src/model.rs:56-58 | the strings `res` and `buf` handed to the callback start empty; the stop sequence is captured |
| `StopMatcher.Matcher.Step` | src/model.rs:112-134 | the answer and the new `buf`/`out` are exactly `Next` of the old state and the event; a well-formed `buf` stays well-formed |
| `StopMatcher.AssembleReply` | src/model.rs:56-76 | feeding a stream to a fresh matcher until Halt yields the reply `Run` specifies for it (events after Halt are not read, the final `buf` is dropped) |
| `StopMatcher.NextExactMatch` | src/model.rs:114-118 | when `buf + t` equals the stop sequence: Halt, `buf` cleared, `out` unchanged |
| `StopMatcher.NextPartialMatch` | src/model.rs:119-121 | when `buf + t` is a proper prefix of the stop sequence: Continue, `t` appended to `buf`, `out` unchanged |
| `StopMatcher.NextDivergence` | src/model.rs:124-130 | when `buf + t` is no prefix of the stop sequence: Continue, `out` grows by `buf + t` (by `t` alone when `buf` is empty), `buf` unchanged |
| `StopMatcher.NextOtherEvents` | src/model.rs:132-133 | end of text halts and changes nothing (a pending prefix is dropped); any other response continues and changes nothing |
| `StopMatcher.NextKeepsPending` | src/model.rs:114-128 | after a step from a well-formed state, `buf` is empty or a proper prefix of the stop sequence |
| `StopMatcher.NextExtendsOutput` | src/model.rs:113-133 | a step only appends to `out` |
| `StopMatcher.RunKeepsPending` | src/model.rs:112-133 | after any stream from a well-formed state (the empty one included), `buf` is empty or a proper prefix of the stop sequence |
| `StopMatcher.RunExtendsOutput` | src/model.rs:124-128 | over any stream `out` is only appended to; earlier output is never rewritten |
| `StopMatcher.RunPassThrough` | src/model.rs:124-128 | when no chunk is a prefix of (or equal to) the stop sequence, `buf` stays empty, the stream never halts and `out` grows by all chunks concatenated in order |
| `StopMatcher.RunSplitMarker` | src/model.rs:114-121 | the stop sequence split across any non-empty list of chunks (after what `buf` holds) halts at its last piece with `buf` cleared and nothing emitted |
| `StopMatcher.SplitMarkerExample` | src/model.rs:114-121 | `"Hu"`, `"man"`, `":"` halts with an empty reply, with stop sequence `"Human"` and with `"Human:"` |
| `StopMatcher.DivergenceExample` | src/model.rs:124-128 | `"Hu"`, `"go"` gives the reply `"Hugo"` and leaves `"Hu"` held back |
| `StopMatcher.StalePrefixExample` | src/model.rs:124-128 | `"Hu"`, `"go"`, `"x"` gives `"HugoHux"`: the stale prefix is emitted twice |
| `StopMatcher.NoMarkerExample` | src/model.rs:124-128 | `"Hel"`, `"lo"`, `" world"` with stop sequence `"STOP"` gives `"Hello world"` |
| `StopMatcher.EmbeddedMarkerExample` | src/model.rs:116-128 | the stream `"xHuman"`, `"Human:"` with stop sequence `"Human"` gives the reply `"xHumanHuman:"`, which contains the stop sequence twice |
| `StopMatcher.EndOfTextExample` | src/model.rs:132 | end of text after a partial match halts and leaves the pending `"Hu"` out of the reply |
| `Transcript.Line` | src/model.rs:47-51 | the line of one message: `AI:` and the text for a typed message, `Human:` and the text for a reply, then a line break |
| `Transcript.Lines` | src/model.rs:45-54 | the lines of all messages in insertion order |
| `Transcript.History` | src/model.rs:43-54 | `Human:`, the purpose and a line break, then the message lines |
| `Transcript.PromptText` | src/model.rs:66 | the persona, a line break, the history, a line break and `AI:` |
| `Transcript.RenderHistory` | src/model.rs:39-54 | the loop yields the purpose line followed by one line per message in order (`History`); the messages are only read |
| `Transcript.LineLabel` | src/model.rs:47-51 | a line starts with `AI:` exactly when its message was typed by the person, and with `Human:` exactly when it was not |
| `Transcript.LinesAppend` | src/model.rs:45-54 | the lines of two runs of messages are the lines of the first followed by those of the second |
| `Transcript.HistoryExtends` | src/model.rs:43-54 | appending messages appends exactly their lines to the history; the old history is a prefix of the new one |
| `Transcript.HistoryEndsWithNewline` | src/model.rs:43-51 | every history, with or without messages, ends with a line break |
| `Transcript.PromptShape` | src/model.rs:39-66 | the prompt starts with the persona line and the purpose under the human's label and ends with a blank line followed by the AI's label `AI:` |
| `Session.AgentReply` | src/model.rs:56-81 | the message appended by `recompute`: not typed by the person, its text the matcher's output with stop sequence `"Human"` on the stream the model yields for the rendered prompt |
| `Session.TurnKeepsShape` | src/model.rs:30-36 | a typed message followed by a reply, appended to a conversation of shape `said`, gives the shape of `said` plus that message: 2N+1 messages, replies at even and typed messages at odd positions, the typed texts in call order |
| `Session.Conversation.constructor` | src/model.rs:91-95 | a new conversation has no messages |
| `Session.Rai.FromPurpose` | src/model.rs:20-28 | the purpose is kept and the conversation is exactly one reply to the purpose-only prompt; the agent invariant holds with nothing typed yet |
| `Session.Rai.Default` | src/model.rs:13-17 | as `FromPurpose` with the purpose "Your purpose is to assist in answering Human." |
| `Session.Rai.Prompt` | src/model.rs:30-36 | from any state, appends the typed message and then the reply to the conversation including it, leaving earlier messages as they were, and records the text; on a conversation of the agent's shape the shape is kept, so after N calls there are 2N+1 alternating messages whose typed ones are the inputs in call order |
| `Session.Rai.Recompute` | src/model.rs:38-82 | appends exactly one reply: the matcher's output, with stop sequence `"Human"`, for the stream the model yields on the rendered prompt |

## Left out

- Model loading (`get_language_model`, src/model.rs:137-148): reading `.env`, the `MODEL_PATH` variable, loading the file and the panic on failure are configuration and I/O.
- The inference call itself (src/model.rs:57-76): the session, the random number generator and the inference parameters belong to the `llm` library. They are replaced by the `generate` parameter; a caller supplies a different function for each call to stand for fresh randomness.
- Generation failure (`unwrap_or_else` with `panic!`, src/model.rs:76): only the successful path is modelled; a failed generation appends nothing because the process stops.
- The `model: Llama` field of `Rai`: an opaque handle of the `llm` library.
- The callback's `Result<_, Infallible>` wrapper: it can never be an error, so `Step` returns the feedback directly. The responses the callback ignores (prompt and snapshot tokens) are one `Other` event.
- Strings are sequences of characters; Rust's `starts_with` and `==` compare UTF-8 bytes, which agree with character comparison on the valid UTF-8 strings the tokens are.
- `src/main.rs` (argument reading, printing the last message, reading lines from standard input) is terminal I/O and is not part of this model.
