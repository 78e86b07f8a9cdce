# Realtime relay gateway: command translator and event dispatcher

This project models the decision logic of a WebSocket gateway that sits between a
client and a realtime conversational AI service (`main.go`, `handleClientWS`). The
client sends raw PCM audio as binary frames and a few text commands. The AI service
speaks a JSON event protocol. With the sockets and goroutines abstracted away, two
pure step functions remain:

- **The client-command translator** (`Gate`). It turns each client frame, and each
  firing of the 600 ms idle timer, into upstream events:
  - `input_audio_buffer.append` for each binary frame;
  - `input_audio_buffer.commit` followed by `response.create` when the client sends
    `commit` or the idle timer fires;
  - `input_audio_buffer.clear` for `clear`;
  - `response.cancel` for `cancel`.

  Its only state is `bytesSinceCommit`. The AI service rejects a commit of an empty
  input buffer, so a commit is sent only while that counter is positive.
- **The upstream event dispatcher** (`Dispatch`). It classifies each message from
  the AI service as one of: not decodable, `error`, `response.output_audio.delta`,
  `response.done`, or any other type (a missing or non-string `type` reads as `""`).
  It then sends the client at most one message:
  - the error event as text;
  - the decoded PCM of an audio delta as binary.

`Session` combines the two into one trace of happenings:
- client frames;
- idle firings;
- upstream messages;
- the two kinds of read failure.

The trace starts with the `session.update` configuration event. The session has
three phases:
- **Live**: everything runs.
- **UpstreamLost**: the upstream read failed, so the context is cancelled. The
  upstream reader and the idle goroutine have stopped. The client read loop does not
  watch the context, so it keeps translating frames.
- **Ended**: the client read failed. The handler has returned and both sockets are
  closed.

The base64 codec is the standard alphabet of RFC 4648 section 4. The model does not
implement it:
- an `append` event carries the raw bytes;
- delta decoding is a function parameter `decode: string -> Option<seq<bv8>>`, about
  which nothing is assumed.

Files: `wrappers.dfy` (Option), `seqs.dfy` (order-preserving flattening),
`upstream.dfy` (outbound events and the session configuration), `gate.dfy`,
`dispatch.dfy`, `session.dfy`.

## Model

| member | source | states |
|---|---|---|
| Gate.CommitIfPending | main.go:192-203 | The shared commit branch leaves the counter equal to what the upstream buffer holds after its events, and every commit it sends has bytes pending and is immediately followed by `response.create`. With bytes pending it sends exactly `[commit, response.create(audio)]` and the counter becomes 0. With none pending it sends nothing. |
| Gate.Step | main.go:186-254 | Each input leaves the counter equal to the bytes the emitted events leave in the upstream buffer, and its commits are gated and paired with `response.create`. A binary frame of n bytes gives exactly one append of those bytes and adds n. A `commit` command or an idle firing gives `[commit, response.create]` and resets to 0 when the counter is positive, otherwise nothing and no change. `clear` gives one clear and resets. `cancel` gives one cancel and keeps the counter. Any other text gives nothing and keeps the counter. |
| Gate.StepKeepsInvariants | main.go:186-254 | Every case of the translator preserves the trace invariants: pending-byte tracking, the commit gate, one append per binary frame, one clear/cancel per command. |
| Gate.Run | main.go:170-256 | Over any interleaving of client frames and idle firings: the counter equals the bytes appended since the last commit or clear; every commit has bytes pending and is immediately followed by `response.create`; every `response.create` immediately follows a commit; the appends carry exactly the binary frames, in order; the clear/cancel events match exactly the clear/cancel commands, in order, none dropped. |
| Gate.RunStepFacts | main.go:208-256 | Adding one more input to a trace keeps every invariant that `Gate.Run` states. |
| Gate.PendingIffFreshAudio | main.go:185-192 | The pending-byte count is positive exactly when some non-empty append happened after the last commit or clear (both directions). |
| Gate.CommitsFollowFreshAudio | main.go:185-244 | Every commit the translator sends is preceded by a non-empty append since the previous commit or clear, and is followed by `response.create`. |
| Gate.RunExtendsPrefix | main.go:208-256 | The translator never revises or reorders what it has sent: the events of any prefix of a trace are a prefix of the events of the whole trace. So a `cancel` sent after some frames is written to the upstream after their appends. |
| Gate.EmptyFramesNeverCommit | main.go:225-244 | A trace whose binary frames are all empty never emits a commit or a `response.create`, and the counter stays 0. |
| Dispatch.Classify | main.go:130-166 | Undecodable JSON is `Unparseable`. `error`, the audio-delta type and `response.done` are recognised exactly by their `type` string (the `error` kind keeps the whole event, the delta kind keeps the `delta` member read as a string). Every other, missing or non-string type is `Unknown`, carrying a name outside the three known ones. |
| Dispatch.Forward | main.go:121-168 | A text message is written to the client exactly for an `error` event, carrying that event. A binary message is written exactly for an audio delta whose payload decodes, carrying the decoded bytes. Non-JSON input, `response.done`, undecodable deltas and all other types give nothing. |
| Dispatch.MissingDeltaSendsEmptyAudio | main.go:147-157 | An audio-delta event without a string `delta` decodes the empty string, so an empty binary message is written to the client. |
| Session.Open | main.go:77-117 | A session exists exactly when the upstream dial succeeded. Its first output is the `session.update` configuration event, and what follows it starts out satisfying the invariants that `Session.Run` keeps. |
| Session.ForwardToClient | main.go:143-157 | An upstream message writes exactly what the dispatcher decides to the client, sends nothing upstream and leaves the session state alone. |
| Session.Step | main.go:121-256 | A failed client read ends the session without output. A failed upstream read moves a live session to the phase where only the client loop still runs. Once ended, nothing happens. Only these two read failures change the phase. No upstream message, malformed or not, ends the session or touches the counter. Upstream events come only from client frames (until the client read fails) and idle firings (only while live), and they keep the gate's invariants. Client messages come only from upstream messages read while live. |
| Session.Run | main.go:96-256 | In every session trace the configuration is the first event and is never sent again. After it, the counter equals the bytes appended since the last commit or clear, every commit has bytes pending and is followed by `response.create`, and every `response.create` follows a commit. |
| Session.RunIsTranslatorAndDispatcher | main.go:96-256 | For every trace, with no restriction: the upstream is sent the configuration followed by exactly what the translator emits for the trace's client frames (read before the client read fails) and idle firings (fired before any read fails), in order. The client is sent exactly the dispatcher's message for each upstream message read before any read fails, in order. The counter is the translator's counter. The phase is live with no read failure, upstream-lost after an upstream read failure alone, and ended after a client read failure. |
| Session.EndedIsFinal | main.go:208-222 | After a failed client read, any further happenings change neither the output nor the state. |
| Session.OnlyReadFailuresEndLiveness | main.go:122-134 | A trace with no read failure leaves the session live, whatever the upstream sends, including non-JSON messages and undecodable deltas. |

## Left out

- WebSocket I/O is left out because it is I/O through a foreign library. This covers the client upgrade, the upstream dial with its bearer header, JSON marshalling and socket writes in `sendJSON`, and environment/listener bootstrap. A failed dial is a boolean input to `Session.Open`.
- Keepalive is left out because it depends on real time. This covers `pingLoop`, pong handlers, and read/write deadlines. A read-deadline expiry shows up as a read failure. A failed write, including one after the write deadline set at main.go:285, is discarded by the source (main.go:144, 156, 274), so the model records every write as sent.
- Concurrency is left out. The goroutines and `writeMu` are modelled as one sequential trace of happenings, so each happening is an atomic step. Three windows of the source are therefore not modelled:
  - the unsynchronised sharing of `bytesSinceCommit` between the idle goroutine and the read loop, a data race;
  - writes to the upstream socket from the idle goroutine (main.go:194-196), the read loop (main.go:227, 241-242, 247, 251) and `pingLoop` (main.go:286) take no lock, since `writeMu` guards only the upstream reader's client writes, and `pingLoop`'s client pings skip it too;
  - after a failed client read (main.go:220-221), the deferred calls close the upstream socket first and the client socket last (main.go:83, 67, 62). In that window the upstream reader can still write one message it has already read to the client (main.go:144, 156), while the model sends nothing after the failure.
- JSON decoding of upstream messages (`json.Unmarshal` at main.go:130-134) is left out as an input abstraction. An upstream message enters a trace already decoded, as either `Malformed` or a JSON object, so "undecodable JSON is `Unparseable`" holds by construction and is not derived from the bytes.
- The idle timer's arming is left out. The timer is only armed by a binary frame, but the model lets an idle firing occur anywhere in a trace. This admits a superset of the real traces, so the trace lemmas still cover the real ones.
- Session.Step: after the context is cancelled, the idle goroutine is taken to have stopped. In Go, `select` may still pick a timer that fired at the same moment as the cancellation, so one late idle commit could slip through. The model does not include it.
- Gate.Step: the counter is an unbounded `nat`. Go's `int` (64 bits on 64-bit platforms, 32 bits on 32-bit ones) would wrap after 2^63 - 1 (or 2^31 - 1) bytes without a commit or clear.
- Dispatch.Forward: the text sent for an `error` event is the event's indented JSON rendering. The model carries the event's members instead of the rendered text.
- The base64 codec is left out because it belongs to the standard library. Decoding is a parameter, and the append payload is kept as raw bytes.
- Only the position of the `session.update` payload matters to the model. Its JSON layout beyond the recorded constants (24 kHz PCM both ways, server turn detection off, voice `alloy`, speed 1, audio-only output) is not modelled.
- Logging is left out because it has no effect on the relay.
