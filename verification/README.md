# SNACA: a verified model of the agent runtime's core

This project models, in Dafny, the algorithms of SNACA on which a conversation's safety rests, and proves what they
promise for all inputs and all runs:

- **History repair and shrinking** (`Messages`, `Pairing`, `PairingProofs`, `PairingStability`, `Truncation`, `History`,
  `HistoryProofs`, `CollapseProofs`, `CapWindow`, `Threads`, `SummaryLoad`, `GateOutcome`, `HistoryBytes`): the gate that
  gives every tool call its answer, the conversational window, the byte cap with its running total, collapsing, redaction,
  truncation of oversized results, and how they compose over any number of turns, with and without a summary on file.
- **Fence scrubbing** (`Fence`, `FenceOneShot`, `FenceTail`, `FenceTags`, `FenceScrubber`): the incremental tag stripper
  does not depend on how a text is cut, when it agrees with the one-shot stripper, and what either leaves.
- **Streaming** (`StreamEvents`, `StreamOutcome`): the scrubbing stage in front of the accumulator, the reply a stream comes
  to, and synthetic streams.
- **Poison localisation** (`Poison`, `Probe`, `RowRoles`): the search for the message that trips a content filter, its
  probe bound, recovery over several rounds, the probe as the load pipeline computes it, and whose rows may go.
- **Tool scheduling** (`Scheduling`, `SchedulingProofs`): eager reads behind a write barrier and parallel segments, and
  exactly when they refine left-to-right execution.
- **The turn** (`LoopGuard`, `TurnLoop`, `TurnProofs`, `TurnSteps`): the loop with all its recovery branches as a state
  machine over a log, what every run keeps, and what each reply and each whole turn come to.
- **Protocols and codecs** (`Rpc`, `Approval`, `Completion`, `CanonicalJson`, `JsonBytes`, `NameCodec`, `NameBytes`):
  request correlation, approval tokens, canonical JSON and the `mcp__server__tool` names.

Each imperative routine is a method (in a class where the program keeps fields) proved equal to a specification function;
the lemmas then state what the program promises about that function. The modules `GateOutcome`, `FenceTags`, `RowRoles`,
`TurnSteps`, `StreamOutcome`, `HistoryBytes`, `JsonBytes`, `NameBytes` and `Completion` say what comes out in terms of
bytes, roles, blocks and events alone, without the functions the operations are made of. `dafny verify dfyconfig.toml`
checks everything.

## Conventions

- A text is a `string` whose elements stand for the bytes of its UTF-8 encoding, so lengths are byte lengths and
  boundaries are explicit.
- A message has an id, a role and content blocks; messages that the engine makes up have the id `Fresh`. A tool input is
  its JSON text.
- The outside world is a parameter: the model's replies, tool outcomes, approval verdicts, the filter's verdicts and the
  order in which things complete are arbitrary functions or arbitrary steps.
- `hide` statements in proofs only keep the solver's work small.

## Where the code and its documentation part

The model follows the code. The points with a name in brackets are lemmas in the table.

- The pairing gate does not keep ids from being answered twice when two assistant messages reuse one
  (`ReusedIdIsAnsweredTwice`; exact condition in `GateAnswersOnceIff`), and a second pass can change its own output
  (`DoubleCallIsNotStable`; exact condition in `GateIsIdempotent`).
- `flush` can emit more than a stray `<`: a whole unterminated open tag (`FlushReemitsOpener`), or complete fences behind
  a `<` that is still undecided (`FlushReemitsFence`; exact condition in `StreamingRefinesOneShot`).
- Stripping a block can leave a protected fence that was not there before (`StrippingReopens`; exact conditions in
  `SanitizedReopensIff` and `ScrubReopensIff`).
- The one-shot stripper accepts a close tag with bytes before its `>`, the scrubber does not (`LooseCloseDiffers`,
  `LooseCloseLoses`).
- A row left out by the byte cap can matter to a probe after all (`OneRowComesBack`; exact condition in
  `RedactionBringsRowsBack`).
- With a summary on file the empty probe does not mirror the request that failed
  (`crates/snaca-engine/src/engine.rs:1416-1417`): the turn sends head, summary and live rows, the probes the window of
  recent rows. When what is flagged lies outside that window, the search does over-redact, against the comment at 1456:
  it redacts an innocent row each round (`BlindSearch`, `BadSummaryMisleads`; exact condition in `RowIsLocalized`).
- A truncated result exceeds the limit it was cut to, since the note is not counted (`CappedFitsIff`), and is then cut
  again at load time (`CappingTwiceCutsThePreview`).
- The loop guard trips on the call that reaches the limit, not past it (`LoopGuard.Record`).
- A slug keeps runs of literal `_`; only runs of other characters shrink to one `_` (`LiteralRunsStay`; exact
  condition in `SlugDoubleIff`).
- A server name ending in `_` passes validation and breaks the round trip (`TrailingUnderscoreCollides`).
- Synthetic streams drop the signature of thinking blocks (`SynthesisRoundTrip`).
- A text delta after the stop of its block goes through unscrubbed (`LateDeltaIsNotScrubbed`, with the
  exact condition).
- A late approval callback is forwarded to the inbound stream, although the comment on its handler says it is dropped
  (`LateCallbackIsForwarded`), and a decision can be lost between a timeout and its clean-up (`DecisionsCanBeLost`; exact
  condition in `ConsumedDecisionIsReturned`).
- An I/O failure inside the approval gate becomes a tool error, although the comment on `gate_check` says it ends the turn
  (`crates/snaca-engine/src/engine.rs:2500-2535`); so in the turn model every call comes to a result. This is a choice of
  the model and not a lemma.
- The collapse marker reads `<Read result: N bytes elided ...>`, not the form that the comment in
  `crates/snaca-engine/src/config.rs:157-160` shows. This is a constant of the model and not a lemma.

## Model

| member | source | states |
|---|---|---|
| Pairing.EnsureToolResultPairing | crates/snaca-engine/src/engine.rs:3802-3941 | The one-pass loop computes the repair function `Gate`. Its invariant: the ids seen and the ids answered are the same set at every loop head, and the output never ends with an unanswered call, so the tool branch at 3834-3845 only ever drops the message. |
| Pairing.FilterToolResultBlocks | crates/snaca-engine/src/engine.rs:3756-3779 | Keeps every non-result block, and of the results the first for each id that was called and not yet answered; the answered set grows by exactly the ids kept. |
| Pairing.SyntheticToolErrors | crates/snaca-engine/src/engine.rs:3948-3961 | One error result per missing id, in order; all of them become answered. |
| Pairing.KeptIds | crates/snaca-engine/src/engine.rs:3756-3779 | The results kept answer exactly the ids that were called, have a result and were not answered before, each once. |
| PairingProofs.GateIsWireValid | crates/snaca-engine/src/engine.rs:3802-3941 | For any list of messages: in the output every assistant message with calls is directly followed by a tool message that answers exactly those calls, and every tool message stands directly behind such a message. |
| PairingProofs.GateKeepsConversation | crates/snaca-engine/src/engine.rs:3802-3941 | Messages that are not tool messages come through unchanged and in order. |
| PairingProofs.AnswerCovers | crates/snaca-engine/src/engine.rs:3870-3938 | The reply built for a call answers exactly the ids called. |
| PairingProofs.AnswerHoldsResult | crates/snaca-engine/src/engine.rs:3870-3938 | A call not made before gets the first real result the next message holds for it, body and all, never a synthetic error. |
| GateOutcome.CallOutcome | crates/snaca-engine/src/engine.rs:3802-3961 | For every list of messages and every id a message calls: that message stands in the output in its place in the conversation, with a tool message behind it; if the next message holds a result for the id and no earlier message called it, every result for it there is the first of those, block and all; otherwise every one is an error that tells why; there is one for each id and none for any other. |
| GateOutcome.MadeUpBlocksAreErrors | crates/snaca-engine/src/engine.rs:3948-3961 | For every list of messages: a block of the output that no input message holds is a failed result with a text. So every successful result on the wire is a real one. |
| PairingProofs.GateAnswersExactlyTheCalls | crates/snaca-engine/src/engine.rs:3802-3941 | An id is answered in the output if and only if some assistant message calls it. |
| PairingProofs.GateAnswersOnceIff | crates/snaca-engine/src/engine.rs:3782-3802 | No id is answered twice if and only if every id is called by at most one message, and at most once there unless its result is at hand. The comment promises it without the condition. |
| PairingProofs.GateAnswerCount | crates/snaca-engine/src/engine.rs:3802-3941 | The same per id and from any point of the loop: an id not used further left is answered at most once exactly when it is called cleanly. |
| PairingProofs.ReusedIdIsAnsweredTwice | crates/snaca-engine/src/engine.rs:3782-3941 | Two assistant messages that reuse an id are both answered: the promise that no id is answered twice fails there. |
| PairingProofs.GateFixes | crates/snaca-engine/src/engine.rs:3802-3941 | A well-formed history, none of whose answers concern ids used further left, passes through unchanged. |
| PairingProofs.GateKeepsValid | crates/snaca-engine/src/engine.rs:3802-3941 | The gate is the identity on well-formed histories in which nothing is answered twice. |
| PairingStability.GateFixedPoints | crates/snaca-engine/src/engine.rs:3802-3941 | For every history: the gate changes nothing if and only if every tool message stands behind a call and every call has a reply with one result for each new id, in any order, followed by a synthetic error for each reused id in call order. |
| PairingStability.AnswerTwice | crates/snaca-engine/src/engine.rs:3870-3938 | Answering an answer again gives the same reply if and only if every id that is new and has no result is called once, and before any reused id. |
| PairingStability.GateIsIdempotent | crates/snaca-engine/src/engine.rs:3802-3941 | For every history: a second pass changes nothing if and only if that holds of every message, with respect to the ids called before it and the results right behind it. |
| PairingStability.CalledBeforeIds | crates/snaca-engine/src/engine.rs:3862-3864 | The ids taken as used at a message are exactly those that earlier messages call. |
| PairingStability.DoubleCallIsNotStable | crates/snaca-engine/src/engine.rs:3802-3941 | A message that calls one id twice and gets no result makes a second pass differ from the first. |
| PairingProofs.GateOnCut | crates/snaca-engine/src/engine.rs:3802-3941 | On a valid history cut from the left the gate drops at most the leading tool message and makes nothing up. |
| PairingProofs.CutStaysValid | crates/snaca-engine/src/engine.rs:3636-3663 | Every suffix of such a history is one again. |
| PairingProofs.GateShape | crates/snaca-engine/src/engine.rs:3802-3941 | The shape of the output (message ids, roles, call and result ids) is a function of the shape of the input. |
| PairingProofs.CutValidShape | crates/snaca-engine/src/engine.rs:3802-3941 | Being well-formed depends on the shape alone. |
| History.TrimToConversationWindow | crates/snaca-engine/src/engine.rs:3636-3663 | The loop cuts the prefix that the window function names; 0 means no limit. |
| HistoryProofs.WindowKeepsLongestTail | crates/snaca-engine/src/engine.rs:3621-3663 | The window keeps the longest tail with at most `limit` user and assistant messages, and exactly `limit` when there were more; tool messages ride along. |
| History.EnforceHistoryByteCap | crates/snaca-engine/src/engine.rs:3491-3593 | The whole cap with its running total equals the specification function; the methods it calls carry the exactness of the total. |
| History.ClearResults | crates/snaca-engine/src/engine.rs:3537-3557 | One message cleared in place: the returned number of freed bytes is exactly the difference in size, so no saturating subtraction saturates. |
| History.ClampOversized | crates/snaca-engine/src/engine.rs:3501-3516 | Every tool result, wherever it stands, is cut to the per-result limit. |
| History.ClearOldResults | crates/snaca-engine/src/engine.rs:3520-3563 | Clears from the oldest message on and stops at the first that makes the history fit; the running total equals the recomputed size at every step and at the end. |
| History.DropLeading | crates/snaca-engine/src/engine.rs:3565-3570 | Drops exactly as many leading messages as the specification says, given an exact total. |
| History.StripLeadingTools | crates/snaca-engine/src/engine.rs:3571-3581 | Drops exactly the leading tool messages. |
| HistoryProofs.CapFits | crates/snaca-engine/src/engine.rs:3491-3593 | The result fits the cap or is at most one message, and never starts with a tool message. |
| HistoryProofs.DropFits | crates/snaca-engine/src/engine.rs:3565-3570 | Dropping stops as soon as the rest fits or one message is left: every longer tail is too big. |
| HistoryProofs.CapGivesUpLittle | crates/snaca-engine/src/engine.rs:3491-3593 | Results are cleared only while the history is too big, and a message is dropped only if all from it on is too big or it is an unattached tool message. |
| HistoryProofs.CapSparesRecentAndErrors | crates/snaca-engine/src/engine.rs:3520-3563 | Clearing leaves the last max(keep_recent, 1) messages, error results, small results and all other blocks alone; every block is either untouched or cleared. |
| HistoryProofs.CapKeepsShape | crates/snaca-engine/src/engine.rs:3491-3593 | The cap removes whole leading messages and otherwise keeps every role and id in place. |
| HistoryProofs.CollapseKeepsShape | crates/snaca-engine/src/engine.rs:3212-3303 | Collapsing keeps every role and id in place. |
| CollapseProofs.CollapseIsExact | crates/snaca-engine/src/engine.rs:3212-3303 | When an id is called under one tool name only, that name, the age of the message, the error flag and the size decide exactly which results become a marker and which stay as they are. |
| CollapseProofs.CollapseSpares | crates/snaca-engine/src/engine.rs:3212-3303 | Blocks that are not results, errors, recent messages and small results and results of tools outside the fixed list stay as they are. |
| CollapseProofs.NamesAre | crates/snaca-engine/src/engine.rs:3222-3233 | The name table holds an id exactly when some message calls it, under a name it is called by. |
| CollapseProofs.CollapseLeavesMarkers | crates/snaca-engine/src/engine.rs:1307-1310 | The elision markers never fight: collapsing leaves cleared and redacted results alone, for any threshold above the length of the markers. |
| CollapseProofs.SafeThresholds | crates/snaca-engine/src/engine.rs:3212-3303 | A threshold makes no history bigger, whatever the history, if and only if it is 0 (off) or at least 90; the default is 1024. |
| CollapseProofs.CollapseNeverGrows | crates/snaca-engine/src/engine.rs:3212-3303 | From ninety bytes on collapsing never makes a history bigger. |
| CollapseProofs.CollapseCanGrow | crates/snaca-engine/src/engine.rs:3212-3303 | For every smaller threshold a `MemoryRead` body of 89 bytes gives way to a marker of 90. |
| CollapseProofs.LoadedFits | crates/snaca-engine/src/engine.rs:1325-1342 | The loaded history as a whole (redact, window, cap, collapse) fits the byte cap or is one message. |
| CollapseProofs.RequestFits | crates/snaca-engine/src/engine.rs:1325-1342 | And when the stored rows pair up the request does too, since the gate adds nothing. |
| HistoryProofs.RedactKeepsShape | crates/snaca-engine/src/engine.rs:4154-4195 | Redacting any set of rows keeps every role and id in place. |
| HistoryProofs.RedactionForgetsContent | crates/snaca-engine/src/engine.rs:4154-4179 | Two messages of the same shape, with the same tool names and error flags, redact to the same message: nothing else is left. |
| HistoryProofs.ContentPlaysNoPart | crates/snaca-engine/src/engine.rs:3802-3941 | Redacting any rows and collapsing old results cannot change which calls are answered or repaired. |
| HistoryProofs.LoadedIsTail | crates/snaca-engine/src/engine.rs:1325-1342 | Loading keeps a tail of the rows, in shape, for every configuration. |
| HistoryProofs.PipelineNeedsNoRepair | crates/snaca-engine/src/engine.rs:1325-1342 | If the stored rows pair up, the request after redaction, window, cap, collapse and gate is a tail of the rows with every id in place: no synthetic error, only whole leading messages gone. |
| Threads.GateFills | crates/snaca-engine/src/engine.rs:3802-3941 | On any thread cut from the left, in which turns may have ended in a call without its reply: the gate drops a leading tool message, gives exactly the calls without a reply their synthetic errors, and does nothing else. |
| Threads.PipelineFills | crates/snaca-engine/src/engine.rs:1325-1342 | So for such a thread, whatever is redacted, windowed, capped and collapsed: the request is a tail of the rows with every id in place, with synthetic errors for exactly the calls without a reply. |
| Threads.ValidIsThread | crates/snaca-engine/src/engine.rs:3802-3941 | Histories that pair up, with nothing answered twice, are threads without an open call. |
| Threads.FilledAtEnd | crates/snaca-engine/src/engine.rs:3802-3941 | When only the last message can be an open call, there is at most that one to fill in. |
| SummaryLoad.TwoSlices | crates/snaca-engine/src/engine.rs:3802-3941 | The gate on two slices of a thread around a summary drops only a tool message that leads a slice and makes up results only for calls without a reply. |
| SummaryLoad.ValidSlicesClose | crates/snaca-engine/src/engine.rs:3802-3941 | If the stored rows pair up, that is at most one call per slice, at its end. |
| SummaryLoad.SummaryNeedsLittleRepair | crates/snaca-engine/src/engine.rs:1240-1316 | So for the load path with a summary on file, for any thread, whatever the slices are and whatever is redacted, capped and collapsed: head, summary and a tail of the live rows with every id in place. |
| CapWindow.CapKeepsIff | crates/snaca-engine/src/engine.rs:3491-3593 | The cap keeps a row if and only if some row at or before it is not a tool message and the tail from there fits once all old results are cleared (the last row always fits). |
| CapWindow.RedactionBringsRowsBack | crates/snaca-engine/src/engine.rs:1371-1384 | Some redaction of the rows that may be redacted keeps a given row if and only if, from some row at or before it that is not a tool message, the rows fit when each counts with the smaller of its own and its redacted size. The comment holds that rows the cap leaves out cannot affect a probe. |
| HistoryProofs.OneRowComesBack | crates/snaca-engine/src/engine.rs:1371-1384 | It does happen: in two-row histories the cap leaves the first row out, and redacting the second brings it back. |
| Truncation.FloorCharBoundary | crates/snaca-engine/src/engine.rs:3390-3399 | Finds the last character boundary at or before the limit. |
| Truncation.CapToolResultContent | crates/snaca-engine/src/engine.rs:3406-3448 | Text blocks are joined and cut to a preview when over the limit; the other blocks follow unchanged; 0 means no limit. |
| Truncation.CutsInOrder | crates/snaca-engine/src/engine.rs:3429-3437 | The head ends before the tail starts, so the two never overlap. |
| Truncation.TruncationIsExact | crates/snaca-engine/src/engine.rs:3406-3448 | The body becomes head, note, tail; both cuts are character boundaries, each part is at most max(1, max/2) bytes and as long as that allows, head + dropped + tail is the original, and the note counts exactly the dropped bytes. |
| Truncation.DecimalReadsBack | crates/snaca-engine/src/engine.rs:3438-3443 | The number printed in the note reads back as itself. |
| Truncation.CutKeepsUtf8 | crates/snaca-engine/src/engine.rs:3390-3399 | Cutting UTF-8 text at a boundary leaves UTF-8 text on both sides. |
| Truncation.TruncationKeepsUtf8 | crates/snaca-engine/src/engine.rs:3406-3448 | The preview of UTF-8 text is UTF-8 text. |
| Truncation.TruncationLosesLittle | crates/snaca-engine/src/engine.rs:3429-3437 | On UTF-8 text at most six bytes more than the limit asks for are given up. |
| Truncation.PreviewExceedsLimit | crates/snaca-engine/src/engine.rs:3406-3448 | The note is not counted: for every UTF-8 body and every limit the preview is longer than the limit it was cut to. |
| Truncation.CappedFitsIff | crates/snaca-engine/src/engine.rs:3406-3448 | So a capped body fits its limit if and only if it was not truncated at all. |
| Truncation.CappingTwiceCutsThePreview | crates/snaca-engine/src/engine.rs:3406-3448 | And capping it once more, as happens at load time, truncates the preview itself. |
| HistoryBytes.CappedBytes | crates/snaca-engine/src/engine.rs:3406-3448 | Byte by byte: a body within its limit stays; otherwise it becomes one text, a head and a tail of the joined text around a note with the number of bytes between them in decimal, followed by the other blocks. |
| HistoryBytes.ClampedBytes | crates/snaca-engine/src/engine.rs:3501-3516 | The same for each block of a history: only results in tool messages whose text is over the limit change. |
| HistoryBytes.CappedHistoryBytes | crates/snaca-engine/src/engine.rs:3491-3563 | And each block the cap touches is clamped, and cleared to the marker if it is a successful, big result and stands before some point, which lies before the protected tail, and right before it when the history still does not fit. |
| HistoryBytes.CollapsedBytes | crates/snaca-engine/src/engine.rs:3212-3303 | Collapsing, byte by byte: the tools whose results may go, the age, the size, and the marker with tool and size. |
| HistoryBytes.RedactedBytes | crates/snaca-engine/src/engine.rs:4136-4195 | Redaction, byte by byte: what is kept of a call and of a result, and the placeholder for the rest. |
| HistoryBytes.MessageSizeIs | crates/snaca-engine/src/engine.rs:3450-3490 | The size of a message is its bytes of text, thought, names, inputs and result texts, and 1024 for each image. |
| HistoryBytes.WindowBytes | crates/snaca-engine/src/engine.rs:3636-3663 | The window is the longest tail with at most so many messages of users and assistants. |
| Fence.ClassifyStable | crates/snaca-engine/src/memory_fence.rs:262-326 | Once an open tag is classified as anything but incomplete, later bytes never change the answer. |
| Fence.OverlapKeepsClose | crates/snaca-engine/src/memory_fence.rs:350-362 | The tail kept inside a block is enough: the first close tag of the whole text is the one found in the kept tail. |
| Fence.OverlapKeepsOverlap | crates/snaca-engine/src/memory_fence.rs:350-362 | And the overlap of the whole text is the overlap of what was kept. |
| Fence.NoMatchBeforeOverlap | crates/snaca-engine/src/memory_fence.rs:350-362 | No close tag can start in the part that is dropped. |
| Fence.DriveAppend | crates/snaca-engine/src/memory_fence.rs:170-234 | From any state, bytes that arrive later can be processed later: one push of both equals two pushes. |
| Fence.DriveSettles | crates/snaca-engine/src/memory_fence.rs:170-234 | Every push stops with nothing held, or inside a block holding a proper prefix of its close tag, or holding an incomplete open tag. |
| Fence.SettledIsQuiet | crates/snaca-engine/src/memory_fence.rs:170-234 | Such a state emits nothing until more bytes arrive. |
| Fence.ChunkIndependence | crates/snaca-engine/src/memory_fence.rs:170-252 | However a text is cut into chunks, the pushes leave the state and emit the bytes that one push of the whole text does, and so does the flush after them. |
| FenceOneShot.SanitizedIsIdentity | crates/snaca-engine/src/memory_fence.rs:48-133 | The one-shot stripper changes a text if and only if a protected fence opens in it. |
| FenceOneShot.ClassifyAgrees | crates/snaca-engine/src/memory_fence.rs:262-326 | The streaming classifier and the one-shot test see the same tag: same name, same length, same self-closing verdict. |
| FenceOneShot.BlocksAgree | crates/snaca-engine/src/memory_fence.rs:76-133 | When the first `>` behind the first close marker of a block ends an exact close tag, or there is none, both forms resume at the same byte or both drop everything to the end. |
| FenceOneShot.OneShotFinishesStream | crates/snaca-engine/src/memory_fence.rs:48-252 | What the one-shot form makes of a text is what the pushes emitted, followed by what it makes of the held tail. |
| FenceTail.StreamingRefinesOneShot | crates/snaca-engine/src/memory_fence.rs:48-252 | On a text whose protected blocks close exactly (close tags outside blocks do not matter), in any chunks: pushes and flush equal the one-shot form if and only if a scan of the text meets neither an open tag without its end nor a `<`, fewer than 16 bytes from the end and not of a close tag, behind which a protected fence opens. |
| FenceOneShot.HeldTailDecides | crates/snaca-engine/src/memory_fence.rs:48-252 | The same in terms of what the scrubber holds at the end: the two differ exactly when the held tail opens a protected fence. |
| FenceTail.HeldTailOpensIff | crates/snaca-engine/src/memory_fence.rs:170-252 | When the held tail opens a fence, as a condition on the text alone. |
| FenceTail.HeldIff | crates/snaca-engine/src/memory_fence.rs:262-326 | A `<` is held exactly when a protected tag opens there without its end, or when nothing opens there, it is less than 16 bytes from the end and no slash follows. |
| FenceTail.ScrubIsIdentity | crates/snaca-engine/src/memory_fence.rs:170-252 | The scrubber changes a text if and only if a scan meets a protected open tag with its end before it meets an undecided one. |
| FenceTail.SanitizedReopensIff | crates/snaca-engine/src/memory_fence.rs:48-133 | What the one-shot form leaves opens a protected fence if and only if, at some stripped block, the last bytes kept before it begin an open tag that the bytes kept after it complete. |
| FenceTail.ScrubReopensIff | crates/snaca-engine/src/memory_fence.rs:48-252 | The same of what the scrubber emits, when blocks close exactly: it opens one if and only if that happens or the scan gets stuck as above. |
| FenceTail.StrippingReopens | crates/snaca-engine/src/memory_fence.rs:18-19 | It happens at every place in every name: a block inside a protected open tag is stripped and leaves that tag whole, although the module comment promises every protected fence removed. |
| FenceTags.WholeFence | crates/snaca-engine/src/memory_fence.rs:48-252 | On the bytes, for the two names in any mix of cases: an open tag, with attributes behind a blank, tab, newline or slash or without any, a body in which the fence is not closed, and the close tag are dropped, by either form, and the text after them is what is left to do. |
| FenceTags.SelfClosingFence | crates/snaca-engine/src/memory_fence.rs:98-105 | A tag that ends in a slash is dropped alone, by either form. |
| FenceTags.LooseFence | crates/snaca-engine/src/memory_fence.rs:106-121 | For the one-shot form any bytes may stand between the name in the close tag and its `>`. |
| FenceTags.EndlessClose | crates/snaca-engine/src/memory_fence.rs:106-121 | And if that `>` is missing, everything is dropped. |
| FenceTags.UnclosedFence | crates/snaca-engine/src/memory_fence.rs:106-133 | A fence that is never closed is dropped to the end, by either form. |
| FenceTags.EndlessTag | crates/snaca-engine/src/memory_fence.rs:98-105 | An open tag that never ends is dropped by the one-shot form; the scrubber gives it back. |
| FenceTags.OtherTagsStay | crates/snaca-engine/src/memory_fence.rs:75-105 | The converse: a `<` that is not followed by a name and a byte that ends it is kept, by the one-shot form always and by the scrubber even if it is held for a while. |
| FenceTags.PlainTextStays | crates/snaca-engine/src/memory_fence.rs:48-68 | Text without `<` is kept. |
| FenceOneShot.TightBlocksClose | crates/snaca-engine/src/memory_fence.rs:106-121 | Blocks close exactly, in particular, when every protected close tag is followed at once by `>` or by the end. |
| FenceOneShot.FlushReemitsOpener | crates/snaca-engine/src/memory_fence.rs:240-252 | One family where they differ: any protected open tag that never ends, behind any plain text, is dropped by the one-shot form and re-emitted whole by `flush`, although its comment speaks of a stray `<` only. |
| FenceTail.FlushReemitsFence | crates/snaca-engine/src/memory_fence.rs:240-252 | Another: a complete self-closing fence behind a `<` that is still undecided at the end. |
| FenceOneShot.LooseCloseDiffers | crates/snaca-engine/src/memory_fence.rs:106-121 | After a close tag whose `>` ends no exact close tag, for every text in between and every text behind it: the one-shot form goes on with that text, the scrubber drops it up to the next exact close tag, or all of it. |
| FenceOneShot.LooseCloseLoses | crates/snaca-engine/src/memory_fence.rs:106-121 | So the two forms differ for every text behind such a tag that is not empty and holds no `<`: the scrubber loses it. |
| FenceScrubber.SanitizeContext | crates/snaca-engine/src/memory_fence.rs:48-68 | The byte loop computes the one-shot function. |
| FenceScrubber.StripProtectedBlock | crates/snaca-engine/src/memory_fence.rs:75-133 | Finds the block that opens here and its length, or none. |
| FenceScrubber.NextCharBoundary | crates/snaca-engine/src/memory_fence.rs:135-141 | Skips exactly the continuation bytes. |
| FenceScrubber.ClassifyOpen | crates/snaca-engine/src/memory_fence.rs:262-326 | The loop over names computes the classification function. |
| FenceScrubber.FindTagFrom | crates/snaca-engine/src/memory_fence.rs:331-344 | Finds the first occurrence up to ASCII case, or none. |
| FenceScrubber.HeldTailOverlap | crates/snaca-engine/src/memory_fence.rs:350-362 | Finds the longest proper prefix of the close tag that ends the buffer. |
| FenceScrubber.StreamingScrubber.Push | crates/snaca-engine/src/memory_fence.rs:170-234 | The loop over `held` and `inside` emits and stores exactly what the state function says; each continuing iteration shrinks `held`. |
| FenceScrubber.StreamingScrubber.Flush | crates/snaca-engine/src/memory_fence.rs:240-252 | Emits what is held outside a block, drops it inside one, and resets the scrubber. |
| Poison.PoolLimit | crates/snaca-engine/src/config.rs:237-249 | Never more than 2000 rows, whatever the configured window. |
| Poison.CeilLog2IsLeast | crates/snaca-engine/src/engine.rs:1361-1480 | The logarithm used in the bound is the least k with n at most 2 to the k. |
| Poison.Localize | crates/snaca-engine/src/engine.rs:1361-1480 | Binary search, proved equal to its recursive form: the row it redacts is a candidate and flips the verdict on top of some base. |
| Poison.HalveNarrows | crates/snaca-engine/src/engine.rs:1416-1460 | The invariant of the search: the base stays filtered if it was, and redacting the suspects on top of it passes. |
| Poison.SearchFlips | crates/snaca-engine/src/engine.rs:1361-1480 | So a row that is redacted flips the verdict on top of some base of other candidates. |
| Poison.BlindSearch | crates/snaca-engine/src/engine.rs:1361-1480 | When every probe passes, the search redacts the last candidate, whatever it is. Comments call the result never over-redacting and the empty probe the mirror of the request that failed. |
| Poison.PoolFits | crates/snaca-engine/src/engine.rs:1361-1480 | With up to 4096 candidates the cap of 24 probes never cuts the search short. |
| Poison.ProbeBound | crates/snaca-engine/src/engine.rs:1361-1480 | With as many candidates as a query returns, a search takes at most 23 probes. |
| Poison.SearchBound | crates/snaca-engine/src/engine.rs:1361-1480 | Whatever the probes answer: a search takes at most 1 + 2*ceil(log2 n) probes, at most 23 over what one query returns; with up to 4096 candidates it gives up exactly when there are none or redacting all does not help. |
| Poison.FlipsAreGenuine | crates/snaca-engine/src/engine.rs:1361-1480 | If the filter fires exactly while a poison row is unredacted, a row that flips the verdict is an unredacted poison row. |
| Poison.RoundFinds | crates/snaca-engine/src/engine.rs:1361-1480 | One round on probes that fire exactly while poison is left: it gives up exactly when there is no candidate or poison lies outside the candidates; otherwise it redacts a poison row if there is any, and the last candidate if there is none. |
| Poison.Recover | crates/snaca-engine/src/engine.rs:798-859 | The rounds of recovery, driven by the verdict on the turn itself, which need not be that of a probe, compute the recovery function. |
| Poison.RecoveryHealsPoisonFirst | crates/snaca-engine/src/engine.rs:798-859 | Over a whole recovery, whatever filters the turn: the first rounds redact one poison row each, every round after that one row that is not poison; at most 23 probes a retry. |
| Poison.RecoveryEnds | crates/snaca-engine/src/engine.rs:798-859 | It ends when the turn passes or the retries are used up; it gives up only when the turn is filtered and nothing is left to redact or poison lies outside of that, and at once when that is so from the start. |
| Poison.RecoveryRedactsOnlyPoison | crates/snaca-engine/src/engine.rs:798-859 | When the empty probe gives the verdict of the turn: only poison rows are redacted, min(retries, poison rows) rounds are run, and it gives up, at once, exactly when poison lies outside the rows that may be redacted. |
| Probe.RequestIsTail | crates/snaca-engine/src/engine.rs:4221-4255 | For any thread, when the byte cap is off or has room for the window however its rows are redacted, and whatever is clamped or collapsed: the probe request is a fixed tail of the rows with synthetic errors for its calls without a reply, and each row of it depends only on whether that row is redacted. |
| Probe.ProbeSeesExactlyThePoison | crates/snaca-engine/src/engine.rs:4221-4255 | So, for a filter that lets placeholders and synthetic errors pass, the verdict the real pipeline gives on any set of rows is that of the oracle above, for the rows of the request that are bad as they are sent. |
| Probe.PlaceholdersPassWhole | crates/snaca-engine/src/engine.rs:4136-4179 | With limits above the length of the placeholder, as by default, clamping and collapsing leave redacted rows alone. |
| Probe.CandidatesAre | crates/snaca-engine/src/engine.rs:1371-1397 | In every round the candidates are the assistant and tool rows of the window that are not redacted yet: redaction moves the window nowhere. |
| Probe.PoisonIsCandidate | crates/snaca-engine/src/engine.rs:1371-1397 | All bad rows of the request that are not redacted are among them if and only if each is an assistant or tool row: the window leaves none out. |
| RowRoles.CandidateRoles | crates/snaca-engine/src/engine.rs:1385-1397 | Whatever the rows and the limits: the candidates are exactly the ids of loaded rows of role assistant or tool that are not redacted yet. |
| RowRoles.OnlyModelAndToolRows | crates/snaca-engine/src/engine.rs:1361-1480 | Whatever the filter says, a search redacts a row of role assistant or tool, and so does every round of a recovery. |
| RowRoles.UserRowsAreSafe | crates/snaca-engine/src/engine.rs:1361-1480 | So no row of a user or of the system is ever newly redacted. |
| RowRoles.GivesUpOnUsers | crates/snaca-engine/src/engine.rs:1361-1480 | The search gives up exactly when no assistant or tool row is left to redact, or a row of a user or of the system is bad. |
| RowRoles.LoneUserIsLeftAlone | crates/snaca-engine/src/engine.rs:1385-1400 | In a thread where only a user has spoken the search gives up without a probe. |
| Probe.RowIsLocalized | crates/snaca-engine/src/engine.rs:1361-1480 | The search on the real pipeline, whatever request was filtered: it gives up exactly when there is no candidate or the probe request holds a bad row that may not be redacted, such as a user message; the row it redacts is bad if and only if that request holds a bad row at all, and is the last candidate otherwise. |
| Probe.RecoveryOfRows | crates/snaca-engine/src/engine.rs:798-859 | Recovery on the real pipeline with the turn filtered on its own request, with or without a summary on file: the first rounds redact one bad row of the probe request each, every later round a row that is not bad, and it ends as the abstract recovery does. |
| Probe.RecoveryWithoutSummary | crates/snaca-engine/src/engine.rs:798-859 | Without a summary on file: only bad rows are redacted, min(retries, bad rows) rounds are run, and it gives up, at once, exactly when a bad row may not be redacted. |
| Probe.BadSummaryMisleads | crates/snaca-engine/src/engine.rs:1361-1480 | With a summary whose text is flagged the turn is filtered whatever is redacted; once no bad row is left in the probe request, each search redacts an innocent row. |
| Probe.BadSummaryNeverHeals | crates/snaca-engine/src/engine.rs:798-859 | Such a turn never passes: recovery redacts one row a round until the retries are used up or every assistant and tool row of the window is redacted. |
| Scheduling.PrerunWhileStreaming | crates/snaca-engine/src/engine.rs:2143-2183 | The cache holds exactly the results of the calls before the write barrier, in the order of stops, run on the state before the message. |
| Scheduling.CollectPending | crates/snaca-engine/src/engine.rs:2299-2331 | A cached result goes to the first call with its id, and to no other. |
| Scheduling.Segment | crates/snaca-engine/src/engine.rs:2348-2371 | The segments cover all positions in order; a segment of more than one call is read-only throughout, and no two neighbours could be joined. |
| Scheduling.StateAfterReads | crates/snaca-engine/src/engine.rs:2348-2371 | Read-only entries leave the state where it was. |
| Scheduling.RunInParallel | crates/snaca-engine/src/engine.rs:2415-2437 | Whatever the order in which the calls of a segment complete, each yields the result the plan run left to right gives it. |
| Scheduling.SortedOutcomesAreSequential | crates/snaca-engine/src/engine.rs:2438-2449 | Sorting the outcomes by position gives the results of the plan in order. |
| Scheduling.RunToolCalls | crates/snaca-engine/src/engine.rs:2289-2449 | The whole pass, for any cache, any segments and any completion order, gives the results and the state of its plan run left to right. |
| SchedulingProofs.PassIsSequential | crates/snaca-engine/src/engine.rs:2060-2449 | When the order of stops is safe, stream and pass give the results and the final state of plain left-to-right execution, whichever pre-runs come through. |
| SchedulingProofs.StreamThenRun | crates/snaca-engine/src/engine.rs:2060-2449 | The same of the two methods run one after the other. |
| SchedulingProofs.SafeIffAgrees | crates/snaca-engine/src/engine.rs:2060-2449 | Safe is exact: for given tools, a message and an order of stops agree with left-to-right execution in every well-behaved world if and only if every result handed over is that of the very same call and no write precedes it in the message. |
| SchedulingProofs.UnsafeIsWrong | crates/snaca-engine/src/engine.rs:2060-2449 | Where one entry is not safe, the pass hands over a wrong result at that very place, in a well-behaved world with those tools. |
| SchedulingProofs.ReadsFirstIsSafe | crates/snaca-engine/src/engine.rs:2090-2097 | With distinct ids, any order is safe in which each call before the barrier is preceded in the message by harmless calls only. |
| SchedulingProofs.MessageOrderIsSafe | crates/snaca-engine/src/engine.rs:2090-2097 | The order of the message is one. |
| SchedulingProofs.StopOrderMatters | crates/snaca-engine/src/engine.rs:2143-2183 | For any message: a read that stops before the barrier, with a write before it in the message, misses that write. |
| SchedulingProofs.DistinctIdsMatter | crates/snaca-engine/src/engine.rs:2299-2331 | For any message: when two different reads share an id, the first is handed the result of the second. |
| SchedulingProofs.EarlyCallsMayRun | crates/snaca-engine/src/engine.rs:3123-3128 | Every cached result is that of a call whose tool is registered, read-only and never asks, run on the state before the message; so nothing that the gate would refuse is run ahead. |
| SchedulingProofs.CacheIsUsedOnce | crates/snaca-engine/src/engine.rs:2299-2331 | A cached result is handed out once: to the first call with its id and to no other. |
| SchedulingProofs.PassOutcome | crates/snaca-engine/src/engine.rs:2289-2449 | A call of no tool and a refused one get their errors and change nothing, cached or not; any other gets its cached result, or is executed on the state its predecessors left. |
| LoopGuard.RecordedCounts | crates/snaca-engine/src/engine.rs:2339-2346 | A batch that passes is counted in full and leaves the count of every call in it below the limit. |
| LoopGuard.RecordedTrips | crates/snaca-engine/src/engine.rs:2339-2346 | A batch trips the guard if and only if some call in it would reach the limit. |
| LoopGuard.LoopGuard.Record | crates/snaca-engine/src/loop_guard.rs:62-77 | Counts one call and trips when the count reaches the limit (the module comment says past it). |
| LoopGuard.LoopGuard.RecordAll | crates/snaca-engine/src/engine.rs:2339-2346 | Records a batch call by call and stops at the first that trips. |
| TurnLoop.CallLlm | crates/snaca-engine/src/engine.rs:2002-2057 | The retry loop ends as the round trip function says, and takes that many LLM calls. |
| TurnLoop.HealHistory | crates/snaca-engine/src/engine.rs:826-859 | Healing runs one search over what a query returns, and may break off after some probes. |
| TurnLoop.RoundTrip | crates/snaca-engine/src/engine.rs:2023-2239 | A round trip takes at most stream retries + 2 LLM calls. |
| TurnLoop.RunTools | crates/snaca-engine/src/engine.rs:2289-2449 | One result per call, in the order of the calls, and the failed calls in order. |
| TurnLoop.RepeatedFailure | crates/snaca-engine/src/engine.rs:1139-1156 | A hint is due exactly when some call fails for the second time in the turn; counting stops there. |
| TurnLoop.HandleTools | crates/snaca-engine/src/engine.rs:1083-1168 | The tool branch of the loop does what the step function says, with the guard object holding the counts. |
| TurnLoop.HandleReply | crates/snaca-engine/src/engine.rs:931-1083 | So does the branch after a persisted reply: escalation, terminal exit, tools. |
| TurnLoop.Iterate | crates/snaca-engine/src/engine.rs:709-1168 | One pass through the loop is one step of the state machine. |
| TurnLoop.RunTurn | crates/snaca-engine/src/engine.rs:660-1168 | The loop over its counters and the log is the run of the state machine, against any world. |
| TurnProofs.NextKeeps | crates/snaca-engine/src/engine.rs:709-1168 | Each step keeps the loop invariant or ends the turn in good order, in every branch. |
| TurnSteps.TripEnds | crates/snaca-engine/src/engine.rs:2002-2057 | A stream that breaks off is tried again until one does not or the retries are used up; the end is that of the last try, and a reissue costs one call more. |
| TurnSteps.ToolsAreRun | crates/snaca-engine/src/engine.rs:1083-1168 | A reply that stops for tools and is within the guard limit: the log grows by the reply and by a tool message with one result per call, in order, each what the tool returned; exactly these calls are executed and counted; the loop goes on; a hint follows exactly when a call has failed before. |
| TurnSteps.GuardStops | crates/snaca-engine/src/engine.rs:1083-1110 | A reply with a call that would reach the limit trips the guard: it is logged and nothing is executed. |
| TurnSteps.OtherRepliesEnd | crates/snaca-engine/src/engine.rs:931-1083 | Every other reply: an empty one ends the turn unlogged; one cut off without a call is asked for again with twice the cap while that can be raised; all others end the turn. |
| TurnSteps.FailuresAreRetried | crates/snaca-engine/src/engine.rs:720-930 | Without a reply: too long is retried after a compaction unless that fails, bad arguments after telling the model, a filtered request after redacting a row; a search that finds none ends the turn with a notice; each only as often as configured, and everything else fails the turn. |
| TurnSteps.TurnTells | crates/snaca-engine/src/engine.rs:660-1168 | Over a whole turn, against any world: every tool message answers the calls right before it with what the tools returned in some iteration; what was executed is exactly what was answered; and each outcome has its cause. A turn that is done leaves a call pending only if its last reply did not stop for tools. |
| TurnProofs.EveryTurnEndsWell | crates/snaca-engine/src/engine.rs:660-1168 | On every run, against any world: no assistant message in the log is empty; every one with calls is last or directly followed by one result per call in the same order; tool messages stand nowhere else; LLM calls, probes included, are at most max_iterations*(stream retries + 2) + compaction retries + 1 + 23*filter retries; after k escalations the cap is min(c0*2^k, ceiling); the passes after the stream execute no call more than limit - 1 times. |
| TurnProofs.GuardKeeps | crates/snaca-engine/src/engine.rs:2339-2346 | A batch that passes the guard keeps the number of executions of every call by the passes after the stream below the limit. |
| TurnProofs.CapDoubles | crates/snaca-engine/src/engine.rs:947-972 | An escalation takes the cap from min(c0*2^k, ceiling) to min(c0*2^(k+1), ceiling). |
| TurnProofs.LogOkPrefix | crates/snaca-engine/src/engine.rs:1170-1193 | A turn cut off between two appends, by cancellation or timeout, leaves a log of the same form. |
| TurnProofs.LogNeedsNoRepair | crates/snaca-engine/src/engine.rs:2002-2022 | A log without a pending call is a well-formed history, and with distinct ids the gate leaves it alone. |
| TurnProofs.TurnsAreClosed | crates/snaca-engine/src/engine.rs:2002-2022 | For the logs of any number of turns one after the other, however each ended, with distinct call ids: the gate gives synthetic errors to exactly the calls that end a turn and changes nothing else. |
| StreamEvents.FenceStage.ScrubStreamEvent | crates/snaca-engine/src/engine.rs:3034-3111 | The stage keeps one scrubber per open text block and emits what the staging function says. |
| StreamEvents.StreamAccumulator.Ingest | crates/snaca-llm/src/stream.rs:298-337 | Each event updates exactly the fields it concerns; a delta of another kind than its block is ignored; the first error is kept. |
| StreamEvents.ProcessStream | crates/snaca-engine/src/engine.rs:2120-2174 | Feeding every staged event to the accumulator computes the stream function. |
| StreamEvents.StreamInStep | crates/snaca-engine/src/engine.rs:3034-3111 | After every prefix of a stream, at every index: the accumulated block is the scrub so far of the deltas before the stop, followed by later ones as they are, and the scrubber holds the rest. |
| StreamEvents.InterleavingIsHarmless | crates/snaca-engine/src/engine.rs:3034-3111 | However the blocks interleave, and even if deltas follow a stop: each text or thinking block comes out as the scrub of its own deltas before the stop followed by the later ones as they are, tool arguments unchanged, and no other block appears. |
| StreamOutcome.OthersPassThrough | crates/snaca-engine/src/engine.rs:3034-3111 | For every list of events: all but text deltas come through the stage unchanged and in order, and nothing is added. |
| StreamOutcome.AccumulatedFields | crates/snaca-engine/src/engine.rs:2120-2174 | For every list of events, behind the stage: id and model are those of the last start, stop reason and usage the last ones given, and the error is the first one reported; without such an event each is empty. |
| StreamOutcome.ReplyIs | crates/snaca-llm/src/stream.rs:339-377 | From the raw events of a well-formed stream to the reply: none after an error; otherwise every block in index order, text and thinking scrubbed, with the last id, stop reason and usage given; without a stop reason it stops for tools exactly if it calls any. |
| StreamEvents.LateDeltaIsNotScrubbed | crates/snaca-engine/src/engine.rs:3055-3085 | A block with late deltas still equals the scrub of all its deltas if and only if nothing came late inside an unterminated block, and otherwise a scan of the held tail followed by the late text meets no protected open tag with its end before an undecided one. |
| StreamEvents.SynthesizeEvents | crates/snaca-llm/src/stream.rs:95-140 | The loop emits the start, the events of every block in order, and the stop of a finished response. |
| StreamEvents.SynthesisRoundTrip | crates/snaca-llm/src/stream.rs:95-140 | A response turned into events, accumulated and finalized keeps its id, stop reason and usage, and comes back whole if and only if it holds no results, no images and no signed thinking. |
| CanonicalJson.WriteCanonical | crates/snaca-engine/src/engine.rs:3146-3184 | Appends the canonical text to whatever the buffer holds. |
| CanonicalJson.CanonicalTextIsUnambiguous | crates/snaca-engine/src/engine.rs:3139-3184 | For values whose objects have distinct keys: equal text if and only if the values are equal up to object key order at every level. |
| CanonicalJson.CanonUnique | crates/snaca-engine/src/engine.rs:3146-3184 | Even at the head of a longer text a canonical text determines its value, up to key order, and where it ends. |
| CanonicalJson.CanonRespects | crates/snaca-engine/src/engine.rs:3146-3184 | Values equal up to key order have the same text. |
| CanonicalJson.UnquoteQuoted | crates/snaca-engine/src/engine.rs:3151-3156 | String escaping, as in section 7 of RFC 8259, reads back exactly, and reading stops right after the closing quote. |
| CanonicalJson.SortKeysSorts | crates/snaca-engine/src/engine.rs:3167-3169 | The keys come out in byte order. |
| CanonicalJson.SortedUnique | crates/snaca-engine/src/engine.rs:3167-3169 | There is one sorted arrangement of a multiset of keys. |
| JsonBytes.CanonPrints | crates/snaca-engine/src/engine.rs:3146-3184 | The text is the one a grammar tells: literals, number tokens, string tokens with the short escapes and lower-case hex, items and members separated by commas without blanks, and the keys of each object once and in byte order. |
| JsonBytes.AtMostIsBefore | crates/snaca-engine/src/engine.rs:3167-3169 | The order of keys is that of their bytes: a proper prefix comes first, else the first difference decides. |
| NameCodec.ValidateServerName | crates/snaca-mcp/src/config.rs:158-190 | Accepts exactly the valid names, and names the first rule that is broken and the first bad character. |
| NameBytes.ValidServerIs | crates/snaca-mcp/src/config.rs:146-157 | The rules for server names on the bytes: one to 64 of `a-z`, `0-9`, `_` and `-`, no two underscores in a row, not beginning with `mcp_`. |
| NameBytes.SlugBytes | crates/snaca-mcp/src/config.rs:211-235 | A slug keeps the letters and digits of the tool name in order; all else in it is underscores; it begins with no digit and ends in no underscore. |
| NameBytes.SplitIs | crates/snaca-mcp/src/config.rs:137-144 | A name splits into two parts if and only if it is the prefix, the first part, a double underscore and the second, neither part is empty and no double underscore begins earlier. |
| NameBytes.SplitFails | crates/snaca-mcp/src/config.rs:137-144 | And it does not split if and only if there are no such parts. |
| NameCodec.SanitizeToolSegment | crates/snaca-mcp/src/config.rs:211-235 | The loop with its separator flag computes the slug function. |
| NameCodec.SlugFixedPoints | crates/snaca-mcp/src/config.rs:211-235 | A slug has slug characters only, no leading digit and no trailing `_`, and those strings are exactly the ones left alone. |
| NameCodec.SlugIsIdempotent | crates/snaca-mcp/src/config.rs:211-235 | Slugging twice is slugging once. |
| NameCodec.SplitPoint | crates/snaca-mcp/src/config.rs:137-144 | For a valid server the split falls on the separator, or one byte earlier when the server ends in `_`. |
| NameCodec.SlugEmptyIff | crates/snaca-mcp/src/config.rs:211-235 | A slug is empty if and only if the tool name has no ASCII letter or digit. |
| NameCodec.LiteralRunsStay | crates/snaca-mcp/src/config.rs:205-235 | Runs of literal underscores stay in a slug. |
| NameCodec.SlugDoubleIff | crates/snaca-mcp/src/config.rs:205-235 | A slug holds a double underscore if and only if two neighbours of the tool name, neither a letter or digit and one a literal `_`, are followed by a letter or digit, a run of other characters at the very start not counting. The comment says that runs of separators shrink to one. |
| NameCodec.RoundTrip | crates/snaca-mcp/src/config.rs:130-144 | Splitting a qualified name gives back server and slug if and only if the server does not end in `_` and the tool name has a letter or digit. |
| NameCodec.QualifiedNamesAreInjective | crates/snaca-mcp/src/config.rs:130-132 | On such pairs equal qualified names come from equal servers and slugs. |
| NameCodec.TrailingUnderscoreCollides | crates/snaca-mcp/src/config.rs:158-190 | The validator admits a server ending in `_`, and every tool of it has the qualified name of a tool of another valid server. |
| Rpc.Host.DispatchResponse | crates/snaca-channel-host/src/supervisor.rs:892-900 | Dispatch takes the slot out and delivers to the call it belongs to, if that still listens; an unknown id changes nothing. |
| Rpc.Host.Poll | crates/snaca-channel-host/src/supervisor.rs:318-328 | One poll of a waiting call: a response in its channel comes first, a closed channel second, the deadline last; otherwise nothing changes. |
| Rpc.NextKeeps | crates/snaca-channel-host/src/supervisor.rs:293-335 | Every atomic step of any caller, the reader or a timeout keeps the invariant of the tables. |
| Rpc.CallsAreCorrelated | crates/snaca-channel-host/src/supervisor.rs:293-335 | In every interleaving, with any stray, duplicate or reordered responses: a call returns only a response with its own id (section 5 of the JSON-RPC 2.0 specification), once it has returned its id is not pending, ids are never shared, and no call finds its channel closed. |
| Rpc.ReturnedIsFinal | crates/snaca-channel-host/src/supervisor.rs:293-335 | The outcome of a call that has returned never changes, whatever arrives later. |
| Rpc.ResponseReachesAtMostOne | crates/snaca-channel-host/src/supervisor.rs:892-900 | One response reaches at most one call, the one whose slot it names; a response to no slot changes nothing; a call that has a response never gets another. |
| Rpc.WaitingIsReachable | crates/snaca-channel-host/src/supervisor.rs:318-328 | A waiting call has either its slot or its response, and its slot leads to it. |
| Completion.CallStarts | crates/snaca-channel-host/src/supervisor.rs:293-318 | From any state a new call gets an id larger than any before, its slot, and waits. |
| Completion.ResponseIsReturned | crates/snaca-channel-host/src/supervisor.rs:318-335 | A waiting call returns the response to its id, once that comes, whatever else is in flight. |
| Completion.DeadlineEnds | crates/snaca-channel-host/src/supervisor.rs:318-335 | A response that is there wins over the deadline; without one the deadline fails the call and clears its slot. |
| Completion.ClosedWriterEnds | crates/snaca-channel-host/src/supervisor.rs:300-318 | A request that cannot be written fails the call and clears its slot. |
| Approval.ApprovalRegistry.Register | crates/snaca-channel-host/src/approval.rs:31-34 | Registering binds the token to the sender. |
| Approval.ApprovalRegistry.Take | crates/snaca-channel-host/src/approval.rs:40-43 | Taking removes the token and hands out its sender, so a second take finds nothing. |
| Approval.Host.HandleCallback | crates/snaca-channel-host/src/supervisor.rs:1012-1044 | An unauthentic callback changes nothing; an authentic one takes the slot of its token from the registry and delivers to the request if it still listens, or is forwarded when there is no slot. |
| Approval.Host.Poll | crates/snaca-channel-host/src/supervisor.rs:418-431 | One poll of a waiting request: decision first, closed channel second, deadline last. |
| Approval.NextKeeps | crates/snaca-channel-host/src/supervisor.rs:378-431 | Every atomic step of requests, acks, callbacks and timeouts keeps the invariant. |
| Approval.DecisionsAreGenuine | crates/snaca-channel-host/src/supervisor.rs:378-431 | In every interleaving: a returned decision is that of an authenticated callback for its token, even one before the ack; after the return the token is not registered; no request finds its channel closed. |
| Approval.SlotIsConsumedOnce | crates/snaca-channel-host/src/supervisor.rs:1008-1044 | What consumed a slot (callback, failed ack, disconnect or timeout) never changes, and a consumed token is never registered again. |
| Approval.LateCallbackIsForwarded | crates/snaca-channel-host/src/supervisor.rs:1027-1044 | After a request has returned, an authenticated callback for its token is forwarded and changes nothing else. |
| Approval.CallbacksAreAccountedFor | crates/snaca-channel-host/src/supervisor.rs:1008-1044 | Every authenticated callback was forwarded or consumed exactly one slot. |
| Approval.ConsumedDecisionIsReturned | crates/snaca-channel-host/src/supervisor.rs:378-431 | In every interleaving, once the request has returned: a decision that consumed its slot has been returned if and only if, when the callback came, the request was waiting, or was still asking and the first ack after it was good; otherwise the request failed and the callback was not forwarded either. |
| Approval.DecisionsCanBeLost | crates/snaca-channel-host/src/supervisor.rs:407-431 | Both kinds of loss occur: after a timeout and before the slot is taken back, and before a failed ack. |
| Completion.RequestStarts | crates/snaca-channel-host/src/supervisor.rs:378-418 | From any state a new request has its token registered before the ack; a good ack makes it wait, a bad one ends it and takes the token back. |
| Completion.DecisionIsReturned | crates/snaca-channel-host/src/supervisor.rs:418-431 | A waiting request returns the decision an authentic callback brings for its token, which is used up and not forwarded. |
| Completion.OtherCallbacks | crates/snaca-channel-host/src/supervisor.rs:1008-1044 | A callback that is not authentic changes nothing; one for a token not registered is forwarded. |
| Completion.DeadlineEndsRequest | crates/snaca-channel-host/src/supervisor.rs:418-431 | A decision that is there wins over the deadline; without one the deadline fails the request and takes the token back. |

## Left out

- StreamingRefinesOneShot: exact when the protected blocks of the text close exactly; for a block that does not,
  `LooseCloseDiffers` gives what each form makes of it, but no condition for every such text, because whether the two
  results still agree depends on everything that follows.
- Localize: probes are a deterministic function of the redacted set; a filter that changes its mind between probes is not
  modelled. Beyond 4096 candidates, more than a query returns, the probe cap may be overshot by one and the search may end
  early.
- ProbeSeesExactlyThePoison: takes room for every redaction in the byte cap, or no cap; without room a probe can contain
  other rows (`RedactionBringsRowsBack`). The filter judges messages one by one, and lets redacted ones and
  synthetic errors pass.
- RecoveryOfRows: the rows of the thread stay the same over the rounds of one recovery. With a summary on file a bad row
  it redacts is one of the probe request, and may be one that the turn no longer sends.
- EveryTurnEndsWell: the memory extractor's own LLM calls are not counted, nor those of the background compaction beyond
  one. Tool calls run ahead while the reply streams are not counted as executions: they start before the guard sees the
  batch.
- LogOkPrefix: wall-clock timeouts and cancellation are modelled as stopping after any number of appends.
- RunInParallel: the concurrency limit is not modelled; any completion order it allows is covered. Only the results of
  tools matter, not their duration.
- InterleavingIsHarmless: covers streams in which an index is opened once and the deltas of a block are of its kind. The
  stage holds its scrubbers as values.
- CallsAreCorrelated: request ids are unbounded; the wrap-around of the 64-bit counter is not modelled. The handshake owns
  id 0 and is not a call of the model.
- CapDoubles: caps are unbounded integers; the saturating 32-bit multiplication is hidden by the ceiling.
- CanonicalTextIsUnambiguous: a number is its printed token, so it takes number printing to be injective; the hash behind
  `input_signature` is taken to be injective and is not modelled.
- SynthesisRoundTrip: takes parsing after printing of a tool input to be the identity.
- SummaryNeedsLittleRepair: head and live rows are any two slices of the stored rows, one before the other; which slices
  the store returns is not modelled.
- The text of feedback, notices, summaries and system prompts, and the compaction algorithm itself.
- The SQLite store (persistence is an append-only log with a set of redacted ids), files and the workspace listing.
- Providers, HTTP, event-stream parsing and error classification: a request ends in one of the classes the loop tells apart.
- Tools, sandboxing, permission memory and hooks: a tool is an arbitrary function on a state.
- Pattern scanners, document import, skills, the web interface, the command line and process supervision.
- The question registry, which repeats the approval registry with another payload, and pool eviction and back-off times,
  whose claims are arithmetic in one function.
