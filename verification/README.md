# SignalG: a verified model of its concurrent core and its frame codec

SignalG is a websocket hub server written in Go. Most of what can go wrong in it is not networking: it is a handful of
small concurrent protocols, a registry with inverted indexes, and a binary frame format whose checks are written once
for the sender and once for the receiver. This project models those parts in Dafny and proves what they promise.
`dafny verify dfyconfig.toml` checks everything.

| file | models |
|---|---|
| `Connection.dfy` | the counters and channel a connection keeps under `opsMu`, and the connection object with its critical sections |
| `ConnectionRuns.dfy`, `ConnectionOutcomes.dfy` | every interleaving of one connection: senders, handlers, writer, discard loop, drainers, closers; and what becomes of each frame, and why |
| `Server.dfy`, `ServerRuns.dfy`, `ServerOrder.dfy` | the handler over any number of such connections: admission, ServeHTTP goroutines, heartbeat loop and sweep, shutdown; and the order in which each goes through its steps |
| `Registry.dfy`, `RegistryObject.dfy`, `RegistrySweep.dfy` | the registry's maps and operations, its methods and snapshots, and the two-phase expiry under interference |
| `SlicePool.dfy`, `PooledSnapshots.dfy` | the pool of connection slices, Go's append on them, and the snapshots every batch takes from it |
| `FanOut.dfy` | the worker pools of batch send and batch close |
| `Buffers.dfy`, `BufferContents.dfy` | who owns a pooled frame buffer, across all connections, and what its bytes are |
| `Utf8.dfy`, `Protocol.dfy` | the frame codec |
| `ReadLoop.dfy`, `ReadLoopRuns.dfy` | the read loop's replies, and the loop as one goroutine among all those of its connection |
| `SizeHint.dfy` | the adaptive buffer-size hint |
| `Sums.dfy` | sums over the slots of a sequence, the bookkeeping all the ledgers use |

## How concurrency is modelled

A protocol is a state, a datatype of steps, a predicate `Enabled` and a function `Apply`; a run is a sequence of
states joined by enabled steps, and the theorems hold for every state of every run. A section under a mutex is one
step, and code outside one is split wherever another goroutine can run. Goroutine counts, queue capacities, connection
counts and worker counts are arbitrary. A socket write is a step that may succeed or fail, cancelling a context may
happen at any moment, and a Go `select` with several ready cases may take any of them. Each registry operation,
snapshots included, is one step, except the expiry sweep, which is split into its scan and its locked re-checks.
Fields that record history (accepted, written, subtracted, acted) exist to state the theorems; no guard reads them.

A Go channel that is replaced and closed is a generation number with a count of how often each generation was closed, so
closing one twice would show. The buffer pool counts its buffers in the same way.

Assumptions that the code itself relies on:

- Connection keys are fresh. `add` overwrites an entry under the same key and leaves the old entry's index traces behind;
  `AddKeepsValidIff` gives the exact condition under which that is harmless, `AddOverGroupMemberDisagrees` an input where it is not.
- `remove`, `addToGroup`, and the creation and removal of an index set are atomic: the code does not look at the entry
  again after taking its lock there, unlike in `expired`.

Where tests and code disagree the model follows the code: the size hint starts at 128 (connection.go:22), although
connection_test.go:13 and connection_test.go:23 expect values that belong to 512.

## Model

| member | source | states |
|---|---|---|
| Operations.BeginThenEnd | connection.go:478-529 | a send that begins and fails restores all counts, and replaces the channel exactly when nothing else was active |
| Operations.EndTimesCounts | connection.go:514-529 | ending n operations one by one lowers the count by n and closes the channel once, only when the last one ends |
| ConnectionObject.Connection.constructor | connection.go:54-76 | a new connection is idle and its channel is closed |
| ConnectionObject.Connection.BeginOperationLocked | connection.go:514-519 | whole new bookkeeping of a begin, with a new channel after an idle period |
| ConnectionObject.Connection.EndOperation | connection.go:491-529 | whole new bookkeeping of an end |
| ConnectionObject.Connection.BeginHandlerOperation | connection.go:452-464 | refused exactly while draining |
| ConnectionObject.Connection.EndHandlerOperation | connection.go:466-476 | both counts fall together |
| ConnectionObject.Connection.BeginSendOperation | connection.go:478-489 | refused exactly while draining with no active handler |
| ConnectionObject.Connection.StartDrain | connection.go:500-512 | returns the channel in use and changes nothing but the flag |
| ConnectionObject.Connection.EnqueueFrame | connection.go:332-366 | accepted exactly if neither context is done, the queue is open and has room; only a full queue cancels |
| ConnectionObject.Connection.WriteProtocolFrame | connection.go:228-274 | the queue takes exactly the specified frame, or the call is refused for the first failing check |
| ConnectionObject.Connection.SendFrame | connection.go:118-226 | sent exactly when the operation may begin, the frame can be built, both contexts live and the queue is open with room; every refusal names its reason; active operations minus queued frames never changes |
| ConnectionObject.Connection.DiscardQueuedFrames | connection.go:409-425 | drops the whole queue oldest first, once, ending one operation per frame and closing the channel at most once |
| ConnectionRuns.OperationLedger | connection.go:118-226 | in every reachable state activeOps is handlers + senders + queued frames + the writer's frame, activeHandlers is the running handlers, and no end finds a zero count |
| ConnectionRuns.ClosedExactlyWhenIdle | connection.go:452-529 | the current channel is closed exactly when nothing is active, and no channel is ever closed twice |
| ConnectionRuns.DrainChannelStays | connection.go:500-519 | the channel beginDrain returned is never replaced afterwards |
| ConnectionRuns.DrainedIsQuiet | connection.go:478-529 | a closed drain channel means no handler, sender, queued frame or frame being written; uncancelled, everything accepted was written |
| ConnectionRuns.DrainFinality | connection.go:452-529 | after that no operation ever begins and no frame is ever accepted, written or dropped |
| ConnectionRuns.WriterOrder | connection.go:332-425 | written frames are a prefix of accepted ones; at writer exit accepted = written + at most one failed + discarded; a closed queue implies a cancelled context |
| ConnectionRuns.NothingAfterDiscard | connection.go:346-351 | once the writer has exited nothing is accepted and the queue stays empty |
| ConnectionRuns.RefusedExactlyWhen | connection.go:452-489 | a send is refused exactly when a drain has begun and no handler runs, so a reply from inside a handler is never refused by the drain |
| ConnectionRuns.DrainIsBounded | connection.go:375-425 | once a draining connection has no handler, its goroutines can take only a bounded number of further steps of work |
| ConnectionRuns.DrainNotStuck | connection.go:332-425 | and until its drain channel closes one of them can take a step |
| ConnectionOutcomes.SendIsQueued | connection.go:118-366 | on a live connection with room a sender that may begin gets its frame into the queue and changes nothing else |
| ConnectionOutcomes.QueuedIsWritten | connection.go:375-407 | a waiting writer takes the oldest frame to the socket and ends its operation |
| ConnectionOutcomes.LookDecides | connection.go:332-344 | a sender gives up at its first look exactly if a context is done |
| ConnectionOutcomes.EnqueueDecides | connection.go:346-366 | accepted only into an open queue with room, always if the connection is alive besides; found full only if it is |
| ConnectionOutcomes.FailureHasCause | connection.go:228-366 | a sender fails only over its frame, a done context or a full queue |
| ConnectionOutcomes.DisconnectedWhenFull | connection.go:361-365 | only a full queue makes a sender disconnect the consumer |
| ConnectionOutcomes.CancelHasCause | connection.go:361-407 | a cancelled connection was closed by somebody, was a slow consumer, or had a write fail |
| ConnectionOutcomes.AcceptedWasSent | connection.go:118-366 | every accepted frame is one that a sender began with |
| ConnectionOutcomes.WriterInOrder | connection.go:375-425 | the writer skips no step, whatever the others do meanwhile |
| ConnectionOutcomes.NothingQueuedMeanwhile | connection.go:346-425 | nothing is queued while the discard loop is at work |
| ConnectionOutcomes.SenderGoesOn | connection.go:118-366 | a sender never stops half way |
| ConnectionOutcomes.WriterGoesOn | connection.go:375-425 | nor does the writer, unless it waits on a live connection with nothing queued |
| ServerRuns.GracefulShutdown | server.go:545-552 | when waiting for the drain succeeded, every snapshotted connection is quiet and stays closed to new work; if uncancelled, every accepted frame was written |
| ServerRuns.ShutdownDropsNothing | server.go:633-649 | from then on nothing is accepted, written or dropped on those connections, whatever closes them |
| ServerRuns.NoAdmissionAfterShutdown | server.go:590-631 | once shutdown has set its flag nothing is admitted or registered and active never increases |
| ServerRuns.RegisteredIsDraining | server.go:616-631 | when beginShutdown has released its lock every registered connection is draining |
| ServerRuns.CancelledOnReturn | server.go:545-566 | on every return path all snapshotted contexts are cancelled |
| ServerRuns.NilReturnIsComplete | server.go:554-563 | a nil return means all admitted goroutines finished, no handler runs and the registry is empty |
| ServerRuns.ShutdownNotStuck | server.go:633-642 | while shutdown waits for a connection without handlers, it or a goroutine of that connection can go on |
| ServerRuns.ShutdownIsBounded | server.go:633-642 | with no handler left on any snapshotted connection, only a bounded number of steps separate shutdown from the end of its wait |
| ServerOrder.ShutdownFollowsScript | server.go:545-649 | shutdown tells the heartbeat loop, drains, waits for and closes each connection, then waits for the handlers only after a wait that was through; nil exactly if nothing was cut short |
| ServerOrder.ErrorReturnHasCause | server.go:545-566 | an error return means that the caller's context cut a wait short |
| ServerOrder.WaitsForHandlers | server.go:552-563 | after an untimed wait and the closing, only the wait for the handlers is left, and it decides the result |
| ServerOrder.ShutdownGoesOn | server.go:545-649 | shutdown never stops half way |
| ServerOrder.ServeInOrder | server.go:212-345 | a ServeHTTP goroutine skips no step; it subtracts exactly if it removed the connection itself |
| ServerOrder.TurnedAwayByShutdown | server.go:590-602 | a connection is turned away only by a shutdown |
| ServerOrder.HeartInOrder | server.go:672-723 | the loop sweeps whenever its timer fires, closes what a sweep took, and looks again |
| ServerOrder.EvictedIsCancelled | server.go:707-723 | every connection a sweep subtracted has its context cancelled before the loop looks again |
| ServerOrder.TokenExactly | server.go:672-733 | what fills and empties the one-slot wake channel |
| ServerOrder.StopIsTold | server.go:545-549 | the loop is told to stop by shutdown, for good, and by nothing else |
| ServerOrder.SweepTakesAndCloses | server.go:707-723 | a sweep takes registered connections and closes them in turn |
| ServerOrder.SnapshotIsExact | server.go:616-631 | shutdown lists each registered connection, once |
| ServerOrder.TouchedBy | server.go:545-733 | only its own goroutines, its closing, the sweep that evicted it and shutdown touch a connection |
| ServerOrder.DrainedBy | server.go:616-631 | only shutdown begins to drain a connection |
| ServerOrder.HeartGoesOn | server.go:672-695 | the loop never stops half way |
| ServerRuns.OnlineLedger | server.go:590-610 | online = registered - admissions not yet counted + deletions not yet subtracted |
| ServerRuns.SubtractedExactlyOnce | server.go:604-610 | handler and sweep together subtract each connection at most once, and once by the time its goroutine finishes unless the running sweep still has to |
| ServerRuns.NoLostWakeUp | server.go:672-733 | a loop asleep over a non-empty registry has a token pending or an admission about to leave one |
| Registry.AgreementDetermines | registry.go:472-502 | an index that agrees is a function of the primary map |
| Registry.AddKeepsValidIff | registry.go:54-78 | after add the indexes agree exactly if the key was free or the old entry had no group and no other user |
| Registry.AddOverGroupMemberDisagrees | registry.go:65-68 | an input on which add breaks the agreement |
| Registry.RemoveKeepsValid | registry.go:80-101 | remove keeps agreement and the connection is gone |
| Registry.AddThenRemove | registry.go:54-101 | adding and removing restores all three maps |
| Registry.JoinThenLeave | registry.go:319-363 | joining adds one membership, leaving it restores the registry |
| Registry.LeaveAllLeavesAll | registry.go:365-382 | leaving all groups empties the connection's memberships and no other's |
| Registry.NormalizedGroup | registry.go:573-575 | exactly the blanks around a group name are cut off |
| Registry.IndexAgreement | registry.go:54-101 | after any sequence of operations, evictions of any sweeps included, with fresh keys both indexes hold exactly the right connections and no empty set |
| Registry.AddFrame | registry.go:54-78 | add under a free key changes one entry and one user set |
| Registry.RemoveFrame | registry.go:80-101 | remove takes one entry and its traces, or nothing if the pointer is not registered |
| Registry.JoinFrame | registry.go:319-340 | join changes one membership, or nothing if it is there or the connection is not |
| Registry.LeaveFrame | registry.go:342-363 | leave changes one membership, or nothing |
| Registry.LeaveAllFrame | registry.go:365-382 | leaving all groups leaves users and clock alone |
| Registry.TouchFrame | registry.go:384-394 | touch sets one clock and nothing else |
| Registry.AnonymousKeysDiffer | registry.go:566-571 | connections without an id never share a key |
| Registry.SpacesByCodePoint | registry.go:573-575 | which characters trimming drops |
| Registry.LastOperation | registry.go:54-436 | each operation of a sequence has its effect on what those before it left |
| Registry.UserCountsSum | registry.go:131-137 | user counts plus anonymous connections sum to the size of the primary map |
| RegistryObject.ConnectionRegistry.AddConnection | registry.go:54-78 | whole new state of add |
| RegistryObject.ConnectionRegistry.DeleteEntry | registry.go:93-99 | the loop over groups removes every trace of the entry, in any order |
| RegistryObject.ConnectionRegistry.RemoveConnection | registry.go:80-101 | true exactly for the registered pointer, and whole new state |
| RegistryObject.ConnectionRegistry.JoinGroup | registry.go:319-340 | error cases and whole new state, for a name that may need trimming |
| RegistryObject.ConnectionRegistry.LeaveGroup | registry.go:342-363 | error cases and whole new state, for a name that may need trimming |
| RegistryObject.ConnectionRegistry.LeaveAllGroups | registry.go:365-382 | whole new state; only the key is compared |
| RegistryObject.ConnectionRegistry.TouchConnection | registry.go:384-394 | only the registered pointer is touched |
| RegistryObject.ConnectionRegistry.AllConnections | registry.go:103-115 | every registered connection once |
| RegistryObject.ConnectionRegistry.UserOnline | registry.go:131-137 | the number of registered connections of that user |
| RegistryObject.ConnectionRegistry.GroupOnline | registry.go:448-454 | the number of registered connections in that group |
| RegistryObject.ConnectionRegistry.ConnectionSnapshot | registry.go:147-179 | exactly the registered connections with a listed key, each once, fast path included |
| RegistryObject.ConnectionRegistry.UserSnapshot | registry.go:217-264 | exactly the registered connections of the listed users, each once, never more than the reserved total |
| RegistryObject.ConnectionRegistry.CopyConnectionSet | registry.go:504-516 | every member of the set once |
| RegistryObject.ConnectionRegistry.Expired | registry.go:396-436 | without interference exactly the idle connections leave, each reported once, indexes agreeing |
| SlicePool.Append | registry.go:298-315 | one element more; in place while there is room, else on a copy |
| SlicePool.ConnectionSlicePool.GetConnectionSlice | registry.go:532-537 | lends an array large enough that nobody else holds, or no slice for no connections |
| SlicePool.ConnectionSlicePool.PutConnectionSlice | registry.go:539-546 | the array is free again and empty over its whole capacity |
| PooledSnapshots.AllConnectionsPooled | registry.go:117-129 | every registered connection once, in the array that was lent |
| PooledSnapshots.GroupConnectionsPooled | registry.go:464-470 | every connection of the group once, in the array that was lent |
| PooledSnapshots.ConnectionSnapshotPooled | registry.go:181-215 | exactly the registered connections with a listed key, each once, in the array that was lent |
| PooledSnapshots.UserSnapshotPooled | registry.go:266-317 | exactly the registered connections of the listed users, each once, within the reserved total and so in the array that was lent |
| PooledSnapshots.CopyConnectionSetPooled | registry.go:518-530 | every member of the set once, in the array that was lent |
| PooledSnapshots.ListingsAgree | registry.go:217-317 | two listings of the same connections differ at most in order |
| PooledSnapshots.UserSnapshotsAgree | registry.go:217-317 | the pooled user snapshot holds the same connections as the plain one, equally often |
| PooledSnapshots.ConnectionSnapshotsAgree | registry.go:147-215 | likewise for connection snapshots |
| PooledSnapshots.MatchUsers | batch_send.go:45-54 | Matched is the number of registered connections of the users; the release returns the very array that was lent, cleared, and disturbs no other batch |
| RegistrySweep.SweepAgrees | registry.go:416-435 | with any operations between scan and re-checks the indexes agree after every step and nothing is reported twice |
| RegistrySweep.EvictedWasIdle | registry.go:416-433 | each reported connection was the scanned, current and idle entry at its re-check and left in that step |
| RegistrySweep.SweepOutcome | registry.go:402-435 | every scanned entry is re-checked, and reported exactly if then still current and idle |
| RegistrySweep.IdleEntryOutcome | registry.go:402-435 | every entry idle at the scan is re-checked, and leaves then if still idle and current |
| RegistrySweep.TouchSaves | registry.go:384-424 | a touch saves exactly the touched entry, and only if it reaches the deadline |
| FanOut.NoSendOnClosedChannel | batch_close.go:77-88 | nothing is sent on a closed results channel; the slice is released only after producer and workers are through |
| FanOut.OneResultEach | batch_send.go:61-96 | for every schedule each connection yields exactly one result and is acted on exactly as reported |
| FanOut.ResultCarriesError | batch_send.go:65-74 | each result carries the error that the action on its connection returned, or one of its own if it was passed over |
| FanOut.NothingClosedAfterDone | batch_close.go:57-85 | once the caller's context is done a batch close closes nothing more |
| FanOut.WorkersStarted | batch_send.go:55-60 | as many workers as configured, 256 by default, no more than connections |
| FanOut.SamplesAreFirstFour | batch_send.go:84-96 | the samples are the first four errors |
| FanOut.PassedOverOnlyWhenDone | batch_close.go:65-84 | a connection is passed over only in a batch close whose context is done |
| FanOut.StepDecreases | batch_close.go:57-101 | a measure strictly decreases with every step |
| FanOut.BatchTerminates | batch_send.go:62-96 | no run is longer than the initial measure |
| FanOut.BatchNotStuck | batch_close.go:57-101 | no state before completion is stuck, even if the context never becomes done |
| FanOut.CollectResults | batch_send.go:85-96 | every result counted once, error nil exactly if none failed, samples are the first at most four errors |
| FanOut.CollectBatch | batch_close.go:40-118 | Matched = Sent or Closed + Failed for every completed run; Failed is the number of connections passed over or on which the action failed, and the error is nil exactly if there are none |
| Buffers.OwnedExactlyOnce | connection.go:228-274 | each allocated buffer is in exactly one place, so none is put back twice |
| Buffers.ConsumedIsAccepted | connection.go:352-424 | despite reuse across connections, what a writer or discard loop sees is byte for byte what was accepted, in order |
| BufferContents.AcceptedIsWritten | connection.go:228-274 | what a connection accepts is what its sender wrote last, for the connection that sender took the buffer for |
| BufferContents.SenderInOrder | connection.go:228-366 | a sender skips no step; what failed to marshal or does not fit is put back and never queued |
| Buffers.NoLeak | connection.go:552-569 | with no goroutine at work every buffer is back in the pool once or was collected from it |
| Protocol.ValidPrefixFits | connection.go:276-308 | checked fields fit their length bytes |
| Protocol.EmitsExactly | connection.go:228-330 | which messages are sent, in plain numbers, and the first thing wrong with any other |
| Protocol.EmittedBytes | connection.go:259-330 | every byte of an emitted frame by position and value |
| Protocol.DecodesExactly | protocol.go:215-297 | which frames are accepted, in plain numbers, and as what |
| Protocol.RefusalOrder | protocol.go:215-297 | the first thing wrong with a refused frame, in the order it is looked for |
| Protocol.ChecksAgree | protocol.go:244-285 | the receiver's separate checks judge the fields as the sender's do |
| Protocol.HeaderThenParse | protocol.go:207-240 | reading back a written header through nibbles and big-endian length |
| Protocol.ParseThenHeader | protocol.go:207-240 | writing back a read header gives the same bytes |
| Protocol.EmitThenDecode | connection.go:259-330 | decoding an emitted frame returns the same fields, except a control frame with a body, which is refused |
| Protocol.DecodeThenEmit | protocol.go:215-297 | re-encoding any accepted frame returns the identical bytes |
| Protocol.AcceptanceIsEmission | protocol.go:215-336 | accepted frames are exactly the emitted ones with empty control bodies |
| Protocol.EmittedFitsReadLimit | server.go:185-187 | every emitted frame fits the default read limit |
| Protocol.DecodedIdPassesReplyCheck | server.go:819-824 | the id of an accepted Invoke passes the check of either reply |
| Protocol.EncodeFrameHeader | protocol.go:207-213 | overwrites the first eight bytes and nothing else |
| Protocol.BuildRawFrame | connection.go:259-330 | the in-place construction yields the specified frame or the specified error |
| Protocol.DecodeFrame | protocol.go:215-297 | the in-place decoder equals the specification, with a freshly allocated payload |
| Utf8.ValidIffEncoded | protocol.go:275-284 | accepted text is exactly the concatenations of encoded Unicode scalar values |
| ReadLoop.ReplyFailsOnlyBySize | connection.go:154-190 | a reply to an Invoke can be refused only for its size |
| ReadLoop.TurnAnswers | server.go:801-828 | one turn replies exactly to Ping and Invoke, and the peer decodes the reply that is due |
| ReadLoop.FailsExactly | server.go:751-798 | the causes that end the loop, both directions |
| ReadLoop.Serve | server.go:741-799 | replies answer, one each and in order, the Pings and Invokes served before the first failing frame |
| ReadLoopRuns.RepliesInOrder | server.go:741-828 | in every interleaving the replies answer what was received, one each, and went into the connection's queue in request order |
| ReadLoopRuns.EndHasCause | server.go:741-828 | the loop ends only over the one frame it did not serve, for a reason found in that frame and in one step of the run |
| ReadLoopRuns.OutcomeWasDispatched | server.go:812-828 | every Message and Invoke served ran its hub method in its turn and is answered with what that returned |
| ReadLoopRuns.LoopGoesOn | server.go:741-828 | the loop never stops half way |
| ReadLoopRuns.LoopWorkRunsDown | server.go:741-828 | every frame is dealt with in at most twelve steps of the loop's own |
| ReadLoopRuns.RepliesDelivered | server.go:741-828 | after an uncancelled drain the socket has taken all of them, in that order |
| ReadLoopRuns.InvokeMayReply | connection.go:478-489 | an Invoke inside its handler operation always may begin its reply, whoever drains meanwhile |
| ReadLoopRuns.MissingReplyHasCause | server.go:651-657 | a framed reply is missing only if the connection was cancelled, or for a Pong if it drains |
| SizeHint.HintBounds | connection.go:586-606 | the hint covers the last sample and 128 and never exceeds every sample |
| SizeHint.RepeatsConverge | connection.go:594-601 | equal samples bring any hint, that of a new connection included, monotonically within 7 of the sample, where it stays |
| SizeHint.ObserveExactly | connection.go:586-606 | a hint above the sample falls by an eighth of the distance; the floor is 128 |
| SizeHint.BufferSizeExactly | connection.go:571-584 | an eighth more than the hint, never more than the largest legal body |
| SizeHint.NextBufferFits | connection.go:571-584 | the next buffer holds a body an eighth larger than the last, within the legal maximum |
| SizeHint.RaceIsSequential | connection.go:595-605 | racing observers leave the hint one observer would have computed from the applied samples |
| SizeHint.RaceOutcome | connection.go:586-606 | when they are done, that is every sample observed, each applied exactly once |
| SizeHint.SwapDecides | connection.go:595-605 | a swap applies its sample exactly if the hint is still the one loaded |
| SizeHint.SomebodyApplied | connection.go:595-605 | a swap fails only because another one succeeded |
| SizeHint.EncodedPayloadHint.ObserveEncodedPayloadSize | connection.go:586-606 | the compare-and-swap loop applies the sample to the first value that is still in the field when it is compared |

## Left out

- ServerRuns.GracefulShutdown: the goroutines of server.go are a state machine on values rather than an object with methods, because its loops only have meaning interleaved with other goroutines.
- SlicePool.ConnectionSlicePool.GetConnectionSlice: which free array the pool picks, its size classes and its dropping of arrays are left open.
- FanOut.CollectResults: the text of the joined error is not modelled, only which errors it carries.
- Buffers.OwnedExactlyOnce: capacities are not modelled; a pooled buffer that turns out too small counts as collected and replaced by a fresh one.
- Websocket accept, read, write, close status, HTTP handling, origin checks, logging, listeners, and the nil-receiver guards of exported methods.
- MessagePack, protobuf and JSON body codecs; a marshaller only appends in place, moves to a new array, or fails.
- Route discovery by reflection; dispatching a message yields a value, a value the codec refuses, or an error.
- The variant of the read loop for a hub with its own message callback, which queues no reply itself.
- Sharding of the maps and the stripe locks; interleavings inside `remove`, `addToGroup` and index-set creation.
- Machine integer widths: counters and sizes are mathematical integers, except where the code truncates to a byte or 32 bits.
- A wall-clock bound on eviction: every wake restarts the timer, so none follows from the code.
- OnConnected and OnDisconnected pairing, the connected message, generated protobuf code, the Hertz adapter, the example and the pass-through methods of Server.
