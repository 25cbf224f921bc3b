# A verified model of a reliable stream over UDP

This project models, in Dafny, the protocol core of a Go library that runs reliable byte
streams over UDP: chunking under two windows, forward error correction with row and column
parity, retransmission, acknowledgement, batching, pacing and framing.  It proves what the
protocol is for: the reader gets a prefix of what was written, whatever the network drops,
duplicates, reorders or delays; a conforming sender is never refused; no frame is ever lost
while it is needed; memory handed to the kernel by reference is never recycled under it;
and an egress budget shared by many connections is kept.

Verify it with `dafny verify dfyconfig.toml`.

## How it is built

Every component has a value-level definition, on which the theorems are proved, and, where
the original updates fields, arrays or links in place, a class whose methods are proved to
compute exactly those definitions.

| files | what they hold |
|---|---|
| `Bytes`, `Geometry`, `StaticKeys` | XOR on bytes and lengths; which frames form a parity group, by counting; the same by the closed formulas |
| `Receiver`, `Exactness`, `Delivery`, `Peeling`, `Bounds` | the read side as functions; its invariant; recursive recovery and its closure property; what stays bounded whatever arrives |
| `Ledger`, `Sender`, `Wire` | one stream's unacknowledged frames; the write side; the frames |
| `System`, `Safety`, `Runs`, `Theorems` | sender, network and receiver as one step machine; each step keeps the invariant; the end-to-end theorems over every run |
| `Coverage`, `LossRecovery` | the parities a sender emits cover everything it sent; exactly which losses they repair by themselves |
| `Upkeep`, `GiveUp` | gap requests, acknowledgement lists, verdicts and growth over every run; what happens when one side gives up |
| `Steps`, `Progress` | what no step undoes; what can still happen from every reachable state: the stream can be finished and the writer unblocked |
| `Wedge`, `AckReach`, `Deadlock`, `CatchUp` | the one way in which it cannot; how far a sender can get ahead of its watermark; exactly which configurations can deadlock, and from which states a sender can catch up |
| `Ring`, `StreamReader`, `StreamWriter` | the imperative stream: wrapping ring, receive methods, in-place parity lanes |
| `Arena`, `Outstanding`, `Retransmit` | buffer pool; retransmit queue as a value; the same as hash map, intrusive doubly-linked list and free lists |
| `Outbox`, `OutboxProofs`, `ResendWorker` | queue, batches in the kernel's hands and resend worker as a step machine; its theorems; the work queue and the loops around it |
| `AckPath`, `Rto` | what a received ACK does; the timeout estimator |
| `Framing`, `SeqLists`, `WireLink` | byte formats, in-place encoders, the receive loop; chunked sequence lists; the link to the protocol model |
| `Pacer`, `Batching`, `SendBatch`, `PacedSending` | token bucket; batches and segmentation; the batch as stored; the aggregate rate and the path from queue to dispatch |

The end-to-end machine (`System`) has one direction of one stream.  Its network is a set
of frames that only grows; any frame in it may be received at any time, any number of
times, or never.  A run is any finite sequence of actions, those not possible at their turn
skipped, so a statement about `Run(c, acts)` for all `acts` is a statement about every
schedule.  `Outbox` and `Batching` are machines of the same kind.

## What was found on the way

- Reading after cancellation: a stream that has reached its end and is then cancelled by
  its own reader drops what was still buffered but goes on reporting end of file.  So
  "end of file means everything was read" holds exactly when nothing was left unread at the
  cancellation (`Theorems.CancelAfterEof`), and a five-step run shows the loss
  (`Theorems.CancelLosesBytes`).  Without cancellation it holds in every run
  (`Theorems.EofMeansComplete`).
- Storing a frame in the retransmit queue and queueing a reference to it are separate critical
  sections.  A frame that is not removed between the two has its memory protected for as long as
  the kernel may read it, whatever happens to other frames
  (`OutboxProofs.KernelReadsTheFrame`); for every removal in between,
  `OutboxProofs.RemovalBeforeQueueing` gives a continuation in which a batch references a free
  buffer, and `OutboxProofs.RaceIsReachable` gives a run that does so.
- A cumulative acknowledgement that would advance by more than 2^20 frames is ignored as
  corruption.  The code calls this far above any real window, but windows are counted in bytes
  and frames can be small, and frames acknowledged by name leave the window without moving the
  watermark.  A sender can fall so far behind that no later watermark is ever believed; it then
  writes a bounded number of further frames and stops for ever.  `Deadlock.DeadlockIff` gives the
  exact condition on the configuration: a deadlock is reachable if and only if the receive buffer
  and the in-flight cap together exceed 2^20 + 1 bytes and the cap admits two bytes.  The default
  buffer is 128 MiB.  `CatchUp.CatchUpIff` gives the condition on states.
- The documentation of two-dimensional parity (options.go:314-323) speaks of losses short of
  a full G by G stopping set.  `LossRecovery` proves the exact condition: losses are repaired
  if and only if they contain no stopping set, any three are, and a rectangle of four may
  already be one, as a run shows.
- The documentation of the stream buffer option (options.go) says that a stream starts at
  the configured size; the code starts at 256 KiB, or less if configured so, and grows to it
  (stream.go:131-140).  The model follows the code.

## Model

| member | source | states |
|---|---|---|
| Theorems.ReadsArePrefix | stream.go:202-236 | in every run the bytes returned by Read are a prefix of the bytes written |
| Theorems.EofMeansComplete | stream.go:740-745 | end of file, unless the reader itself cancelled, means that the writer closed, did not abort, and every byte written was read |
| Theorems.CancelAfterEof | stream.go:478-495 | cancelling a finished stream reports end of file although bytes are missing exactly if some were still unread |
| Theorems.CancelLosesBytes | stream.go:478-507 | a concrete run in which that happens |
| Theorems.NeverRefused | stream.go:603-625 | every DATA frame in the network, whenever it arrives at a live reader, is accepted and held: neither "no room" branch is reachable |
| Theorems.InjectedNeverRefused | stream.go:1067-1069 | the same for frames injected by reconstruction, whose verdict the code ignores |
| Theorems.CreditSuffices | stream.go:228-234 | when everything sent was read and the sender knows the watermark, more than three quarters of the ring, and at least one full chunk, may be sent |
| Theorems.InFlightConserved | stream.go:385-410 | until an abort, sent minus acknowledged bytes equals the payload of the unacknowledged frames and never exceeds the maximum buffer size |
| Theorems.NoFrameLost | stream.go:1263-1290 | every sent frame is held by the receiver, or is in the sender's queue with its original payload, until the write is aborted or the read side dropped |
| Theorems.HeadCanBeResent | retransmit.go:416-436 | the frame a live receiver waits for is always available to resend |
| Theorems.GapsRange | stream.go:1234-1248 | a NACK lists, in increasing order and up to its limit, exactly the missing frames of the range |
| Theorems.NacksAreAnswerable | stream.go:1234-1252 | in every run, every NACKed frame was sent, is missing here and is still in the sender's queue |
| Upkeep.NacksReachEverything | stream.go:1229-1252 | in every run, a NACK asks for every missing frame of which there is evidence, a later frame or the FIN, or for 1024 earlier ones |
| Upkeep.GappedIff | stream.go:1204-1227 | a live reader considers itself gapped if and only if such a frame exists |
| Upkeep.NamedTwice | stream.go:1254-1288 | in every run, a frame received by a live reader, for the first time or again, is named by each of the two next acknowledgement snapshots or lies below its watermark, whatever happens in between short of dropping the reader |
| Upkeep.ListsExpire | stream.go:1281-1285 | and no longer: two snapshots empty both lists |
| Upkeep.FinIsNamed | stream.go:1266-1270 | in every run, once the FIN was received every snapshot acknowledges its position |
| Upkeep.VerdictIff | stream.go:942-985 | in every run, a parity reports a recovery if and only if the reader is live and exactly one member was missing, and if and only if a frame was gained; otherwise what is held is unchanged |
| Upkeep.RunTidy | stream.go:1128-1154 | in every run, the ring of a live reader is at most half full or has its full size, and no frame beyond the highest number seen is buffered |
| Upkeep.GrantsAreCoarse | stream.go:228-234 | in every run, a read grants nothing or at least a quarter of the ring |
| Bounds.RoomIff | stream.go:1109-1126 | room is made if and only if the ceiling allows it; the ring grows only if it must, to less than twice what it must hold, and the growth is granted |
| Bounds.DeliverFine | stream.go:603-625 | whatever frame arrives, ring and reorder buffer stay within their limits, the ring stays at most half full if it was, it grows only to four times its content at most unless the ramp lets it, nothing held is lost, and a frame is acknowledged only if it is held afterwards or its read side has ended |
| Bounds.FinEndsIff | stream.go:582-590 | whatever position a FIN claims, it ends a live reader if and only if that is the next one; one ahead is noted, one behind ignored |
| Bounds.EvictsOldest | stream.go:968-985 | a full parity buffer gives up its oldest group, and no other, for a new one |
| Bounds.MemoryBounded | stream.go:547-639 | after any events with frames of any content: ring and reorder buffer hold at most the maximum buffer size each, accumulators at most a chunk each, and at most 64 parities wait in each dimension |
| GiveUp.ResetIsOut | stream.go:449-473 | in every run, after an abort the RESET is on the wire at the position after the last frame, and nothing else is outstanding |
| GiveUp.AbortIsReliable | stream.go:449-473 | the RESET with its code stays outstanding until an ACK covers its position |
| GiveUp.ClearsResetIff | retransmit.go:283-320 | right after an abort an ACK clears the RESET if and only if it names its position or its watermark is past it and at most 2^20: the purge puts the sender's own watermark back to zero |
| GiveUp.ReaderCanLearn | stream.go:653-664 | from every state of every run with an aborted writer a live reader can be brought to the reset error |
| GiveUp.ResetCanBeAcked | connection.go:1584-1593 | and the sender to where nothing is outstanding |
| GiveUp.ResetMeansAborted | stream.go:653-664 | in every run, a reader that did not cancel reports a reset only if the writer aborted |
| GiveUp.StopIsOut | stream.go:475-493 | in every run, once the reader has cancelled, its request to stop is on the wire |
| GiveUp.WriterCanLearn | stream.go:666-670 | and the writer can be brought to abort and to send its RESET |
| GiveUp.DroppedIsEmpty | stream.go:495-507 | in every run, after a cancellation or a RESET nothing is buffered any more |
| GiveUp.GivenUpNeverBlocks | stream.go:566-580 | what a reader that gave up discards is still credited and acknowledged: a blocked writer can be brought to where any legal chunk may be sent |
| Theorems.ParityIsExact | stream.go:324-367 | every parity on the wire is the XOR of data and lengths of exactly the members the receiver's formulas give its group, short final groups included |
| Theorems.AccumulatorsExact | stream.go:812-877 | a live reader has an accumulator for every group that straddles readSeq; each one it keeps, of a straddling or a fully delivered group, describes exactly the members below readSeq; at most 2G per map |
| Theorems.RecoveryBetweenClosures | stream.go:942-1070 | with evictions, what is held lies between the closure of the parities still served and the closure of all that arrived |
| Theorems.PeelingIsLeastClosure | stream.go:885-906 | without eviction the held frames are the least set that contains the arrivals and obeys every arrived parity |
| Theorems.RecoveryIsOrderIndependent | stream.go:641-651 | two runs with the same arrivals hold the same frames, whatever the order |
| Theorems.BufferedParityMissesTwo | stream.go:1019-1035 | a parity left in the buffer lacks at least two of its members |
| Theorems.PromptNeverEvicts | stream.go:968-985 | in one dimension, if each parity arrives when at most one of its members is missing, none is ever evicted, whatever the other dimension does |
| Coverage.FullGroupsAreSent | stream.go:340-367 | in every run, the parity of every group whose members were all sent is on the wire |
| Coverage.ClosedIsCovered | stream.go:422-441 | after a regular close every frame sent is covered, in each dimension in use, by a parity on the wire |
| LossRecovery.FarApart | stream.go:308-336 | two members of a column group are at least G apart |
| LossRecovery.SpreadLossesAreRepaired | stream.go:308-336 | any number of losses that hit no column group twice are repaired without retransmission, in one or two dimensions, once the other data and the affected column parities have arrived in send order; late copies of lost frames do no harm |
| LossRecovery.BurstInSendOrder | stream.go:308-336 | so is the loss of any G or fewer consecutive frames |
| LossRecovery.FewLossesNeverEvict | stream.go:968-985 | in send order nothing is evicted from a dimension in a run, however long and lossy, in which fewer than 128 lost frames are missing at any one time or no group of the dimension loses two |
| LossRecovery.RepairedIffPeelable | options.go:314-323 | with fewer than 128 lost frames missing at any one time, the other data and the parities of the lost frames received in send order, everything is held in the end if and only if the losses that never arrived contain no stopping set, a set in which every frame shares each of its groups with another |
| LossRecovery.StoppingIsRectangle | options.go:314-323 | with both dimensions a stopping set has at least four frames |
| LossRecovery.RectangleStops | options.go:314-323 | and four can be enough: two neighbours of one row with the two below them |
| LossRecovery.RectangleIsReachable | options.go:314-323 | for G = 2, a run in which such a rectangle is lost, every parity arrives, and frames stay missing |
| LossRecovery.ThreeLossesAreRepaired | options.go:314-323 | so with both dimensions any losses of which at most three never arrive are repaired |
| Steps.NeverRecreated | stream.go:858-877 | in every run, a group that has begun and has no accumulator never gets one again: what the sweep dropped stays dropped |
| Progress.EverythingCanBeRead | retransmit.go:462-478 | from every state of every run in which neither side gave up there is a continuation in which the reader gets everything written |
| Progress.FinIsOut | stream.go:422-441 | in every run, after a close without abort the FIN is on the wire at the position after the last frame |
| Progress.EndCanBeReached | stream.go:422-441 | and, for a closed stream, one that ends at end of file with everything read |
| Progress.WriterCanProceed | stream.go:250-290 | while at most 2^20 frames lie beyond the sender's watermark, a blocked writer can be brought to where its queue is empty and any legal chunk may be sent |
| Wedge.WedgedForever | retransmit.go:283-290 | with the receiver beyond that limit and no believable ACK in flight, the watermark never moves again in any continuation short of an abort, and a delivered frame that no ACK names stays in the queue for ever |
| Wedge.WatermarkMovesIff | retransmit.go:283-290 | whatever the state of both ends, with the receiver ahead and no believable ACK in flight, the watermark can still move if and only if the receiver is at most 2^20 frames ahead |
| AckReach.RunHeard | retransmit.go:255-307 | in every run, a frame above the watermark that left the queue was named by an ACK, ACKs name frames less than a buffer ahead of their own watermark, and no ACK names a watermark's own frame |
| AckReach.SentSinceMark | stream.go:383-397 | in every run, the frames sent since the watermark are at most one buffer's bytes for each frame still outstanding |
| AckReach.AlwaysBelievable | retransmit.go:283-290 | if buffer and in-flight cap together are at most 2^20 + 1 bytes, no run within the cap ever takes a watermark for corruption |
| AckReach.WedgedWritesBounded | retransmit.go:283-290 | a wedged sender writes a bounded number of further frames, in every continuation in which the stream stays open |
| Deadlock.DeadlockIsReachable | retransmit.go:283-290 | if together they are more, and the cap at least two bytes, a run within the cap wedges the sender, and no write under the cap is possible in any continuation |
| Deadlock.NeverDeadlocked | stream.go:250-290 | otherwise no run within the cap ends so |
| Deadlock.DeadlockIff | stream.go:250-290 | hence for every configuration and every cap from one byte to the buffer size: a deadlock is reachable if and only if the cap is more than one byte and cap and buffer together exceed 2^20 + 1 bytes |
| CatchUp.BarrierForever | retransmit.go:283-290 | where a run of 2^20 held frames lies ahead of the watermark and no ACK in flight ends in it, the watermark never gets past it while the stream is open |
| CatchUp.CatchUpIff | retransmit.go:283-290 | from every state of every run with the stream open: the sender's queue can never be empty again if there is such a barrier, and, unless a parity is waiting for frames, only if |
| Runs.RunOk | stream.go:547-639 | the end-to-end invariant holds after every schedule |
| Geometry.SeqIsMember | stream.go:795-807 | every sequence number is the member, at its index, of the group it is assigned to |
| Geometry.MemberOfGroup | stream.go:795-807 | and every member of a group is assigned back to that group and index |
| Geometry.BelowStep | stream.go:858-877 | how many members of a group lie below n changes exactly when n is its next member |
| Geometry.ColumnMeetsRowOnce | stream.go:308-323 | a row and a column group share at most one frame, which is what makes a stopping set a rectangle at least |
| StaticKeys.FormulasCount | stream.go:795-802 | the closed formulas for lane, index and base compute the positions obtained by counting the sender's lanes |
| StaticKeys.MemberFormula | stream.go:1008-1029 | the receiver's formula, base plus index times stride, gives the members obtained by counting |
| StaticKeys.LastMember | stream.go:858-877 | and base plus G squared minus G, or plus G minus one, the last possible one |
| StaticKeys.BaseTests | stream.go:950-962 | the divisibility tests on a parity's base accept exactly the first members of groups |
| Receiver.Deliver | stream.go:547-639 | recursive delivery terminates: it never increases the number of buffered parities, the measure of its recursion |
| Receiver.TryReconstruct | stream.go:1000-1070 | as part of that recursion, a reconstruction never increases the number of buffered parities |
| Exactness.FoldOk | stream.go:812-856 | folding the frame at readSeq leaves both accumulator maps exact for the next position |
| Exactness.SweepOk | stream.go:858-877 | a sweep drops exactly the groups delivered in full and then keeps at most one per lane; after every fold there are at most 2G |
| Exactness.SolveOk | stream.go:1000-1062 | the payload reconstructed from a parity with one member missing is, in bytes and length, the payload sent |
| Delivery.TryReconstructOk | stream.go:1000-1070 | a reconstruction keeps the reader exact; its outcome says whether the group is complete, or misses two |
| Delivery.DeliverOk | stream.go:547-639 | delivering a frame that was sent accepts it, keeps the reader exact, and loses nothing already held |
| Peeling.DeliverPeels | stream.go:641-651 | after a delivery no buffered parity has fewer than two missing members, and every frame gained is in the closure |
| Sender.FecFoldOk | stream.go:324-358 | the running lanes always describe the open groups of the static geometry; a full lane is emitted exactly then |
| Sender.CloseWriteOk | stream.go:422-441 | closing emits the exact parity of every group in progress and the FIN at the position after the last frame |
| Sender.OneCountPerGroup | stream.go:360-367 | a group is only ever announced with one member count |
| Sender.WriteAllBytes | stream.go:243-300 | the chunks of a write are, in order, the bytes it accepted, each within the data cap; it stops early only if closed, aborted or a window is exhausted |
| Sender.WriteAllFull | stream.go:243-300 | every chunk of a write is a full one, but for the last of its bytes |
| Ledger.CumulativeCoversAll | retransmit.go:283-307 | sweeping only from where the last sweep ended removes every frame below an accepted watermark, and no other |
| Ledger.SweepListRemoves | retransmit.go:255-272 | a selective acknowledgement removes exactly the listed frames |
| Ledger.SweepRangeConserves | retransmit.go:291-304 | the bytes a sweep credits are exactly those leaving the unacknowledged total |
| Ledger.SweepListConserves | retransmit.go:258-270 | the same for a list, with repeated or unknown numbers in it |
| Rings.Ring.Write | stream.go:1314-1327 | appending to the wrapping ring appends to the byte queue it stands for |
| Rings.Ring.Read | stream.go:1329-1346 | reading takes that queue's first bytes |
| Rings.Ring.Realloc | stream.go:1304-1312 | reallocation changes no content |
| StreamReaders.StreamReader.GrowLocked | stream.go:1109-1133 | growth doubles within the ceiling, keeps the content and grants the difference |
| StreamReaders.StreamReader.MaybeGrowLocked | stream.go:1135-1154 | the ramp step, likewise, at the times the clock allows it |
| StreamReaders.StreamReader.MaybeEOFLocked | stream.go:740-745 | end of file is set exactly when the FIN is reached and no error is set |
| StreamReaders.StreamReader.FecGroupOf | stream.go:795-802 | the column formula gives base and index of the group by counting |
| StreamReaders.StreamReader.FecRowOf | stream.go:804-807 | the row formula likewise |
| StreamReaders.StreamReader.FecFoldRecvLocked | stream.go:812-826 | folding a delivered frame into the accumulators is `Receiver.FoldRecv` |
| StreamReaders.StreamReader.DrainReorderLocked | stream.go:749-770 | draining the reorder map is `Receiver.Drain` |
| StreamReaders.StreamReader.DeliverLocked | stream.go:547-639 | the method, with its mutual recursion through the parities, is `Receiver.Deliver` |
| StreamReaders.StreamReader.FecRetrySeqLocked | stream.go:644-651 | retrying both groups of a frame is `Receiver.RetrySeq` |
| StreamReaders.StreamReader.FecRetryBaseLocked | stream.go:885-906 | claiming, trying and possibly putting back a parity is `Receiver.RetryBase` |
| StreamReaders.StreamReader.TryReconstructLocked | stream.go:1000-1070 | scanning, solving and injecting is `Receiver.TryReconstruct` |
| StreamReaders.StreamReader.ApplyFecLocked | stream.go:942-998 | parity arrival, validation, buffering and eviction included, is `Receiver.ApplyFec` |
| StreamReaders.StreamReader.Read | stream.go:202-236 | Read returns the first buffered bytes and grants them back in quarters of the ring; with none buffered it returns the sticky error, or waits |
| StreamReaders.StreamReader.TakeAckSnapshot | stream.go:1263-1290 | the snapshot is `Receiver.AckSnapshot`: watermark, new and replayed frames beyond it, FIN, credit |
| StreamReaders.StreamReader.FireNackLocked | stream.go:1234-1252 | the NACK list is `Receiver.NackList` |
| StreamReaders.StreamReader.CancelReadLocked | stream.go:478-490 | cancelling drops what is buffered and keeps an earlier error |
| StreamReaders.StreamReader.DeliverResetLocked | stream.go:655-666 | a reset drops what is buffered and ends reading |
| StreamReaders.StreamReader.DeliverCloseLocked | stream.go:685-691 | closing the connection ends reading with its own error unless one is set, and keeps what is buffered |
| StreamWriters.FecLane.Fold | stream.go:340-357 | XORing in place over a zero-padded buffer is the padded XOR of data and lengths |
| StreamWriters.FecLane.Emit | stream.go:360-367 | emission hands over the group's parity and clears exactly the used part of the buffer |
| StreamWriters.StreamWriter.FecFoldLocked | stream.go:324-336 | folding into both dimensions is `Sender.FecFold` |
| StreamWriters.StreamWriter.Write | stream.go:243-300 | the write loop, up to where it would block, is `Sender.WriteAll` |
| StreamWriters.StreamWriter.CloseWriteLocked | stream.go:422-441 | closing is `Sender.CloseWrite` |
| StreamWriters.StreamWriter.AbortWriteLocked | stream.go:451-473 | aborting is `Sender.AbortWrite` |
| StreamWriters.StreamWriter.SetMaxSendOffset | stream.go:374-381 | a watermark only rises |
| StreamWriters.StreamWriter.CreditAcked | stream.go:402-410 | acknowledged bytes are credited once, and nothing else of the writer changes but its share of the queue |
| Arenas.StoreTakes | retransmit.go:96-108 | taking a buffer removes exactly one from the free list, or creates buffers, and writes no other |
| Arenas.PutAllFrees | retransmit.go:333-340 | returning a list frees each pooled buffer as often as it is listed, and no oversized one |
| Arenas.RetransmitArena.GrowPool | retransmit.go:83-89 | growth adds 128 fresh slots |
| Arenas.RetransmitArena.Take | retransmit.go:96-108 | get: the last free slot, or an allocation of its own when over the slot size |
| Arenas.RetransmitArena.GiveBack | retransmit.go:111-116 | put: only buffers of the slot size return to the pool |
| Retransmit.RetransmitQueue.PushTail | retransmit.go:161-170 | the linked list gains the entry at its end, well linked both ways |
| Retransmit.RetransmitQueue.Unlink | retransmit.go:173-185 | the linked list loses exactly that entry, well linked both ways |
| Retransmit.RetransmitQueue.GetEntry | retransmit.go:150-158 | an entry from the pool or a new one, never one in the list |
| Retransmit.RetransmitQueue.RemoveLocked | retransmit.go:191-197 | map, list and pool stay consistent; the buffer goes to the end of pendingFree |
| Retransmit.RetransmitQueue.Add | retransmit.go:204-221 | the frame is copied to an arena buffer and appended, in map and list alike |
| Retransmit.RetransmitQueue.AckOne | retransmit.go:236-243 | one acknowledged frame, if outstanding, is removed |
| Retransmit.RetransmitQueue.AckMany | retransmit.go:255-272 | the loop is `Outstanding.AckList`: frames removed, bytes freed, sample |
| Retransmit.RetransmitQueue.AckCumulative | retransmit.go:283-307 | the loop is `Outstanding.AckBelow`, and ackedThrough advances only if the watermark is accepted |
| Retransmit.RetransmitQueue.PurgeStream | retransmit.go:311-320 | all of the stream's entries are removed, in some order, and its watermark forgotten |
| Retransmit.RetransmitQueue.DrainPendingFree | retransmit.go:333-340 | every waiting buffer is recycled |
| Retransmit.RetransmitQueue.DrainPendingFreeFirst | retransmit.go:356-366 | the first n, or all if fewer wait |
| Retransmit.RetransmitQueue.RequestForResend | retransmit.go:380-393 | a frame is flagged if outstanding, not flagged and not too recent |
| Retransmit.RetransmitQueue.PeekForResend | retransmit.go:400-408 | a request is live iff its frame is outstanding and flagged; then type and length are the entry's |
| Retransmit.RetransmitQueue.TakeForResend | retransmit.go:416-436 | a flagged frame moves to the tail, unflagged, restamped, counted, and is copied out |
| Retransmit.RetransmitQueue.ReleaseResendCopy | retransmit.go:441-445 | the copy returns to the pool |
| Retransmit.RetransmitQueue.DueScan | retransmit.go:462-478 | the walk from the head is `Outstanding.Due` |
| Outstanding.DueSound | retransmit.go:462-478 | the scan asks for no frame younger than rto, none already flagged, none twice |
| Outstanding.DueComplete | retransmit.go:462-478 | with clock samples at most d older than their pushes, it asks for every unflagged frame of age rto + d or more |
| Outstanding.DueExact | retransmit.go:462-478 | with exact samples the early exit returns what a scan of the whole list would |
| Outstanding.RemovePending | retransmit.go:191-197 | a removal is one from its own stream's ledger and changes no other stream's |
| Outstanding.AckListMatches | retransmit.go:255-272 | a selective ACK frees in the shared queue what the stream's own ledger says, and nothing of other streams |
| Outstanding.AckBelowMatches | retransmit.go:283-307 | the same for a cumulative ACK |
| Outstanding.PurgePending | retransmit.go:311-320 | a purge in any order leaves the stream nothing and every other stream what it had |
| Outstanding.AckListSampled | retransmit.go:255-272 | Karn's rule: a sample is the age of a removed frame that was never resent, the least such age when clocks separate sends from the ACK |
| Outstanding.AckRangeSampled | retransmit.go:291-304 | the same for the cumulative sweep |
| AckPath.AckMatchesStream | connection.go:1640-1665 | an ACK changes the shared queue, the watermark and the stream's credit exactly as the per-stream sender of the end-to-end model, and touches no other stream |
| AckPath.AckSampleIsKarn | connection.go:1647-1654 | the sample of a whole ACK, if any, is the age, at the clock reading of one of its two sweeps, of a frame it removed that was sent only once, and the least such age when clocks separate sends from the ACK |
| AckPath.FreshIsTimed | retransmit.go:255-272 | a frame added and acknowledged gives its age as a sample and frees its payload |
| AckPath.ResentIsNotTimed | retransmit.go:255-272 | a frame that was resent in between gives none |
| AckPath.Sweep | connection.go:1640-1654 | both sweeps in order, the new watermark, the smaller of the two samples, the sum of the freed bytes |
| AckPath.HandleAck | connection.go:1640-1665 | for a known stream the writer is credited as in the end-to-end model and its share stays what the queue holds; other streams' shares and watermarks are unchanged |
| OutboxProofs.RunOk | connection.go:949-1037 | the invariant of the sending half holds after every schedule |
| OutboxProofs.BuffersPartitioned | retransmit.go:96-116 | at every moment each buffer has at most one owner, and a pooled one exactly one: an entry, pendingFree, the free list or the worker |
| OutboxProofs.KernelReadsTheFrame | connection.go:847-868 | in every run, memory referenced for a frame that was not removed between being stored and queued, by a stored frame, a batch under construction or one possibly still in flight, is not free, not the worker's, and holds the payload its frame was sent with; for sendmmsg and for the two-set io_uring flip |
| OutboxProofs.RemovalBeforeQueueing | connection.go:625-639 | any removal of a frame that is stored, outstanding and not yet queued has a continuation in which a batch references free memory: one flush with sendmmsg, two with io_uring |
| OutboxProofs.RaceIsReachable | connection.go:625-639 | and a concrete run from the start does that in both modes |
| OutboxProofs.ResendsAreFaithful | retransmit.go:416-445 | entries and worker copies always hold the original payload |
| OutboxProofs.ShareStep | retransmit.go:191-221 | in every reachable state every step changes each stream's share of the queue as its own ledger would: sending adds the frame with its payload, removal removes it, and nothing else, resending included, touches it |
| OutboxProofs.OneRequestPerFrame | retransmit.go:380-393 | an outstanding frame is flagged iff exactly one request for it is waiting or in the worker's hands; no key is requested twice |
| OutboxProofs.DroppedIsGone | connection.go:1084-1097 | revalidation drops a request only if its frame is no longer outstanding |
| OutboxProofs.NeverResentOnceAcked | retransmit.go:255-307 | once removed, a frame is never outstanding again, in any continuation |
| OutboxProofs.TimerMissesNothing | retransmit.go:462-478 | in every run the timer asks only for overdue frames and misses none overdue by more than the clock skew |
| ResendWorker.ResendQueue.Enqueue | connection.go:1044-1055 | requests join the end of the FIFO |
| ResendWorker.ResendQueue.Pop | connection.go:1057-1077 | the head index and its compaction implement a FIFO: the oldest request, and the others unchanged |
| ResendWorker.HandleNack | connection.go:1674-1691 | the loop flags and enqueues exactly the requests that may be made, in list order |
| ResendWorker.ServeRequest | connection.go:1090-1107 | one request: revalidate, send once or twice, release the copy |
| ResendWorker.ServiceResends | connection.go:1084-1114 | the queue is drained in order, each request served against the state the previous ones left |
| ResendWorker.ServeOneSends | connection.go:1094-1105 | what goes out for a live request is the entry's own payload, once for its first resend and twice for every later one, and nothing if the frame is gone |
| ResendWorker.TakenLast | retransmit.go:416-436 | a resend restamps, counts and unflags its own frame, moves it to the end of the list, and changes no other |
| ResendWorker.VolleyExact | connection.go:1674-1691 | a NACK volley asks for exactly the listed frames that are outstanding, have no request waiting and were not sent within the minimum age, each once |
| ResendWorker.JustResent | retransmit.go:380-393 | so no volley within the minimum age after a resend asks for the frame again |
| ResendWorker.ServeIsSchedule | connection.go:1084-1114 | serving a request is a schedule of the outbox machine, so its theorems apply |
| ResendWorker.NackIsSchedule | connection.go:1674-1691 | so is a NACK volley |
| Rto.EstimateBounded | connection.go:1891-1916 | over every sample history with usable samples in [lo, hi]: srtt stays in [lo, hi], 0 <= rttvar <= max(hi/2, hi - lo), floor <= RTO <= max(floor, hi + 4 max(hi/2, hi - lo)); the first-sample branch is taken once |
| Rto.FirstSample | connection.go:1891-1898 | the first usable sample becomes the mean, half of it the variation, so that the timeout is three round trips, up to rounding, or the floor |
| Rto.UpdateDamps | connection.go:1899-1912 | every later sample moves the mean an eighth, and the variation a quarter, of the way, truncated; the timeout is the larger of the floor and mean plus four variations |
| Rto.SteadyPath | connection.go:1891-1912 | on a path of constant round trip the mean is that round trip, and what the variation has above 3 ns falls by at least a quarter per sample |
| Rto.Estimator.UpdateRTO | connection.go:1891-1916 | the update with Go's truncating division; non-positive samples are ignored |
| Framing.NumBig | frame.go:93-98 | big-endian numbers read back as written, for any width |
| Framing.BigNum | frame.go:171-181 | and any bytes are the encoding of the number they read as |
| Framing.DecodeEncode | frame.go:102-107 | an encoded frame decodes to itself, whatever follows it |
| Framing.EncodeDecode | frame.go:184-198 | whatever decodes is the encoding of its result |
| Framing.ParseConcat | connection.go:1293-1305 | frames sent back to back and coalesced are dispatched, each and in order |
| Framing.ParseSound | connection.go:1293-1305 | of arbitrary bytes only frames that are there are dispatched, and the loop stops only where no frame starts |
| Framing.HandleDatagram | connection.go:1293-1305 | the loop terminates, stays in bounds, and dispatches exactly that |
| Framing.DecodeFrame | frame.go:171-198 | decoding, with both error cases; the payload lies within the buffer |
| Framing.EncodeHeader | frame.go:93-98 | thirteen bytes are written in place, the rest of the buffer unchanged |
| Framing.EncodeFrame | frame.go:102-107 | header and payload are written in place |
| SeqLists.DecodeListPayload | frame.go:123-168 | a sequence list decodes to itself, trailing bytes ignored |
| SeqLists.PayloadOfDecoded | frame.go:146-168 | and what decodes is the encoding of its result |
| SeqLists.EncodeSeqListFrame | frame.go:123-133 | the in-place encoder writes that frame and nothing else |
| SeqLists.DecodeSeqListFrame | frame.go:146-168 | the decoding loop, with both error cases |
| SeqLists.SplitJoins | frame.go:64-80 | joined again, the chunks are the list in order |
| SeqLists.SplitSizes | frame.go:64-80 | they are not empty, fit a frame, and all but the last are full |
| SeqLists.MaxSeqsFits | frame.go:54-59 | a list fits a frame's payload if and only if it has at most the computed number of entries |
| SeqLists.VolleyRoundTrip | frame.go:64-80 | a list of any length, sent in frames of at most maxPayload, is read back whole |
| SeqLists.ForEachChunk | frame.go:57-80 | the loop visits those chunks until a visit fails, succeeds iff none does, and is refused exactly if not even one number fits |
| SeqLists.AckLists | connection.go:1408-1422 | an ACK sends those chunks, and one frame even for an empty list |
| SeqLists.MetaRoundTrip | connection.go:649-659 | member count and length XOR survive packing into one metadata word |
| WireLink.ParitySurvivesWire | connection.go:1559-1568 | in every run they fit their sixteen bits, so every parity is read back exactly |
| WireLink.AckChunksModelled | connection.go:1408-1422 | the ACK frames of a split list are among those the end-to-end model sends |
| Pacing.Cost | pacer.go:35-49 | the least cost that covers the size, the size with overhead and the minimum; negative settings count as zero |
| Pacing.RefillCredit | pacer.go:183-201 | a refill never creates credit and never exceeds a full bucket |
| Pacing.AttemptFloor | pacer.go:230-246 | a grant leaves the bucket no deeper in debt than one burst, or than one indivisible batch exceeds it |
| Pacing.GrantedWhenEarned | pacer.go:230-253 | a batch short of tokens is granted exactly when its deficit has been earned |
| Pacing.GrantedIff | pacer.go:224-246 | an ordinary batch of at most a burst is granted iff the balance covers it, a critical one of at most two bursts iff the charge leaves at most one burst of debt, a larger one iff the bucket is full; the balance is what was left and what has been earned since |
| Pacing.RefillLosesLittle | pacer.go:183-201 | a visit that earns no whole token leaves the clock alone, and any other credits more than half of what the time was worth unless it fills the bucket |
| Pacing.OrdinaryFloor | pacer.go:224-246 | after any run of ordinary batches of at most burst - 1 + C the debt is at most C - 1 |
| Pacing.CriticalIsNotDelayed | pacer.go:203-246 | so after any such run a critical batch of at most burst - (C - 1) is granted at its first visit |
| Pacing.WindowBound | pacer.go:183-246 | in any window of length t, after any history, at most burst + rate t + max(burst, C - 1) bytes are granted when no batch exceeds burst - 1 + C |
| Pacing.WirePacer.constructor | pacer.go:103-128 | a full bucket; without a configured burst it holds two milliseconds of rate, and at least one byte |
| Pacing.WirePacer.RefillLocked | pacer.go:183-201 | the method is `Pacing.Refill` |
| Pacing.WirePacer.WaitBatch | pacer.go:208-257 | the retry loop, yielding in rounds in which another class has precedence, charges a batch once, when granted, and not at all if it gives up |
| Batching.ApplyKeeps | connection.go:797-923 | every call keeps segments well formed, counters exact and batches of one class, and keeps all frames in order |
| Batching.RunKeeps | connection.go:576-617 | over every run each flushed batch is of one class, charged with the sum of its frames' costs and at most burst - 1 + C; flushed then pending frames are the queued ones in order |
| Batching.FlushedForCause | connection.go:797-868 | what queueing a frame flushes has the most messages that fit, has reached the burst, or makes way for a frame of another class |
| Batching.PackTogether | connection.go:877-923 | full-size bulk frames in a row, up to the segmentation limit and short of the burst, travel in one message |
| Batching.CutExact | connection.go:877-937 | cutting a packed message at the segment size gives back exactly the frames packed |
| SendBatches.SendBatch.AccountDatagram | connection.go:576-591 | the counters of `Batching.Account` |
| SendBatches.SendBatch.ClosePackLocked | connection.go:928-937 | the open message joins the closed ones |
| SendBatches.SendBatch.FlushSendLocked | connection.go:949-987 | the whole batch is handed over with its charge, and the counters reset |
| SendBatches.SendBatch.AcquireSendSlot | connection.go:797-814 | a batch of another class, or a full one, is flushed first |
| SendBatches.SendBatch.CommitSendSlot | connection.go:820-868 | the frame is added and charged; a batch at its size or burst limit is flushed |
| SendBatches.SendBatch.QueueFrame | connection.go:784-835 | a frame of its own message: acquire, then commit |
| SendBatches.SendBatch.QueueFrameGSOLocked | connection.go:877-923 | the frame is packed behind the open message, which is closed when full, when the frame is short, or at the burst |
| PacedSending.BatchBounded | connection.go:608-617 | no batch that reaches the pacer exceeds burst - 1 + C |
| PacedSending.AggregateRate | pacer.go:208-249 | any number of connections, their flushes interleaved and retried in any way, are granted at most burst + rate t + max(burst, C - 1) in any window of length t |
| PacedSending.FramesSurvive | connection.go:877-937 | queued frames, packed, cut by the kernel and coalesced in order, are dispatched as the frames queued |
| PacedSending.WriteFrameHdr | connection.go:563-570 | header and metadata prefix, written apart from the payload, form with it the encoded frame |

## Left out

Assumptions, each needed by the code:

- Sequence numbers, offsets and counters do not wrap: they are unbounded in the protocol model. The wire format is modelled with its 32-bit fields.
- Both ends have the same configuration, including the initial window, and the data cap is below 2^16.
- A send failure ends writing on the stream: the paths on which sending, flushing or a system call fails are not modelled.
- A key is added to the retransmit queue once.
- A packed message's headers fit its slot: the number of packed frames times the header length does not exceed the datagram size.
- The pacer's floating-point conversion of elapsed time is exact and rounds down.
- The clock is read under the pacer's lock and does not run backwards.

Not modelled:

- Socket set-up, addresses, handshakes, keep-alive, statistics, option setters, and the system calls behind sendmmsg, recvmmsg and io_uring: submission and waiting for a generation are abstract steps that succeed.
- Blocking: a write that would wait stops instead, and can be resumed; condition variables, deadlines and wake-ups are absent.
- Time in the reader: whether the ramp may grow the ring at an arrival is a parameter, and so is the moment a NACK fires; the grace periods (connection.go:1959-1973) are not modelled.
- Liveness: window updates are unreliable and re-advertised only when frames arrive, so `Progress` proves that a good continuation always exists, not that every fair one is good.
- Accumulators, buffered parities and out-of-order payloads are values in maps; the pooling and zero-padding of their buffers is modelled only for the sender's lanes.
- Arena buffers are indices into a memory held as a sequence, not slices of one backing allocation.
- The 64-bit map key of the retransmit queue is a pair of stream and sequence number.
- Several streams share the retransmit queue, the batches and the pacer, but the end-to-end machine has one direction of one stream; stream tables, tombstones and removal are absent.
- Precedence among waiters of the pacer is best-effort in the code: which rounds a batch yields is a parameter.
- CatchUp.CatchUpIff: while a parity is waiting for two frames only the impossibility is stated; receiving one of the two brings the other at once, so the receiver may be unable to stop at either.
- Retransmit.RetransmitQueue.PurgeStream: the order in which a Go map is walked is left open, as a returned list.
- Retransmit.RetransmitQueue.Add: requires a key that is not outstanding; the code would replace the map's entry and leave the old one in the list, but numbers each frame of a stream afresh.
- StreamWriters.StreamWriter.Write: stops where the code would wait, and leaves out deadlines and send failures.
- ResendWorker.ServiceResends: leaves out requests that arrive while the queue is drained, and failures to queue a copy; requests arriving at any moment are covered by the machine of `Outbox`.
