# Verified models of KeeMash

KeeMash connects ESP32 nodes to a root over a mesh. This project models the parts of it whose
correctness depends on many steps agreeing with each other, and proves what those parts are for:

* **The reliable end-to-end protocol** (`keemash_mesh_core.c`): per-channel sequence numbers that wrap
  at 32 bits, cumulative acknowledgements with a 32-bit bitmap, retransmission, a shared reorder buffer, a
  table of lost ranges that merge, fragmentation, and slot admission with CONTROL reserves. Two endpoints
  and a network that loses, duplicates and reorders are modelled as steps; runs of steps keep an invariant,
  and the guarantees follow from it.
* **Over-the-air updates, version 3** (`keemash_ota_v3*.c`, `rust/keemash-keelink/src/ota.rs`): a
  streaming validator and a whole-buffer verifier that must agree, a builder, resumption from a checkpoint,
  a crash-safe two-slot journal, and the receiver that decides when a slot may be booted.
* **Three smaller cores**: the weekly scheduler, the transmit broker, and the node's ring of executed
  commands.

`dafny verify dfyconfig.toml` checks the whole project. Every lemma switches Dafny's automatic induction off, so
each induction is written out.

## How it is laid out

Code that changes state in place is written twice. A function says what an operation makes of a state, and
a method of a class does it the way the code does, with its loops and assignments on arrays and fields; the
method's contract equates the two. Everything else is proved about the functions.

| files | subject |
|---|---|
| `Base`, `Serial`, `Slots` | shared types; sequence numbers on the circle of 32-bit words; tables of slots |
| `MeshTypes`, `PendingLost`, `Reliable`, `Handlers` | the protocol's state and operations |
| `MeshContext` | the same operations on arrays, as a class |
| `MeshInvariant`, `MeshFrame`, `MeshReceive`, `MeshConsume`, `MeshHandlers`, `MeshSend`, `MeshViews`, `MeshHandlerFrame` | the invariant, and why each operation keeps it |
| `MeshSystem`, `MeshGuarantees`, `TxAdmission`, `MeshExample` | runs of two endpoints, what they guarantee, and one such run |
| `MeshReorder`, `MeshPacket`, `MeshGap`, `MeshTight`, `MeshArrival` | exactly what one DATA packet does; that no buffered fragment waits for nothing; what arrives in an epoch |
| `MeshAcks`, `MeshSubmit`, `MeshLoss`, `MeshClear` | exactly what acknowledgements, submissions, loss reports and clearings do |
| `MeshAccount`, `MeshOutcome` | what becomes of each message |
| `Crc16`, `Rto` | packet validity; the timeout estimator |
| `OtaTypes`, `OtaFields`, `OtaArtifact`, `OtaStream`, `OtaValidator` | artifacts, their fields, the host's builder and verifier, the device's validator |
| `OtaEquivalence`, `OtaPackage`, `OtaResume` | streaming against batch; whole packages; checkpoints |
| `OtaJournal`, `OtaReceiver`, `OtaBootSafety`, `OtaFlashReceiver` | the journal, the receiver as functions and in place, runs with restarts |
| `OtaHost`, `OtaPrepare`, `OtaMessages`, `OtaConversation` | exactly what is built and accepted, what is prepared, and what each message does; whole conversations |
| `OtaTransfer`, `OtaInterrupted`, `OtaAbort`, `OtaInstance` | transfers that succeed, interrupted or not; aborts; primitives that meet every law |
| `WeeklyCalendar`, `WeeklyRun`, `WeeklyScheduler` | the calendar, passes of the task, the object |
| `WeeklyTick` | exactly which applications one pass makes, retries among them, and what it leaves |
| `WeeklyOnce`, `WeeklyExact`, `WeeklyZones` | at most once a day; on exactly which calendars; time zones |
| `TxBroker`, `CommandRing` | the broker and the command ring |

## Assumptions

**Sequence numbers.** A number is its 32-bit word together with a ghost tag, the number it would be if it
never wrapped. Compiled code cannot look at the tag. All claims about a channel are for one epoch, from a
fresh binding of both ends to the next clearing of either, and while the channel's live numbers lie within
2^31 of the next number to send, as section 3.2 of RFC 1982 asks. `MeshSystem` states this as a guard on
submitting (`InWindow`) and on how old an arriving packet may be (`Fresh`).

**The mesh.** Packets that pass authentication and belong to the present binding are the ones modelled; the
binding stands for addresses and sessions. Other peers share the slot tables and may do anything there with
their own slots. Timers are left open: any slot may be retransmitted or expire at any time. Deliveries,
events and transmitted packets are logs the application does not answer from within. The TIME channel,
where a newer message replaces older ones, is modelled but excluded from the guarantees.

**Updates.** SHA-256, CRC-32, DEFLATE (RFC 1951), P-256 signatures and protobuf are the functions of
`OtaTypes.Prims`, with the laws a theorem needs written in its `requires`: hashes are 32 bytes; inflating a
prefix of a good stream gives a prefix of its result; decoding an empty message gives version 0; on what a
builder makes, encoders and decoders are inverse. `OtaInstance` has primitives that meet all of these together,
and an image that boots with them. A hash context is the bytes it was fed, so equality of hashes is never taken for
equality of contents. The default build is modelled: without the experimental delta codec on the device, and with
checkpoints every 65536 bytes. Blob reads are reliable; blob writes may succeed, take effect and still report failure, have no
effect, or leave a record that does not read. A slot is the bytes written to it in order. A step of the
receiver is atomic; a restart between two steps, with each write of the last one having any outcome, stands
for a restart inside it.

**The scheduler.** Local time is a function of the epoch, and its days do not go back. Results about once a day are
for clocks that never step back, or for clocks that may step back within the local day; each says which.

## Where the code's promises have exceptions

* A torn journal write over generation 2^32-1 destroys the latest record, because the next generation, 1,
  has the same parity: `OtaJournal.TornKeepsLatest` says exactly when, and `OtaJournal.TornAtTheEnd` gives
  such a journal. Results that need the journal hold while fewer generations are used up.
* A checkpoint resumes exactly when some encoded payload is left after it
  (`OtaResume.CheckpointAccepted`). That is always so in an artifact that verifies
  (`OtaInterrupted.VerifiedLeavesPayload`); with signed fields whose payload ends before the last block, the device
  takes a checkpoint it cannot resume (`OtaInstance.NoPayloadLeft`).
* A stored schedule loads as it was exactly when every action is below 128, since bit 7 of the stored byte
  is the enabled flag (`WeeklyScheduler.StoreThenLoad`). The scheduler itself accepts actions up to 255.
* A receiver that has restarted and holds no transfer cannot abort the one in its journal:
  `keemash_ota_v3_flash_receiver_abort` goes on to a function that refuses an idle receiver. An abort succeeds
  exactly for a live transfer of the same operation whose tombstone is written (`OtaAbort.AbortExactly`), and after
  a restart never (`OtaAbort.RestartedCannotAbort`). The checkpoint then stands, and keeps every other request from
  being prepared, whatever is called (`OtaAbort.CheckpointStands`), until its own request is prepared again; a run
  can be rid of it exactly when its signed fields still verify and it can still be resumed from its partition
  (`OtaAbort.CheckpointLeavesExactly`).
* A catch-up that marks a point as run before the crossed minutes are run can hide an earlier success, and the point
  succeeds twice on one day. `WeeklyOnce.Hides` says of which calendars that is true: a whole minute b, an earlier
  instant at the same minute of the same day, and a later one, within two minutes of b, at the same minute of a later
  day. With the catch-up on, the scheduler keeps to once a day exactly on the calendars without such instants
  (`WeeklyExact.AtMostOnceExactly`); with it off, on all. `WeeklyZones.DateLineRunsTwice` gives a calendar that has
  them, a device carried over the date line; time zones whose offset never changes by more than 23 hours within two
  minutes have none (`WeeklyZones.ModestChanges`).
* The rollback inside `keemash_rel_submit` is unreachable, by `Handlers.AvailableForetellsAlloc`; the
  method `MeshContext.RelContext.FillSlots` therefore has no such branch.

## Model

| member | source | states |
|---|---|---|
| `Serial.BeforeExact` | keemash_mesh_core.c:139-147 | the signed difference of two words orders them as their unwrapped numbers, within half a turn |
| `Serial.InRangeExact` | keemash_mesh_core.c:149-152 | membership in a circular range is membership in the interval of unwrapped numbers |
| `PendingLost.AddIsUnion` | keemash_mesh_core.c:666-732 | adding a lost range is exact set union, or changes nothing; ranges stay disjoint, non-adjacent and in the window |
| `PendingLost.HullExact` | keemash_mesh_core.c:692-713 | the circular hull of two touching ranges covers no extra number |
| `PendingLost.JoinExact` | keemash_mesh_core.c:692-722 | absorbing every touching range unites their numbers and leaves the rest apart |
| `PendingLost.AddTakesExactly` | keemash_mesh_core.c:666-732 | a lost range is taken if and only if it touches a pending one or a slot of the table is free |
| `Reliable.Deliver` | keemash_mesh_core.c:624-664 | handing a fragment on keeps the tables well formed and terminates, with fewer buffered slots and pending ranges to go |
| `Reliable.Drop` | keemash_mesh_core.c:765-803 | a dropped range: the mutual recursion with consuming and delivering terminates |
| `Reliable.Consume` | keemash_mesh_core.c:734-763 | consuming in order: the mutual recursion terminates by buffered slots plus pending ranges |
| `Reliable.DropStaysBehind` | keemash_mesh_core.c:641-648 | a drop that delivery starts covers the expected number or lies behind it, so it neither adds a pending range nor clears the peer |
| `Handlers.AvailableForetellsAlloc` | keemash_mesh_core.c:472-517 | room reported for n fragments lets an allocation succeed and leaves room for n-1 |
| `MeshReceive.StoreKeeps` | keemash_mesh_core.c:567-664 | reassembly keeps each partial message a prefix-exact part of one submitted message |
| `MeshReceive.CompletedMessage` | keemash_mesh_core.c:650-663 | a completed slot's parts are the submitted message, byte for byte |
| `MeshConsume.DropBehindKeeps` | keemash_mesh_core.c:765-803 | a dropped range behind or at the expected number keeps the invariant |
| `MeshConsume.DropAheadKeeps` | keemash_mesh_core.c:779-801 | a dropped range ahead is recorded, or forces a jump, and keeps the invariant |
| `MeshConsume.ConsumeKeeps` | keemash_mesh_core.c:734-763 | consuming buffered fragments and pending ranges keeps the invariant |
| `MeshHandlers.SackTruthful` | keemash_mesh_core.c:554-565 | every bit of the bitmap stands for a number buffered at that moment |
| `MeshHandlers.HandleDataKeeps` | keemash_mesh_core.c:1185-1263 | a data packet, new, old, repeated or refused, keeps the invariant |
| `MeshReorder.RxAllocExactly` | keemash_mesh_core.c:545-552 | a slot is found if and only if the peer owns fewer rx slots than it may and one is free |
| `MeshReorder.FindReExactly` | keemash_mesh_core.c:567-603 | a fragment has a slot if and only if its message has one, which it then is, or none of its stream and there is room to open one |
| `MeshReorder.SackExact` | keemash_mesh_core.c:554-565 | the bitmap has exactly the numbers buffered among the 32 from the expected one on |
| `MeshReorder.ConsumeShrinks` | keemash_mesh_core.c:734-763 | consuming stops only where the expected number is not buffered, and brings no buffered number or lost range up |
| `MeshPacket.AheadIsBuffered` | keemash_mesh_core.c:1244-1262 | a number 1..31 ahead and not held is buffered, in a free slot, if and only if there is room; then nothing is lost, everything else stays, and a NACK asks for the expected number |
| `MeshPacket.AheadIsDropped` | keemash_mesh_core.c:1244-1251 | without room it is reported lost to both ends and counts as dealt with; the epoch ends if and only if the table of lost ranges is full |
| `MeshPacket.PurgeExactly` | keemash_mesh_core.c:769-788 | a dropped range frees exactly the buffered fragments and the partial messages with a number in it |
| `MeshPacket.NothingNew` | keemash_mesh_core.c:1232-1262 | a number dealt with, held, or 32 and more ahead changes nothing and is answered, by a NACK when it is ahead |
| `MeshPacket.RefusedExactly` | keemash_mesh_core.c:1189-1216 | which malformed, foreign or misplaced packets are refused, with which error, and that they change nothing but the route flag |
| `MeshPacket.LatestOvertakes` | keemash_mesh_core.c:1214-1240 | a newer TIME message is handed up at once, what it overtakes is discarded, and the answer acknowledges it |
| `MeshPacket.LatestTooOld` | keemash_mesh_core.c:1232-1234 | an older one is only answered |
| `MeshGap.GapFilled` | keemash_mesh_core.c:1235-1240 | the expected number arrives before a buffered run: the whole run is passed on in order, none of it is reported lost, and the answer acknowledges it |
| `MeshGap.GapHandsUp` | keemash_mesh_core.c:1235-1240 | a message the run completes, nothing of it reported lost, is handed up then |
| `MeshGap.ConsumeRun` | keemash_mesh_core.c:734-763 | consuming passes on exactly the buffered run, each fragment into its own message |
| `MeshTight.RunTight` | keemash_mesh_core.c:989-1450 | in every state of an epoch no buffered fragment or lost range is due already, and no number is buffered twice |
| `MeshTight.WaitsForLeast` | keemash_mesh_core.c:734-763 | in every state of an epoch the receiver waits for the least number it neither passed on, buffered nor knows lost |
| `MeshArrival.AheadArrives` | keemash_mesh_core.c:1335-1381 | in every state of an epoch: a number 1..31 ahead that arrives is held, and a NACK asks for the one waited for, if and only if there is room; else it is reported lost |
| `MeshArrival.GapArrives` | keemash_mesh_core.c:1335-1381 | in every state of an epoch: the number waited for arrives, and the run held behind it is passed on, none of it lost |
| `MeshArrival.AckArrives` | keemash_mesh_core.c:1335-1381 | in every state of an epoch: an acknowledgement that arrives frees exactly what it covers, and its NACK is answered by the fragment or a loss report |
| `MeshArrival.ReceiverLossArrives` | keemash_mesh_core.c:1335-1381 | in every state of an epoch: a receiver's loss report frees exactly the slots of its numbers |
| `MeshArrival.SenderLossArrives` | keemash_mesh_core.c:1335-1381 | in every state of an epoch: a sender's report of numbers ahead marks exactly those as dealt with; one of numbers behind marks none |
| `MeshHandlers.HandleSenderLossKeeps` | keemash_mesh_core.c:1293-1333 | a sender's loss report keeps the invariant |
| `MeshLoss.LossAhead` | keemash_mesh_core.c:1323-1329 | a report of numbers ahead: they count as dealt with when the table takes them, else the epoch ends |
| `MeshLoss.LossJump` | keemash_mesh_core.c:1319-1322 | a report that covers the expected number: the receiver goes on behind it, with the run buffered there, and loses nothing more |
| `MeshLoss.LossBehind` | keemash_mesh_core.c:1331-1333 | a report of numbers it is past is passed on, and that is all |
| `MeshLoss.LossRefused` | keemash_mesh_core.c:1296-1304 | a report of another binding, to a peer not ready, or for no channel, changes nothing |
| `MeshHandlers.ExpireKeeps` | keemash_mesh_core.c:1432-1450 | giving up a stale partial message reports it lost and keeps the invariant |
| `MeshClear.ExpireExactly` | keemash_mesh_core.c:1432-1450 | exactly the numbers of the stale message are reported, to both ends, and only its slot is freed |
| `MeshSend.AcceptedIsSettled` | keemash_mesh_core.c:870-891 | a slot freed by an acknowledgement held a number the receiver has settled |
| `MeshAcks.AckExactly` | keemash_mesh_core.c:1265-1291 | an acknowledgement frees exactly the slots it covers; a NACKed number still held is sent again, one no longer held is reported lost, and nothing else happens |
| `MeshAcks.AckFreesExactly` | keemash_mesh_core.c:870-891 | slots freed are those of the channel whose numbers are acknowledged or in the bitmap, no others |
| `MeshAcks.AckRefused` | keemash_mesh_core.c:1269-1277 | which acknowledgements are refused, and that they change nothing |
| `MeshAcks.AckIsNear` | keemash_mesh_core.c:1265-1291 | in an epoch every acknowledgement that arrives is within half a turn of the numbers it is compared with |
| `MeshAcks.RetransmitExactly` | keemash_mesh_core.c:893-908 | a retransmission sends the slot's own fragment and changes only its counters |
| `MeshAcks.SupersedeExactly` | keemash_mesh_core.c:1506-1522 | superseding frees exactly the peer's slots of the channel |
| `MeshSend.AckSlotsKeeps` | keemash_mesh_core.c:870-891 | freeing the acknowledged slots loses no number |
| `MeshSend.HandleAckKeeps` | keemash_mesh_core.c:1265-1291 | an acknowledgement, however old, with its fast retransmission or own loss, keeps the invariant |
| `MeshSend.HandleReceiverLossKeeps` | keemash_mesh_core.c:1293-1333 | a receiver's loss report frees only numbers it reported |
| `MeshAcks.ReceiverLossExactly` | keemash_mesh_core.c:1306-1318 | a receiver's report frees exactly the slots of the numbers it reports, and is passed on |
| `MeshSend.SubmitKeeps` | keemash_mesh_core.c:989-1093 | a submission is taken whole or not at all, and keeps the invariant |
| `MeshSubmit.SubmitExactly` | keemash_mesh_core.c:989-1093 | a legal message is taken whole, in slots and on its way, if and only if there is room for all its fragments; else its numbers are skipped and reported lost to both ends; which errors leave everything as it was |
| `MeshSubmit.RoomExactly` | keemash_mesh_core.c:497-517 | room for n is enough free slots beyond the reserves and enough of the peer's own share |
| `MeshSubmit.AllocExactly` | keemash_mesh_core.c:472-495 | a slot is handed out if and only if there is room for one fragment, and it is the first free one |
| `MeshSubmit.FillPlaces` | keemash_mesh_core.c:1019-1071 | the fragments, in order, fill distinct free slots and no others |
| `MeshSystem.NextInv` | keemash_mesh_core.c:989-1450 | every step of either endpoint keeps the invariant of both directions on every channel but TIME |
| `MeshSystem.RunInv` | keemash_mesh_core.c:989-1450 | the invariant holds in every state of an epoch |
| `MeshGuarantees.NoNumberVanishes` | keemash_mesh_core.c:554-565 | each number issued is in a tx slot, buffered, below the expected number, or reported lost by one end |
| `MeshGuarantees.AcknowledgementsStayTrue` | keemash_mesh_core.c:805-821 | any acknowledgement still in the network is true of the receiver's present state |
| `MeshGuarantees.FragmentsPassInOrder` | keemash_mesh_core.c:734-763 | fragments are passed on in strictly increasing order; each number below the expected one once, or reported lost |
| `MeshGuarantees.DeliveredWhole` | keemash_mesh_core.c:624-664 | each delivery is byte for byte one submitted message of 1..2432 bytes |
| `MeshGuarantees.DeliveredInOrderOnce` | keemash_mesh_core.c:624-664 | deliveries are in submission order and no submission is delivered twice |
| `MeshGuarantees.ClearLosesNothing` | keemash_mesh_core.c:367-430 | clearing either end still leaves each number delivered on, held by the other end, or reported lost |
| `MeshClear.ClearReports` | keemash_mesh_core.c:367-430 | a clearing reports exactly the span of numbers in tx slots and the numbers buffered or in a message begun |
| `MeshClear.ClearLeaves` | keemash_mesh_core.c:367-430 | it leaves nothing of the peer, fresh counters, and what other peers have |
| `MeshClear.ExhaustExactly` | keemash_mesh_core.c:1403-1424 | a slot out of retries: the other end is told its number, then the same clearing |
| `MeshAccount.StorePasses` | keemash_mesh_core.c:605-664 | a fragment put in its slot takes its message on by one, and hands it up with the last one |
| `MeshAccount.DropProgress` | keemash_mesh_core.c:765-803 | a drop frees only slots of which it reports a number |
| `MeshAccount.DeliverProgress` | keemash_mesh_core.c:624-664 | delivering a fragment keeps the account of every message |
| `MeshAccount.ConsumeProgress` | keemash_mesh_core.c:734-763 | consuming in order keeps the account of every message |
| `MeshOutcome.HandleSenderLossProgress` | keemash_mesh_core.c:1293-1333 | a jump over reported numbers keeps the account of every message |
| `MeshOutcome.RunAccounts` | keemash_mesh_core.c:989-1450 | the account holds in every state of an epoch, both ways, on every channel but TIME |
| `MeshOutcome.NoMessageVanishes` | keemash_mesh_core.c:567-664 | a message the receiver is past was handed up whole, or a number of it was reported lost; one it is in the middle of is in one slot as far as it has come, or a number of it was reported |
| `MeshExample.ExampleIsEpoch` | keemash_mesh_core.c:989-1291 | a run in which a packet is lost, sent again, delivered and acknowledged is an epoch |
| `TxAdmission.ReservesKept` | keemash_mesh_core.c:472-517 | every step keeps the global and the per-peer CONTROL reserve |
| `TxAdmission.ReservesInEveryState` | keemash_mesh_core.c:472-517 | both reserves hold at both ends in every state of an epoch |
| `MeshContext.RelContext.PendingLostAdd` | keemash_mesh_core.c:666-732 | the loops over the range table compute the exact union of `PendingLost.Add` |
| `MeshContext.RelContext.FindReassembly` | keemash_mesh_core.c:567-603 | finds the message's slot or opens a free one |
| `MeshContext.RelContext.DeliverFragment` | keemash_mesh_core.c:624-664 | in place, the delivery of `Reliable.Deliver` |
| `MeshContext.RelContext.ConsumeContiguous` | keemash_mesh_core.c:734-763 | in place, the consuming loop of `Reliable.Consume` |
| `MeshContext.RelContext.DropRange` | keemash_mesh_core.c:765-803 | in place, the drop of `Reliable.Drop` |
| `MeshContext.RelContext.ClearPeerBuffers` | keemash_mesh_core.c:367-430 | in place, the reports and the clearing of `Reliable.ClearPeer` |
| `MeshContext.RelContext.SackBitmap` | keemash_mesh_core.c:554-565 | the bitmap of the numbers after the acknowledged one that are buffered |
| `MeshContext.RelContext.SendAckPacket` | keemash_mesh_core.c:805-821 | sends the acknowledgement of the present state |
| `MeshContext.RelContext.FreeAcked` | keemash_mesh_core.c:870-891 | frees exactly the acknowledged slots |
| `MeshContext.RelContext.RetransmitSlot` | keemash_mesh_core.c:893-908 | sends the slot's fragment again and counts it |
| `MeshContext.RelContext.AvailableTx` | keemash_mesh_core.c:497-517 | counts what may be allocated at a priority |
| `MeshContext.RelContext.AllocTx` | keemash_mesh_core.c:472-495 | the first free slot the limits allow, or none |
| `MeshContext.RelContext.SubmitMessage` | keemash_mesh_core.c:989-1093 | in place, the submission of `Handlers.Submit`, errors included |
| `MeshContext.RelContext.HandleDataPacket` | keemash_mesh_core.c:1185-1263 | in place, the data handling of `Handlers.HandleData` |
| `MeshContext.RelContext.HandleAckPacket` | keemash_mesh_core.c:1265-1291 | in place, the acknowledgement handling of `Handlers.HandleAck` |
| `MeshContext.RelContext.HandleLostPacket` | keemash_mesh_core.c:1293-1333 | in place, the loss handling of `Handlers.HandleLost` |
| `MeshContext.RelContext.ReceivePacket` | keemash_mesh_core.c:1335-1381 | dispatches by packet type |
| `MeshContext.RelContext.ExpireSlot` | keemash_mesh_core.c:1432-1450 | reports a stale partial message lost and frees its slot |
| `MeshContext.RelContext.ExhaustSlot` | keemash_mesh_core.c:1403-1424 | a slot out of retries clears the peer |
| `MeshContext.RelContext.SupersedeChannel` | keemash_mesh_core.c:1506-1522 | frees the channel's queued messages for a newer one |
| `Crc16.OneByteErrorRejected` | keemash_mesh_core.c:188-227 | any packet that differs from a valid one of its length in exactly one byte is refused |
| `Crc16.BitStepInjective` | keemash_mesh_core.c:188-198 | one bit of the CRC is a bijection of 16-bit states |
| `Crc16.RemainderExactly` | keemash_mesh_core.c:188-198 | the checksum is the one remainder of dividing the bytes times x^16, the start value added to their first 16 bits, by x^16 + x^12 + x^5 + 1 |
| `Crc16.ValidExactly` | keemash_mesh_core.c:208-227 | a packet is valid if and only if magic, version and length are right and its checksum field is that remainder |
| `Crc16.Crc16Update` | keemash_mesh_core.c:188-198 | the bit loop computes the CRC step over all bytes |
| `Crc16.PacketCrc` | keemash_mesh_core.c:200-206 | the CRC over the header, its own field as zero, and the payload |
| `Crc16.PacketValid` | keemash_mesh_core.c:208-227 | accepts exactly the packets with right magic, version, length and CRC |
| `Rto.UpdateExact` | keemash_mesh_core.c:852-868 | no 32-bit sum or product wraps; srtt, rttvar and the timeout srtt + 4 rttvar, or the bound it violates, over the integers; a sample of 0 or above 60000 is ignored |
| `Rto.EstimateBounded` | keemash_mesh_core.c:852-891 | over any samples: srtt within the samples and never back to 0, rttvar at most 60000, rto within its bounds |
| `Rto.Estimator.UpdateRto` | keemash_mesh_core.c:852-868 | in place, the update in wrapping arithmetic |
| `OtaArtifact.BuildThenVerify` | rust/keemash-keelink/src/ota.rs:219-323 | whatever is built, full or delta, verifies with the matching base to exactly its image, with at most 1024 blocks |
| `OtaArtifact.BuiltVerifies` | rust/keemash-keelink/src/ota.rs:246-271 | from any block on, the verifier takes what the builder wrote |
| `OtaHost.BuildExactly` | rust/keemash-keelink/src/ota.rs:219-323 | an artifact is built if and only if the request is legal and every block is the base's own or deflates to something that fits |
| `OtaHost.PackageBuilt` | rust/keemash-keelink/src/ota.rs:219-323 | what is built is that package: the signed manifest of those fields and descriptors, then the encodings |
| `OtaHost.VerifyExactly` | rust/keemash-keelink/src/ota.rs:366-496 | an artifact is accepted with an image if and only if its fields are sound and its blocks, one after the other, decode to that image |
| `OtaArtifact.AcceptedArtifact` | rust/keemash-keelink/src/ota.rs:366-496 | an accepted artifact is signed, hashes to its signed hash, and its 1..1024 blocks tile image and payload |
| `OtaArtifact.AcceptedBlocksTile` | rust/keemash-keelink/src/ota.rs:431-486 | accepted blocks leave no gap or overlap in image or payload |
| `OtaArtifact.ParseAssembled` | rust/keemash-keelink/src/ota.rs:325-364 | parsing an assembled artifact gives its manifest, fields and payload back |
| `OtaArtifact.LeRoundTrip` | rust/keemash-keelink/src/ota.rs:315-316 | header words survive their little-endian form |
| `OtaArtifact.BlockTableChain` | rust/keemash-keelink/src/ota.rs:126-136 | the loop computes the fold of the descriptors |
| `OtaArtifact.BuildArtifact` | rust/keemash-keelink/src/ota.rs:219-323 | the loop over chunks computes `Build`, errors included |
| `OtaArtifact.VerifyArtifact` | rust/keemash-keelink/src/ota.rs:366-496 | the checks in order compute `Verify`, errors included |
| `OtaArtifact.VerifyBlockLoop` | rust/keemash-keelink/src/ota.rs:431-489 | filling a preallocated image block by block gives the image of `VerifyBlocks` |
| `OtaEquivalence.StreamEqualsBatch` | keemash_ota_v3_stream.c:152-296 | in any cutting into chunks with any immediate repeats, the stream finishes with output X exactly when the batch verifier accepts image X |
| `OtaEquivalence.TailAccept` | keemash_ota_v3_stream.c:214-296 | from any block boundary in step with the batch verifier, both accept the rest or neither |
| `OtaEquivalence.BlockRun` | keemash_ota_v3_stream.c:166-272 | a block is taken exactly when its descriptor checks and its bytes inflate and hash as described |
| `OtaEquivalence.RepeatsAreIdle` | keemash_ota_v3_stream.c:230-238 | repeating the latest chunk changes nothing |
| `OtaEquivalence.StrayBlock` | keemash_ota_v3_stream.c:230-246 | a block out of turn is refused or ignored |
| `OtaEquivalence.NextIndexLag` | keemash_ota_v3_stream.c:193-212 | each block moves the stream on by at most one block |
| `OtaEquivalence.SameChecks` | keemash_ota_v3.c:279-336 | the chained descriptor check and the batch block check agree, but for what is checked early on the last block |
| `OtaStream.FeedAllJoin` | keemash_ota_v3_stream.c:214-272 | feeding one script and then another is feeding both |
| `OtaStream.FeedRefused` | keemash_ota_v3_stream.c:214-272 | an empty, oversized or late chunk changes nothing; any other that is refused fails the stream for good; what the flash did not take is not counted as put out |
| `OtaValidator.Validator.Begin` | keemash_ota_v3_stream.c:34-66 | starts only full-deflate fields with 16 KiB blocks, else leaves the object alone |
| `OtaValidator.Validator.ResumeAt` | keemash_ota_v3_stream.c:68-122 | reading the prefix back in pieces, resumes exactly at a valid point whose prefix hashes right |
| `OtaValidator.Validator.Checkpoint` | keemash_ota_v3_stream.c:124-150 | gives the resume point at allowed boundaries only |
| `OtaValidator.Validator.Start` | keemash_ota_v3_stream.c:166-191 | starts the block the chained check admits |
| `OtaValidator.Validator.InflateChunk` | keemash_ota_v3_inflate.c:27-74 | puts out what the chunk adds to the block, within its size |
| `OtaValidator.Validator.EndBlock` | keemash_ota_v3_stream.c:193-212 | moves on only when both hashes match |
| `OtaValidator.Validator.Feed` | keemash_ota_v3_stream.c:214-272 | in place, the feed of `OtaStream.Feed`, every refusal included |
| `OtaValidator.Validator.Finish` | keemash_ota_v3_stream.c:274-296 | in place, the finish of `OtaStream.Finish` |
| `OtaFields.VerifySignedExactly` | keemash_ota_v3.c:84-170 | fields are accepted exactly when a whole signature verifies over bytes that decode to sound fields, and those come out |
| `OtaFields.UnsignedIsUnread` | keemash_ota_v3.c:96-103 | bytes whose signature does not verify are refused without regard to what they decode to |
| `OtaPackage.DeviceAgreesWithHost` | keemash_ota_v3_package.c:306-381 | the device accepts a package exactly when the host does and it fits the device; both see the same fields and image |
| `OtaPackage.AcceptedCount` | keemash_ota_v3.c:136-139 | a verified artifact has as many blocks as its size divided by the block size, rounded up |
| `OtaPackage.SameManifest` | keemash_ota_v3_package.c:328-372 | with the manifest decoded, device and host accept alike |
| `OtaPackage.SameHeader` | keemash_ota_v3_package.c:181-198 | device and host read the same manifest and payload, within 64 KiB |
| `OtaPackage.HeaderExactly` | keemash_ota_v3_package.c:181-198 | a header is accepted exactly when the package is magic, length, checksum, manifest of that length and checksum, and a rest, within the sizes |
| `OtaPackage.ValidateBlock` | keemash_ota_v3_package.c:72-112 | the 2048-byte loop drives the validator through one block |
| `OtaPackage.VerifyStoredPackage` | keemash_ota_v3_package.c:306-381 | the loops compute `VerifyPackage` |
| `OtaResume.FeedKeeps` | keemash_ota_v3_stream.c:214-272 | any feed keeps image = prefix + output and the offsets in step with the blocks |
| `OtaResume.FinishedImage` | keemash_ota_v3_stream.c:274-296 | after any feeds on a begun or resumed stream, a finish means prefix and output hash to the signed image hash |
| `OtaResume.CheckpointAccepted` | keemash_ota_v3_stream.c:124-150 | every checkpoint passes the journal's checks, and resumes if and only if encoded payload is left |
| `OtaResume.ResumeRefines` | keemash_ota_v3_stream.c:68-122 | if the uninterrupted run finishes, so does the resumed one, over any cutting, with the same slot bytes |
| `OtaResume.InterruptedTransfer` | keemash_ota_v3_flash_receiver.c:260-288 | the same from the first byte: interruption at any allowed boundary of a finishing transfer |
| `OtaResume.TwinsFinish` | keemash_ota_v3_stream.c:214-296 | two streams at one place finish alike, whatever their chunks |
| `OtaJournal.WriteIsAtomic` | keemash_ota_v3_checkpoint.c:137-171 | a write leaves its record or what was there, for every outcome and generation; the invariant is kept |
| `OtaJournal.BlankOk` | keemash_ota_v3_checkpoint.c:82-109 | an empty journal satisfies the invariant and loads nothing |
| `OtaJournal.OnlyPlausible` | keemash_ota_v3_checkpoint.c:44-80 | whatever the slots hold, only checkpoints with a phase, fields, a partition and offsets in range are loaded; exactly such ones are saved |
| `OtaJournal.TornKeepsLatest` | keemash_ota_v3_checkpoint.c:154-167 | a torn write keeps the latest record if and only if its generation is below 2^32-1 |
| `OtaJournal.TornAtTheEnd` | keemash_ota_v3_checkpoint.c:39-42 | at the last generation a torn tombstone brings an older checkpoint back |
| `OtaJournal.JournalIsRegister` | keemash_ota_v3_checkpoint.c:82-171 | after any saves and clears, loading gives the last that took effect |
| `OtaJournal.TombstoneHolds` | keemash_ota_v3_checkpoint.c:210-213 | after a clear, no checkpoint is seen until a save takes effect |
| `OtaJournal.ShortRunsAreGuarded` | keemash_ota_v3_checkpoint.c:154-155 | with fewer writes than generations, no write is torn over the last one |
| `OtaJournal.Journal.LatestRecord` | keemash_ota_v3_checkpoint.c:95-109 | the newer valid record of the two slots |
| `OtaJournal.Journal.LoadCheckpoint` | keemash_ota_v3_checkpoint.c:111-135 | the latest record's checkpoint, none for a tombstone |
| `OtaJournal.Journal.Store` | keemash_ota_v3_checkpoint.c:137-171 | writes the next generation to the slot of its parity |
| `OtaJournal.Journal.SaveCheckpoint` | keemash_ota_v3_checkpoint.c:173-208 | refuses what would not read back, else writes it |
| `OtaJournal.Journal.ClearCheckpoint` | keemash_ota_v3_checkpoint.c:210-213 | writes a tombstone |
| `OtaBootSafety.BootSelectionSafe` | keemash_ota_v3_flash_receiver.c:314-330 | in any run with aborts, storage failures and restarts: whenever the boot partition is set, it holds the whole signed image and the journal is boot-pending for that operation |
| `OtaBootSafety.ActKeeps` | keemash_ota_v3_flash_receiver.c:124-503 | every call keeps: a verified or boot-pending journal tells the truth about its slot |
| `OtaBootSafety.PrepareKeeps` | keemash_ota_v3_flash_receiver.c:124-258 | preparing, afresh, resumed or after a restart, keeps it |
| `OtaPrepare.TargetExactly` | keemash_ota_v3.c:172-186 | fields are for this device if and only if project and chip are its own, image and required slot fit its slot, and its core and fabric versions are at least the minimum ones |
| `OtaPrepare.PrepareExactly` | keemash_ota_v3_flash_receiver.c:124-258 | an idle receiver becomes live if and only if the fields are signed and for this device, the preflight passed, and the journal is blank or holds this very request to go on with; and with what it is then live |
| `OtaPrepare.PrepareLive` | keemash_ota_v3_flash_receiver.c:140-148 | a live receiver accepts only its own request again, and nothing changes |
| `OtaPrepare.ResumedExactly` | keemash_ota_v3_stream.c:68-122 | a point is resumed if and only if it is a block boundary with payload left whose prefix is still in flash |
| `OtaPrepare.BootsOnlyForTarget` | keemash_ota_v3_flash_receiver.c:124-330 | in any run with restarts, whatever is selected to boot is safe to boot and was prepared for this device |
| `OtaBootSafety.WriteKeeps` | keemash_ota_v3_flash_receiver.c:260-288 | writing keeps it: the slot is what the validator hashed |
| `OtaBootSafety.VerifyKeeps` | keemash_ota_v3_flash_receiver.c:290-312 | verifying keeps it, even when the journal cannot be written |
| `OtaBootSafety.ActivateKeeps` | keemash_ota_v3_flash_receiver.c:314-330 | activating sets the boot partition only in a safe state, and reports success only when it did |
| `OtaBootSafety.AbortKeeps` | keemash_ota_v3_flash_receiver.c:332-367 | an abort, of whatever operation and outcome, keeps it |
| `OtaMessages.PrepareMessage` | keemash_ota_v3_flash_receiver.c:424-444 | which prepare messages are looked at; those are prepared as they say |
| `OtaMessages.DataMessage` | keemash_ota_v3_flash_receiver.c:445-456 | a data message is taken if and only if the validator takes it and the checkpoint that falls due is saved; then the slot gained what the validator put out, else the transfer is given up |
| `OtaMessages.CommitMessage` | keemash_ota_v3_flash_receiver.c:457-478 | a commit is answered Ok if and only if the receiver is then verified for that operation, its partition holds the signed image and the journal says verified |
| `OtaMessages.AbortMessage` | keemash_ota_v3_flash_receiver.c:479-489 | an abort message ends the live transfer of that operation and no other |
| `OtaMessages.QueryMessage` | keemash_ota_v3_flash_receiver.c:490-499 | a query is answered Ok if and only if that transfer is live or in the journal, and changes nothing |
| `OtaMessages.OtherMessage` | keemash_ota_v3_flash_receiver.c:500-502 | any other message is not supported and changes nothing |
| `OtaMessages.ActivateExactly` | keemash_ota_v3_flash_receiver.c:314-330 | activation succeeds if and only if the transfer is verified, the preflight passes, and the journal and the boot selection take it; a selection that fails is taken back |
| `OtaMessages.NeverOverdue` | keemash_ota_v3_flash_receiver.c:260-288 | in any run, whenever a transfer is under way every checkpoint that fell due was saved |
| `OtaAbort.AbortExactly` | keemash_ota_v3_flash_receiver.c:332-367 | an abort succeeds if and only if the receiver is live with that operation and the tombstone is written; then it is idle, else it has what it had |
| `OtaAbort.AbortForgets` | keemash_ota_v3_flash_receiver.c:358-367 | after a successful abort nothing loads; after a failed one nothing or what was there |
| `OtaAbort.RestartedCannotAbort` | keemash_ota_v3_flash_receiver.c:342-361 | after a restart, aborting the journal's own operation is refused and changes nothing |
| `OtaAbort.PrepareRefused` | keemash_ota_v3_flash_receiver.c:165-199 | while a checkpoint stands and the receiver is idle, preparing any other request is refused and changes nothing |
| `OtaAbort.CheckpointStands` | keemash_ota_v3_flash_receiver.c:124-503 | over any run of calls and restarts that does not prepare its own request, the checkpoint stands and the receiver stays idle |
| `OtaAbort.PrepareResumes` | keemash_ota_v3_flash_receiver.c:165-258 | its own request is prepared again when its fields verify and it can be resumed from its partition |
| `OtaAbort.CheckpointLeavesExactly` | keemash_ota_v3_flash_receiver.c:124-503 | some run of calls is rid of the checkpoint if and only if its fields verify and it can be resumed from its partition |
| `OtaBootSafety.BlankDeviceOk` | keemash_ota_v3_flash_receiver.c:107-113 | a new device satisfies the invariant |
| `OtaTransfer.BuiltImageBoots` | rust/keemash-keelink/src/ota.rs:219-323 | from building to booting: a built full artifact that fits, sent in any cutting with any repeats over working storage, is booted with exactly its image |
| `OtaConversation.BuiltImageBootsByMessage` | keemash_ota_v3_flash_receiver.c:412-503 | the same by messages alone: prepare, data in any cutting with any repeats, commit; all are answered Ok, and activation boots exactly the image |
| `OtaConversation.ConversationBoots` | keemash_ota_v3_flash_receiver.c:412-503 | whenever the validator takes the chunks and finishes, the conversation succeeds and boots what it put out |
| `OtaTransfer.BuiltContents` | keemash_ota_v3.c:84-170 | what the host builds passes the device's checks of its fields, and its contents verify to the image |
| `OtaTransfer.TransferBoots` | keemash_ota_v3_flash_receiver.c:124-330 | when the validator takes the chunks and finishes, prepare, write, verify and activate succeed and boot what it put out |
| `OtaTransfer.WriteIsFeed` | keemash_ota_v3_flash_receiver.c:260-288 | a chunk the validator takes is written, and every checkpoint that falls due is saved |
| `OtaTransfer.DriveIsFeedAll` | keemash_ota_v3_package.c:72-112 | driving blocks one by one is feeding their chunks as one script |
| `OtaInterrupted.Sent` | keemash_ota_v3_flash_receiver.c:260-288 | after any number of chunks, repeats among them, the journal has the checkpoint of a block the transfer passed, and the slot its bytes |
| `OtaInterrupted.PreparedAgain` | keemash_ota_v3_flash_receiver.c:165-258 | after a restart that leaves the slot anything past its last checkpoint, the same request goes on from there |
| `OtaInterrupted.ResumptionsBoot` | keemash_ota_v3_flash_receiver.c:124-330 | a transfer under way, interrupted any number of times, boots its image |
| `OtaInterrupted.BuiltImageBootsInterrupted` | rust/keemash-keelink/src/ota.rs:219-323 | from building to booting with any number of restarts after any numbers of chunks: exactly the image that was built is booted |
| `OtaInterrupted.VerifiedLeavesPayload` | keemash_ota_v3_stream.c:68-122 | in an artifact that verifies, encoded payload is left at the end of every block but the last |
| `OtaInstance.OneImageBoots` | rust/keemash-keelink/src/ota.rs:219-323 | with primitives that meet every law, an image is built, accepted, sent and booted |
| `OtaInstance.NoPayloadLeft` | keemash_ota_v3_stream.c:124-150 | fields the device accepts, and blocks it takes, after which its checkpoint cannot be resumed from any flash |
| `OtaFlashReceiver.FlashReceiver.Prepare` | keemash_ota_v3_flash_receiver.c:124-258 | in place, every branch of preparing |
| `OtaFlashReceiver.FlashReceiver.Write` | keemash_ota_v3_flash_receiver.c:260-288 | in place, feeding, writing to flash and checkpointing |
| `OtaFlashReceiver.FlashReceiver.VerifyTransfer` | keemash_ota_v3_flash_receiver.c:290-312 | in place, finishing and the verified record |
| `OtaFlashReceiver.FlashReceiver.Activate` | keemash_ota_v3_flash_receiver.c:314-330 | in place, the boot-pending record, then the boot partition, or the verified record again |
| `OtaFlashReceiver.FlashReceiver.AbortCurrent` | keemash_ota_v3_flash_receiver.c:358-367 | in place, the tombstone first, then forgetting |
| `OtaFlashReceiver.FlashReceiver.Abort` | keemash_ota_v3_flash_receiver.c:332-356 | in place, for the same operation only |
| `OtaFlashReceiver.FlashReceiver.HandleTransfer` | keemash_ota_v3_flash_receiver.c:412-503 | in place, the dispatch of the five messages and their checks |
| `WeeklyCalendar.CheckConfig` | keemash_weekly_schedule.c:117-134 | the nested loops accept exactly the valid configurations |
| `WeeklyCalendar.ValidMeansApart` | keemash_weekly_schedule.c:117-134 | a configuration is valid if and only if it has a generation and at most 8 points, each in range, and no two enabled ones ever fall on one minute of the endless calendar |
| `WeeklyCalendar.NextPointIndex` | keemash_weekly_schedule.c:170-195 | the first occurrence after now and its distance of 1..10080 minutes; none only if no point ever occurs |
| `WeeklyCalendar.FirstIsUnique` | keemash_weekly_schedule.c:170-195 | in a valid configuration that point is the only one |
| `WeeklyCalendar.LatestPointIndex` | keemash_weekly_schedule.c:148-168 | the most recent occurrence since midnight six days back, or that there is none |
| `WeeklyCalendar.LastIsUnique` | keemash_weekly_schedule.c:148-168 | in a valid configuration that point is the only one |
| `WeeklyRun.EveryBoundaryOnce` | keemash_weekly_schedule.c:503-511 | over continuous samples the passes visit every whole minute after the first and up to the last, once and in order |
| `WeeklyRun.BoundariesExact` | keemash_weekly_schedule.c:504-505 | one pass's loop visits exactly the whole minutes of its range |
| `WeeklyRun.ReadyIsApplied` | keemash_weekly_schedule.c:379-414 | a point due at a visited minute, not yet run that day and not waiting, is applied |
| `WeeklyRun.OnlyDueApplied` | keemash_weekly_schedule.c:401-414 | whatever a minute applies is due then, on that day |
| `WeeklyTick.PassLog` | keemash_weekly_schedule.c:439-515 | a pass calls the application for the catch-up if one is due, then for the retry if one is due, then only for points due at the minutes it serves |
| `WeeklyTick.DueIsApplied` | keemash_weekly_schedule.c:379-414 | every point due at a minute served is applied, unless it ran that day, waits for that day's retry, or was just caught up |
| `WeeklyTick.RetryIsMade` | keemash_weekly_schedule.c:416-437 | a pending retry whose deadline is reached is made, under its own day, before the minutes' applications |
| `WeeklyTick.RetryWaits` | keemash_weekly_schedule.c:416-437 | before its deadline, for another generation, or when the clock did not go on, it is not made |
| `WeeklyTick.FailureIsRetried` | keemash_weekly_schedule.c:326-437 | a failed scheduled application is made again by the next pass, for its day, exactly when 5000 ms have gone by |
| `WeeklyTick.PassLeaves` | keemash_weekly_schedule.c:326-361 | what a pass leaves: a failure its retry, a success none, and the catch-up due exactly when it was and was not done with |
| `WeeklyTick.IdlePass` | keemash_weekly_schedule.c:453-477 | without the time, or while disabled, nothing is applied |
| `WeeklyTick.DeadlineExactly` | keemash_weekly_schedule.c:309-312 | a deadline is reached in wrapped milliseconds if and only if it is on the true times, less than half a turn apart |
| `WeeklyTick.ContinuousExactly` | keemash_weekly_schedule.c:314-324 | a clock is continuous if and only if it went forward at most 120 s and within 5 s of the monotonic time |
| `WeeklyOnce.AtMostOncePerDay` | keemash_weekly_schedule.c:326-515 | from a commit on, on a calendar that hides nothing or without catch-up, no point is successfully applied on schedule twice on one day, retries included |
| `WeeklyExact.AtMostOnceExactly` | keemash_weekly_schedule.c:439-515 | local days never going back: no run on the calendar does a point twice on one day if and only if the catch-up is off or the calendar hides nothing |
| `WeeklyExact.HidingRunsTwice` | keemash_weekly_schedule.c:481-511 | wherever a calendar hides something, a run of four samples does a point twice on one day |
| `WeeklyExact.PassIsGenuine` | keemash_weekly_schedule.c:474-501 | a pass in which no catch-up is due does the same whatever point it is given, so a run may be taken to be given right ones |
| `WeeklyZones.TogetherIsEnough` | keemash_weekly_schedule.c:439-515 | once a day where a minute stays on its day for two minutes, or, on a clock that never steps back, where no minute of a day comes again |
| `WeeklyZones.ModestChanges` | keemash_weekly_schedule.c:439-515 | once a day in every time zone whose offset never changes by more than 23 hours within two minutes |
| `WeeklyZones.DateLineRunsTwice` | keemash_weekly_schedule.c:481-515 | an hour to the west and then over the date line, half way through a minute, a point succeeds twice on one day |
| `WeeklyZones.SteppingBackMatters` | keemash_weekly_schedule.c:481-515 | over the date line alone: once a day on a clock that never steps back, twice possible on one that does |
| `WeeklyOnce.RunRetryKeeps` | keemash_weekly_schedule.c:416-437 | the retry path, which does not look at the days run, repeats no success |
| `WeeklyOnce.CatchUpKeeps` | keemash_weekly_schedule.c:481-501 | a catch-up, marking its point or not, leaves every success accounted for |
| `WeeklyOnce.TickKeeps` | keemash_weekly_schedule.c:439-515 | one pass keeps the days run, the log and the pending retry in step |
| `WeeklyScheduler.StoreThenLoad` | keemash_weekly_schedule.c:213-254 | a stored configuration loads as it was if and only if every action is below 128 |
| `WeeklyScheduler.ExpiryExactly` | keemash_weekly_schedule.c:299-307 | a stage is open, as it was, if and only if less than the timeout has gone by on the true times |
| `WeeklyScheduler.Scheduler.constructor` | keemash_weekly_schedule.c:274-297 | starts with a valid configuration, whatever is stored |
| `WeeklyScheduler.Scheduler.StageBegin` | keemash_weekly_schedule.c:614-632 | opens an empty stage |
| `WeeklyScheduler.Scheduler.StagePoint` | keemash_weekly_schedule.c:634-655 | stages a point exactly when it is valid and its place in the open, unexpired stage of that generation; else which error, and the stage as it was or expired |
| `WeeklyScheduler.Scheduler.StageCommit` | keemash_weekly_schedule.c:657-695 | commits, all at once, exactly a complete and valid stage of that generation that can be stored; else which error, and nothing committed |
| `WeeklyScheduler.Scheduler.RecordResult` | keemash_weekly_schedule.c:326-361 | in place, what a success or failure leaves |
| `WeeklyScheduler.Scheduler.RunScheduled` | keemash_weekly_schedule.c:379-399 | in place, a due point that has not run that day and is not waiting |
| `WeeklyScheduler.Scheduler.RunMinute` | keemash_weekly_schedule.c:401-414 | in place, the loop over the due points |
| `WeeklyScheduler.Scheduler.RunRetry` | keemash_weekly_schedule.c:416-437 | in place, the pending retry |
| `WeeklyScheduler.Scheduler.RunBoundaries` | keemash_weekly_schedule.c:503-511 | in place, the loop over the crossed minutes |
| `WeeklyScheduler.Scheduler.CatchUp` | keemash_weekly_schedule.c:481-501 | in place, the catch-up of the most recent occurrence |
| `WeeklyScheduler.Scheduler.Tick` | keemash_weekly_schedule.c:439-515 | in place, one pass of the task |
| `TxBroker.PickNext` | keemash_mesh_tx_broker.c:43-55 | the loop finds a waiting slot if there is one; within the span, the oldest ticket of the highest priority |
| `TxBroker.PickedIsNext` | keemash_mesh_tx_broker.c:43-55 | that slot holds one of the queue's jobs; within the span, the next |
| `TxBroker.NextIsUnique` | keemash_mesh_tx_broker.c:43-55 | which job is next is determined by the queue |
| `TxBroker.SpanNeeded` | keemash_mesh_tx_broker.c:49-51 | of two tickets exactly half a turn apart the newer goes first, so the span is needed |
| `TxBroker.MirrorsPick` | keemash_mesh_tx_broker.c:54-54 | taking a slot takes its job, and no other, off the queue |
| `TxBroker.CountersSubmit` | keemash_mesh_tx_broker.c:176-186 | accepting keeps accepted = completed + pending, pending = used slots, and the reserve |
| `TxBroker.CountersComplete` | keemash_mesh_tx_broker.c:74-82 | completing keeps them |
| `TxBroker.JobsPick` | keemash_mesh_tx_broker.c:43-55 | no job is lost or doubled on the way from the queue to the transport |
| `TxBroker.Broker.constructor` | keemash_mesh_tx_broker.c:88-119 | starts empty |
| `TxBroker.Broker.Submit` | keemash_mesh_tx_broker.c:137-192 | refuses exactly for size, space or the reserve; else the packet joins the queue with its bytes |
| `TxBroker.Broker.Pick` | keemash_mesh_tx_broker.c:43-55 | hands out a waiting job, if there is one; within the span, the oldest of the highest priority |
| `TxBroker.Broker.Complete` | keemash_mesh_tx_broker.c:72-83 | the job counts as sent, once, and its slot is free |
| `CommandRing.FoundIsRecent` | keemash_mesh_node.c:226-242 | a slot with the key holds that key's last execution among the last 32 |
| `CommandRing.NotFoundIsNotRecent` | keemash_mesh_node.c:226-242 | no slot with the key means none of the last 32 had it |
| `CommandRing.StoreAdvances` | keemash_mesh_node.c:244-258 | storing moves the window of the last 32 on by one |
| `CommandRing.CursorSlot` | keemash_mesh_node.c:248-249 | the slot is right across wraps of the 8-bit cursor |
| `CommandRing.KeyExact` | keemash_mesh_node.c:226-242 | two commands are one if and only if both have operation ids and these are equal, or neither has one and the command ids are equal |
| `CommandRing.RecentIsRepeat` | keemash_mesh_node.c:226-242 | the lookup finds a command if and only if one of the last 32 executed is the same, with that one's status |
| `CommandRing.Ring.Find` | keemash_mesh_node.c:226-242 | the scan is the lookup in the last 32 executed |
| `CommandRing.Ring.Store` | keemash_mesh_node.c:244-258 | in place, the next command executed |
| `CommandRing.Ring.Clear` | keemash_mesh_node.c:167-171 | forgets everything executed |
| `CommandRing.Ring.Deliver` | keemash_mesh_node.c:309-361 | a command is executed exactly when none of the last 32 executed is the same command; otherwise it is answered with the status of that one |

## Left out

- MeshGuarantees.DeliveredInOrderOnce: says nothing across epochs; how the two ends agree on counters in the handshake is not part of this model.
- MeshGuarantees.NoNumberVanishes: excludes the TIME channel, where newer messages replace older ones by design; what a TIME packet does is `MeshPacket.LatestOvertakes`.
- TxAdmission.ReservesInEveryState: other peers of a context are assumed to keep the global reserve, as each does by the same code.
- OtaBootSafety.BootSelectionSafe: holds while the journal's generations last; at 2^32-1 a torn write can bring an older record back.
- OtaPackage.DeviceAgreesWithHost: two protobuf decoders are taken to read the same bytes alike within the device's buffer sizes.
- WeeklyOnce.AtMostOncePerDay: catch-up applications are not counted.
- WeeklyExact.AtMostOnceExactly: is about calendars whose local days do not go back.
- TxBroker.Broker.Pick: promises the order only while waiting tickets of one priority span less than 2^31, as wrapping tickets require.
- MeshGap.GapFilled: asks for a free reassembly slot, or the slot of its message, before each fragment of the run, and that no two messages of the channel share a 32-bit stream id; without a slot its message is reported lost (`MeshAccount.DeliverProgress`).
- WeeklyTick.FailureIsRetried: is about the next pass; how often passes come, and so when a retry is made at last, is left open.
- Eventual delivery, and timing in general.
- Authentication, sessions and routes of the mesh; delayed and injected faults; statistics, logging and self tests.
- Allocation failures, lock time-outs, task creation and shutdown.
- The delta codec on the device, and the internals of zlib, mbedtls, PSA, nanopb, prost, NVS and the flash driver.
- What a refused feed may already have put out: a failed write leaves arbitrary bytes in the slot instead.
- The text of cached command replies, of which the ring keeps 47 bytes, and what commands do.
- The broker's per-priority counters and last transport error, and the priority read from a packet's header.
- Version 1 and 2 tunnels and receivers, the root and node facades, time, hooks, network policy and the command line.
