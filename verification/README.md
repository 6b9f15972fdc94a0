# xpnet driver: a Dafny model

A model of the logic of the `xpnet` kernel driver: the DMA rings it shares with the switch, the
decoding of its interrupts, its netdev registry and packet steering, and what it allocates and frees.

- **Transmit.** `TxMachine` is the ring and the device as one transition system. A driver step is one
  memory access of the C code and a device step may fall between any two. The ring size `n >= 2`, the
  A0 hardware flag and the word-swapping mode are parameters. `TxChain`/`TxGuarantees` treat the chained
  mode, `TxA0`/`TxA0Guarantees` the A0 mode, `TxReturns`/`TxCalls`/`TxOutcome` what holds of a call in
  both, `TxRecovery` when a queue is dead, `TxRuns` runs that reach what is not ruled out. `TxQueue.Queue` is the imperative
  driver: its `Valid()` says that the object is exactly where the transition system is after the recorded
  trace, so every theorem over runs is a theorem about the object. `Shards` is the split into framed,
  swapped 4 KiB shards and `Transmit` the layers above.
- **Receive.** `RxMachine`, `RxFlow`, `RxGuarantees`, `RxCalls` and `RxQueue`, built the same way.
- **Interrupts and registers.** `Bits`, `BlockFields`, `Irq`, `MgmtIrq`, `RegisterFile`.
- **Control plane.** `Traps`, `Registry`, `RegistryHistory`, `Steering`: objects with their history of messages, proved
  against functions of that history.
- **Memory.** `QueueMemory`: allocation, rollback and teardown of the queues against any pattern of
  allocation failures.

The device is modelled as follows: it works on the descriptor at its pointer, only if it owns it; it
sends or fills the buffer that descriptor names, writes back any flag word without the ownership bit
(on receive also any length word), and moves to the descriptor's next pointer, stopping at a null pointer.

## What does not hold

Where a natural property fails, the code is kept, the failure is shown, and the exact condition proved.

- Without the A0 flag the transmit chain is linear and is never rewound: a published descriptor can be
  sent exactly if it is one of the first `n` (`TxGuarantees.SentIff`), and every ring has a run that
  accepts a packet beyond them (`TxRuns.PacketStranded`).
- Under the A0 flag the chain ends after slot 0: an accepted packet gets through whole exactly if it fits
  one shard (`TxA0Guarantees.SentWholeIff`).
- Under the A0 flag, shard buffers are filled before the per-shard check. A buffer of an owned descriptor
  is overwritten exactly when a second packet of more than one shard comes along
  (`TxA0Guarantees.FillTouchesOwnedBuffer`, `TxRuns.OverwriteHappens`), and at most one such packet is
  ever accepted (`TxA0Guarantees.AtMostOneMultiShardPacket`).
- Completion runs only after a call that is not BUSY, and it breaks off at a descriptor sent with an error.
  Without the A0 flag an outstanding descriptor can still be taken back exactly if the ring is not full,
  the descriptor lies on the chain and it was not sent with an error (`TxRecovery.TakenBackIff`,
  `TxRuns.FullStaysBusy`).
- The reset after a transmit error is an empty function. Under the A0 flag a queue can still accept packets
  exactly if slot 0 is the device's or came back without an error (`TxRecovery.AcceptsIff`), and it may
  come back with one (`TxRecovery.ErrorHappens`).
- The receive loop reads the flag word twice. A completed descriptor at the tail can be handed up exactly
  if its length is acceptable and, should it carry the error word, the driver is between the two reads
  (`RxGuarantees.HandedUpIff`). So an error completion may slip through (`RxGuarantees.ErrorSlipsThrough`),
  only if it landed there (`RxGuarantees.DeliveredIsPrefix`), and not if the skb allocation then fails.
- One receive completion with the error word, an oversize length or, in the swapped mode, no payload
  stops the queue for good (`RxGuarantees.BadCompletionStopsDelivery`, `RxGuarantees.DrainsIffAllGood`).
- The word swap does not end for size 0 (`Shards.SwapTerminates`).
- The field extraction is wrong for a field inside one word from word 256 on (`BlockFields.ExtractionExactIff`).
  No caller gets there: the tables stop at bit 116.
- Queue bits are decoded faithfully only up to the 128th (`MgmtIrq.DecodeFaithfulIff`).
- Transmit set-up does not notice a failed buffer allocation (`QueueMemory.Queues.TxQueueInit`).
- A LAG interface never receives a packet, nor does one whose number has been linked again since
  (`Steering.ReceivesIff`).
- Transmit set-up of more than 64 queues runs past its array exactly if no ring allocation fails
  (`QueueMemory.Queues.Setup`); the one caller asks for 64 (xpnet/src/xp_netdev_core.c:1229). A transmit
  ring is freed with the length of a receive ring (`QueueMemory.RingSizesAgreeIff`).
- Whether a call ends BUSY is a function of the queue it finds (`TxOutcome.CallOutcome`), and BUSY is
  reached (`TxRuns.BusyHappens`). It leaves the caller's buffer unchanged exactly when its headroom was
  too small; otherwise a second offer sends the header twice (`Transmit.Driver.NdoStartXmit`,
  `Transmit.Driver.Retry`, `Transmit.HeaderTwiceHappens`). A packet from the transmit socket leaks exactly
  when the queue refuses it (`Transmit.Driver.PacketSend`).

Where a comment and the code disagree, the model follows the code: `__xpnet_rx_desc_reset` does set the
next pointer (xpnet/src/xp_netdev_core.c:320-331), which its comment denies.

## Model

| member | source | states |
|---|---|---|
| `Ring.WrapIsMod` | xpnet/include/xp_netdev.h:66-69 | the remainder by repeated subtraction used in the proofs is C's `%` |
| `Ring.AddAndWrap` | xpnet/include/xp_netdev.h:66-69 | adding the ring size before taking the remainder changes nothing: the result is idx + incr wrapped |
| `Ring.BusyDesc` | xpnet/include/xp_netdev.h:71-74 | the busy count is the number of slots strictly between head and tail going round |
| `Ring.FreeDesc` | xpnet/include/xp_netdev.h:76-79 | the free count is the number of steps from the tail forward to the head, whose slot stays reserved |
| `Ring.BusyCount` | xpnet/include/xp_netdev.h:71-74 | for head and tail that are remainders of unbounded counters the macro recovers the counters' difference |
| `Ring.WrapInjective` | xpnet/include/xp_netdev.h:66-69 | numbers less than a lap apart share a slot only if equal |
| `Bits.CeilLenIsCeiling` | xpnet/include/xp_netdev.h:56-59 | masking with ~(align - 1) gives the least multiple of a power-of-two alignment that is not below the length |
| `Shards.SwapInvolution` | xpnet/src/xp_netdev_core.c:93-104 | the word swap is its own inverse, touches only the first 4*ceil(size/4) bytes, and puts byte i / 4 * 4 + 3 - i % 4 at i |
| `Shards.SwapTerminates` | xpnet/src/xp_netdev_core.c:93-104 | with its 16-bit counter the swap loop ends if and only if 1 <= size <= 262140 |
| `Shards.EndianSwap32` | xpnet/src/xp_netdev_core.c:93-104 | reports whether the loop with its 16-bit counter ends; if so every word is reversed and the rest of the buffer left alone, or everything left alone when the mode does not swap |
| `Shards.WireOfShard` | xpnet/src/xp_netdev_core.c:839-872 | whatever the buffer held before, undoing the swap on the recorded length gives exactly the bytes of shard k |
| `Shards.FrameCarries` | xpnet/src/xp_netdev_core.c:839-872 | a packet of less than 128 bytes becomes one frame of exactly 128 with SOP and EOP, its bytes and then zeros; any other becomes ceil(len / 4096) frames, frame k carrying bytes 4096 k on, 4096 of them but for the last |
| `Shards.ShardsRoundTrip` | xpnet/src/xp_netdev_core.c:839-872 | collecting the shards from SOP to EOP gives back the packet, padded as above |
| `Shards.DeframeAll` | xpnet/src/xp_netdev_core.c:839-872 | the frames of any sequence of packets collect to those packets, in order, with nothing left over |
| `Shards.DeframePrefix` | xpnet/src/xp_netdev_core.c:839-925 | cut anywhere, the frames collect to a prefix of the packets: none torn, none repeated |
| `TxChain.InitInv` | xpnet/src/xp_netdev_core.c:594-652 | a freshly set-up queue without the A0 flag satisfies the ownership invariant |
| `TxChain.StepInv` | xpnet/src/xp_netdev_core.c:839-1158 | every single driver or device step keeps the ownership invariant without the A0 flag |
| `TxChain.Reachable` | xpnet/src/xp_netdev_core.c:839-1158 | the ownership invariant holds after every run |
| `TxGuarantees.OwnedBetweenHeadAndTail` | xpnet/src/xp_netdev_core.c:979-1158 | between calls, in every run, a device-owned descriptor lies strictly between head and tail, busy is what was published and not taken back, and busy + free = n - 1 |
| `TxGuarantees.DriverLeavesOwnedAlone` | xpnet/src/xp_netdev_core.c:839-1085 | in every run no driver step writes a buffer the device owns, and the only word of an owned descriptor it writes is the EOP mark on the last shard of the packet still being enqueued |
| `TxGuarantees.DriverLeavesInFlightAlone` | xpnet/src/xp_netdev_core.c:839-1085 | no driver step of any run writes a word or a buffer byte of a published descriptor the device has not sent, and the device owns it |
| `TxGuarantees.PublicationOrder` | xpnet/src/xp_netdev_core.c:901-925 | with device steps between any two writes: the first descriptor is not owned while its packet is enqueued; while it is owned every shard has its final address, length, flags and data, SOP on the first only, EOP on the last only |
| `TxGuarantees.WireCarriesAcceptedPackets` | xpnet/src/xp_netdev_core.c:839-1158 | what the device has sent collects to a prefix of the accepted packets, and to all of them once everything published is sent |
| `TxGuarantees.WireBytes` | xpnet/src/xp_netdev_core.c:839-925 | byte by byte: frame k of the j-th accepted packet, at its place on the wire, carries the packet's bytes, a short packet padded to 128 |
| `TxGuarantees.DescriptorWords` | xpnet/src/xp_netdev_core.c:901-925 | a published descriptor's flag word is 16, plus 8 on the first and 4 on the last shard, its length word the number of bytes (128 for a short packet), its address word its own buffer |
| `TxGuarantees.ChainRunsOut` | xpnet/src/xp_netdev_core.c:274-292 | the linear chain bounds every run: at most n descriptors sent, at most 2n - 1 shards accepted, and the device is dead after the n-th |
| `TxGuarantees.SentIff` | xpnet/src/xp_netdev_core.c:274-292 | a published descriptor is sent in some continuation of the run if and only if it is one of the first n |
| `TxCalls.LoopsStep` | xpnet/src/xp_netdev_core.c:979-1158 | every step, for both flags, keeps a packet under way within the free descriptors and the completion loop's bound at the busy count |
| `TxCalls.DeadBranches` | xpnet/src/xp_netdev_core.c:1005-1128 | in every run and for both flags: a packet past the length guard needs no more shards than are free, completion never meets the tail, and the space check meets an owned descriptor exactly under the A0 flag at the shards past the first that an earlier packet has used |
| `TxCalls.CompletionTakesBackReleased` | xpnet/src/xp_netdev_core.c:1102-1163 | for both flags: left alone, completion takes back exactly the leading run of descriptors released without error and ends with the head past them, or reset under the A0 flag |
| `TxCalls.FiftyLooks` | xpnet/src/xp_netdev_core.c:1139-1152 | a descriptor that stays owned is looked at 50 times, and then completion ends with nothing taken back |
| `Descriptors.FlagPositions` | xpnet/src/xp_netdev_core.c:35-38 | the ownership flag is bit 4 of the flag word and the error flag bit 0 |
| `TxOutcome.DeviceSparesStaged` | xpnet/src/xp_netdev_core.c:839-899 | for both flags the device does not reach the descriptors of a packet that is being copied and checked |
| `TxOutcome.CallOutcome` | xpnet/src/xp_netdev_core.c:979-1085 | for both flags and every interleaving a transmit ends as a function of the queue it finds: BUSY if and only if the ring is full or a needed descriptor is owned or in error, and the packet is accepted if and only if neither that nor a guard stops it |
| `TxRuns.BusyHappens` | xpnet/src/xp_netdev_core.c:1005-1035 | for both flags and every ring there is a run after which every packet that fits the ring is refused |
| `TxRuns.FullStaysBusy` | xpnet/src/xp_netdev_core.c:1005-1013 | once the ring is full no later offer of a packet is anything but BUSY and no descriptor is taken back, since completion runs only after OK |
| `TxRecovery.TakenBackIff` | xpnet/src/xp_netdev_core.c:1005-1158 | without the A0 flag, at an idle queue with a descriptor outstanding, some continuation that offers no null packet takes one back if and only if the ring is not full, the oldest lies on the chain and, if already sent, carries no error |
| `TxRecovery.AcceptsIff` | xpnet/src/xp_netdev_core.c:1027-1039 | under the A0 flag, at an idle queue, some continuation accepts another packet if and only if slot 0 is still the device's or came back without an error |
| `TxRecovery.ErrorHappens` | xpnet/src/xp_netdev_core.c:1129-1136 | for both flags and every ring there is a run in which the first descriptor comes back with an error |
| `TxRuns.PacketStranded` | xpnet/src/xp_netdev_core.c:274-292 | for every ring without the A0 flag there is a run that accepts n + 1 packets, the last of which no continuation sends |
| `TxRuns.RefusedThenAccepted` | xpnet/src/xp_netdev_core.c:1027-1066 | under the A0 flag there is a run in which a packet is refused and a second offer is accepted once the device has sent |
| `TxRuns.OverwriteHappens` | xpnet/src/xp_netdev_core.c:1042-1052 | under the A0 flag, for every ring and every two packets of more than one shard, there is a run that overwrites an owned buffer |
| `TxGuarantees.QueueKeepsInvariant` | xpnet/src/xp_netdev_core.c:1168-1198 | the queue object without the A0 flag satisfies the ownership invariant whenever it is valid |
| `TxA0.StepInv` | xpnet/src/xp_netdev_core.c:839-1166 | every single driver or device step keeps the A0 invariant, which says of each slot exactly when the device owns it |
| `TxA0.Reachable` | xpnet/src/xp_netdev_core.c:839-1166 | the A0 invariant holds after every run |
| `TxA0Guarantees.EveryCallStartsFresh` | xpnet/src/xp_netdev_core.c:1160-1198 | in every run each call starts with head n - 1, tail 0 and n - 1 free |
| `TxA0Guarantees.OwnedWordsKept` | xpnet/src/xp_netdev_core.c:874-934 | the only word of an owned descriptor a driver step writes is the EOP mark on the last shard of the packet still being enqueued |
| `TxA0Guarantees.BusyWritesNothing` | xpnet/src/xp_netdev_core.c:874-1060 | for both flags, until a transmit begins to write, and so whenever it ends BUSY, the descriptor words are those the device steps alone would have left |
| `TxA0Guarantees.FillTouchesOwnedBuffer` | xpnet/src/xp_netdev_core.c:1042-1052 | filling reaches a buffer the device owns if and only if this packet and an earlier accepted one need more than one shard |
| `TxA0Guarantees.AtMostOneMultiShardPacket` | xpnet/src/xp_netdev_core.c:874-934 | in every run at most one packet of more than one shard is ever accepted |
| `TxA0Guarantees.WireCarriesFirstShards` | xpnet/src/xp_netdev_core.c:874-934 | the device sends the first shard of each accepted packet, byte by byte, in order and once, all but possibly the last; with one-shard packets only, it sends exactly the accepted packets |
| `TxA0Guarantees.SentWholeIff` | xpnet/src/xp_netdev_core.c:643-646 | all shards of an accepted packet are on the wire, in some continuation of the run, if and only if it has only one |
| `TxA0Guarantees.PublicationOrder` | xpnet/src/xp_netdev_core.c:901-931 | slot 0 is not owned during an enqueue, and while it is owned every shard of the packet is complete |
| `TxA0Guarantees.DescriptorWords` | xpnet/src/xp_netdev_core.c:901-925 | the same words, in numbers, of the last accepted packet while the device owns slot 0 |
| `TxA0Guarantees.QueueKeepsInvariant` | xpnet/src/xp_netdev_core.c:1168-1198 | the queue object under the A0 flag satisfies the A0 invariant whenever it is valid |
| `TxReturns.DriverProgress` | xpnet/src/xp_netdev_core.c:839-1158 | every driver step decreases a bound on the driver steps left in the call |
| `TxReturns.CallReturns` | xpnet/src/xp_netdev_core.c:979-1198 | in every interleaving with the device a call is over once the driver has made that many steps |
| `TxMachine.DeviceSparesUnowned` | xpnet/src/xp_netdev_core.c:1027-1039 | a descriptor found not owned stays as it is, so reads that follow in the same step see the same words |
| `TxQueue.Queue.constructor` | xpnet/src/xp_netdev_core.c:594-652 | a new queue is the initial state of the transition system |
| `TxQueue.Queue.SkbToShards` | xpnet/src/xp_netdev_core.c:839-872 | the copy loop carries out exactly the fill steps, device steps in between, and returns the shard count |
| `TxQueue.PrepareShard` | xpnet/src/xp_netdev_core.c:850-866 | clearing, copying and swapping in place produce the shard buffer and the recorded length, which FrameCarries and WireOfShard give in bytes |
| `TxQueue.Queue.CheckSpace` | xpnet/src/xp_netdev_core.c:880-899 | the first loop succeeds exactly when the transition system's check does, otherwise the call ends BUSY |
| `TxQueue.Queue.WriteDescriptors` | xpnet/src/xp_netdev_core.c:901-917 | the second loop writes words 2, 1, 0 of every shard in order and ends on the last descriptor |
| `TxQueue.Queue.SkbStatEnqueue` | xpnet/src/xp_netdev_core.c:874-934 | the packet joins the accepted ones exactly when the enqueue succeeds |
| `TxQueue.Queue.HandOver` | xpnet/src/xp_netdev_core.c:922-931 | ownership of the first shard is the step that accepts the packet; under the A0 flag the device is then pointed at it |
| `TxQueue.Queue.HardStartXmit` | xpnet/src/xp_netdev_core.c:979-1085 | every path through the guards and the enqueue is a run of the transition system on this packet; its outcome and whether the packet joins the accepted ones are settled by the queue as the call finds it |
| `TxQueue.Queue.ReclaimOne` | xpnet/src/xp_netdev_core.c:1114-1152 | one completion iteration takes back one descriptor or stops the loop |
| `TxQueue.Queue.TxComplete` | xpnet/src/xp_netdev_core.c:1102-1166 | the head moves by the number of descriptors taken back, never more than were busy |
| `TxQueue.Queue.StartXmit` | xpnet/src/xp_netdev_core.c:1184-1197 | transmit and completion together are a run on this packet that ends idle, with that outcome |
| `RxFlow.FlowStep` | xpnet/src/xp_netdev_core.c:715-808 | every step from a flowing queue leaves it flowing or stuck before a completion it cannot hand up |
| `RxFlow.Reachable` | xpnet/src/xp_netdev_core.c:274-808 | after every run the queue is flowing or stuck |
| `RxGuarantees.DeliveredIsPrefix` | xpnet/src/xp_netdev_core.c:715-808 | in every interleaving, with errors and allocation failures, the packets handed up are those of the first completions: in order, none twice, skipped or altered; one with the error word only if it landed between the two reads of the flag word |
| `RxCalls.DeliveredBytes` | xpnet/src/xp_netdev_core.c:763-792 | the j-th packet handed up has the length in bits 16 to 31 of the j-th completion's length word, less 16 in the swapped mode, and byte i of it is byte i of the buffer, in the swapped mode byte i / 4 * 4 + 3 - i % 4 |
| `RxCalls.SizedIff` | xpnet/src/xp_netdev_core.c:763-776 | a reported length is acceptable if and only if it is at most 16384, in the swapped mode from 17 to 16400 |
| `RxCalls.CallHandsUp` | xpnet/src/xp_netdev_core.c:715-808 | one call with skbs to be had and the device at rest hands up exactly the leading good completions, at most maxiter of them, and ends |
| `RxCalls.DeviceCanReceive` | xpnet/src/xp_netdev_core.c:795-803 | whenever the driver is idle and has handed everything up, the device is at the tail and can receive there, however often the chain was used up before |
| `RxCalls.ResetRestores` | xpnet/src/xp_netdev_core.c:324-337 | left alone, a reset leaves the descriptor at the tail with ownership, 16384 bytes, its own buffer and the next slot around the ring, and no other changed |
| `RxGuarantees.HandedUpIff` | xpnet/src/xp_netdev_core.c:734-806 | in every reachable state with the driver at the top of its loop and the descriptor at the tail completed, some continuation hands that packet up if and only if its length is acceptable and it carries the error word only while the driver is between the two reads |
| `RxGuarantees.ErrorSlipsThrough` | xpnet/src/xp_netdev_core.c:735-752 | there is a run, for every ring, in which a completion with the error word lands between the two reads and is handed up |
| `RxGuarantees.ResetHappens` | xpnet/src/xp_netdev_core.c:735-776 | for every ring and every completion with the error word or an oversize length there is a run that resets the descriptor |
| `RxGuarantees.PendingSitsInRing` | xpnet/src/xp_netdev_core.c:715-808 | if all pending completions can be handed up, they sit unchanged and in order in the slots from the tail on, whatever allocations failed |
| `RxGuarantees.RewoundOnlyWhenUsedUp` | xpnet/src/xp_netdev_core.c:795-803 | the pointer is rewound only when the device is off the chain, the tail is 0 and all n descriptors are the device's, word for word as set-up left them |
| `RxGuarantees.BadCompletionStopsDelivery` | xpnet/src/xp_netdev_core.c:735-776 | once a bad completion is met, no continuation of the run delivers anything more |
| `RxGuarantees.DrainsIffAllGood` | xpnet/src/xp_netdev_core.c:715-808 | from an idle driver some run of the driver alone hands up everything written if and only if every pending completion is good |
| `RxGuarantees.QueueDeliversInOrder` | xpnet/src/xp_netdev_core.c:715-808 | the queue object has handed up the payloads of the first completions, in order, error words only of those that landed between the reads |
| `RxQueue.Queue.constructor` | xpnet/src/xp_netdev_core.c:308-318 | linking and enabling gives the initial state of the transition system |
| `RxQueue.Queue.Process` | xpnet/src/xp_netdev_core.c:715-808 | the loop is a run of the transition system that appends at most maxiter packets and ends idle, or in the endless swap |
| `RxQueue.DescLink` | xpnet/src/xp_netdev_core.c:274-292 | descriptor i points to i + 1, the last to the first or to null, and no other word changes |
| `RxQueue.ChangeOwn` | xpnet/src/xp_netdev_core.c:294-306 | every descriptor goes to the device with its low four flags kept and all bits above ownership cleared |
| `RxQueue.EnabledBits` | xpnet/src/xp_netdev_core.c:265-272 | masking and setting the ownership bit leaves 16 plus the flag word modulo 16 |
| `BlockFields.MaskTable` | xpnet/src/xp_pcie_slave.c:229-241 | entry w of the mask table is 2^w - 1 |
| `BlockFields.FieldIsQuotientRemainder` | xpnet/src/xp_pcie_slave.c:548-583 | the extraction is floor(R / 2^start) mod 2^width, straddling two words or not |
| `BlockFields.ExtractionExactIff` | xpnet/src/xp_pcie_slave.c:548-583 | that is so for every register if and only if the field straddles two words or its word number fits the u8 index |
| `BlockFields.IndexTruncates` | xpnet/src/xp_pcie_slave.c:551-562 | otherwise some register makes the code return 0 for a field that is 1 |
| `BlockFields.FieldSetIffBit` | xpnet/src/xp_pcie_slave.c:548-583 | the field is nonzero exactly when a register bit inside it is set |
| `BlockFields.BitOfWord` | xpnet/src/xp_pcie_slave.c:548-583 | bit i of the register is bit i % 32 of word i / 32 |
| `Irq.HighPartition` | xpnet/src/xp_pcie_slave.c:187-209 | the three high-priority tables agree and partition bits 0..116 |
| `Irq.LowPartition` | xpnet/src/xp_pcie_slave.c:211-227 | the three low-priority tables agree and partition bits 0..83 |
| `Irq.HighBlockIs` | xpnet/src/xp_pcie_slave.c:187-209 | which block each of the bits 0..116 belongs to, by number |
| `Irq.LowBlockIs` | xpnet/src/xp_pcie_slave.c:211-227 | which block each of the bits 0..83 belongs to, by number |
| `Irq.BlockOfBit` | xpnet/src/xp_pcie_slave.c:187-227 | every bit of a partition lies in exactly one block |
| `Irq.ActiveExact` | xpnet/src/xp_pcie_slave.c:613-663 | the blocks the scan selects are increasing and are exactly those with a set bit |
| `Irq.IrqHandler` | xpnet/src/xp_pcie_slave.c:613-663 | the queued reports are the active blocks in order, cut at the first failed allocation, which is reported |
| `Irq.MsiHigh` | xpnet/src/xp_pcie_slave.c:770-817 | bit 116 alone selects the management path; otherwise the active high-priority blocks are queued |
| `Irq.MsiLow` | xpnet/src/xp_pcie_slave.c:819-863 | bit 83 alone selects the management path; otherwise what is queued is determined by the three loaded words, whatever the fourth holds |
| `Irq.HighFanOut` | xpnet/src/xp_pcie_slave.c:613-817 | if no allocation failed, block b is reported if and only if one of its bits is set; with room for 35 work items none fails |
| `Irq.LowFanOut` | xpnet/src/xp_pcie_slave.c:613-863 | the same for the low-priority register |
| `Irq.SetBitReported` | xpnet/src/xp_pcie_slave.c:613-817 | if no allocation failed, every set bit up to 116 is reported as its one owning block, the one by number |
| `MgmtIrq.DecodeBijective` | xpnet/src/xp_pcie_slave.c:703-717 | for every start position the decoding of the 128 queue bits is a bijection onto 2 x 64 queues |
| `MgmtIrq.DecodeTable` | xpnet/src/xp_pcie_slave.c:703-717 | the first 64 bits from the start position on are receive queues 0..63, the next 64 transmit queues 0..63 |
| `MgmtIrq.DecodeFaithfulIff` | xpnet/src/xp_pcie_slave.c:703-717 | a bit from the start position on is decoded faithfully if and only if it is one of the 128 |
| `MgmtIrq.ClearBit` | xpnet/src/xp_pcie_slave.c:665-768 | writing one to a set bit of a write-1-to-clear word clears it and no other |
| `MgmtIrq.FindPending` | xpnet/src/xp_pcie_slave.c:677-702 | the nested loops find the lowest pending bit from the start position on, or that there is none |
| `MgmtIrq.SourceRegister.MgmtHandler` | xpnet/src/xp_pcie_slave.c:665-768 | one call reports the lowest pending bit and clears it alone; on allocation failure nothing is reported or cleared |
| `MgmtIrq.SourceRegister.DrainAll` | xpnet/src/xp_pcie_slave.c:665-768 | calls until nothing is reported yield the (type, number) of every pending bit from the start position on, once each in ascending order, and leave none pending |
| `MgmtIrq.SourceRegister.RaiseBit` | xpnet/src/xp_pcie_slave.c:665-768 | a raised bit becomes pending and no other bit of the register changes |
| `MgmtIrq.QueueReportedOnce` | xpnet/src/xp_pcie_slave.c:665-768 | on the device, over every interleaving of interrupts on the 128 queue bits, calls and failures, each queue is reported as often as its bit was raised, less the once it is still pending for |
| `MgmtIrq.RegisterRefinesLine` | xpnet/src/xp_pcie_slave.c:665-768 | on the register such a call is the abstract removal of the least pending bit |
| `MgmtIrq.AscendingLists` | xpnet/src/xp_pcie_slave.c:665-768 | the ascending list of a pending set holds each of its visible bits once, in order, and nothing else |
| `MgmtIrq.Drain` | xpnet/src/xp_pcie_slave.c:665-768 | on the abstract pending set, n calls report the first n bits of that list and leave the rest |
| `MgmtIrq.EveryInterruptReportedOnce` | xpnet/src/xp_pcie_slave.c:665-768 | on the abstract pending set, over every interleaving, a bit is reported as often as it was raised, less the one still pending; any bit from the start position on |
| `RegisterFile.SmallUnitWrite` | xpnet/src/xp_pcie_slave.c:369-415 | the 32-bit read-modify-write for a 1- or 2-byte unit changes that unit alone |
| `RegisterFile.RegRead` | xpnet/src/xp_pcie_slave.c:320-367 | sizes 1, 2, 4 read the little-endian units of the range; any other size is -EINVAL |
| `RegisterFile.UnitBytes` | xpnet/src/xp_pcie_slave.c:320-367 | a unit of 1, 2 or 4 bytes is the little-endian number in them |
| `RegisterFile.UnitAt` | xpnet/src/xp_pcie_slave.c:320-367 | the i-th value read is the unit at address + size * i |
| `RegisterFile.RegWrite` | xpnet/src/xp_pcie_slave.c:369-415 | the loop leaves the register file as the unit-by-unit writes do; any other size is -EINVAL and changes nothing |
| `RegisterFile.WriteFrame` | xpnet/src/xp_pcie_slave.c:369-415 | a write changes no byte outside the addressed range |
| `RegisterFile.WriteReadRoundTrip` | xpnet/src/xp_pcie_slave.c:320-415 | reading the range back gives the values cut to the unit size |
| `RegisterFile.TruncatedAt` | xpnet/src/xp_pcie_slave.c:320-415 | the i-th value that comes back is the i-th written modulo 256, 65536 or 2^32 |
| `Traps.ExecInv` | xpnet/src/xp_netdev_intf.c:160-277 | after every history of messages and packets table and reason map agree with that history |
| `Traps.DispatchFollowsHistory` | xpnet/src/xp_netdev_intf.c:1092-1122 | with a configuration in force for its reason code (that of the trap last bound to it, if not removed) a packet goes to that configuration's socket iff the channel is 0, to the callback iff 1, to the netdevs iff 2, and is discarded iff above; to the callback if none is in force |
| `Traps.PacketCounted` | xpnet/src/xp_netdev_intf.c:1100-1118 | rx_count grows by one, on the trap in force, exactly on those three channels, and no other configuration changes |
| `Traps.LiveIsOccupied` | xpnet/src/xp_netdev_intf.c:230-277 | live configurations are exactly those in the slots, each in the slot of its own id, with its packet count |
| `Traps.ReasonMapInRange` | xpnet/src/xp_netdev_intf.c:160-258 | reason-map entries are invalid or in range |
| `Traps.TrapTable.AddTrap` | xpnet/src/xp_netdev_intf.c:230-258 | an ADD message takes effect exactly with a reason code up to 803, a trap id up to 0x5000 and memory to be had, and frees a replaced configuration once |
| `Traps.TrapTable.RemoveTrap` | xpnet/src/xp_netdev_intf.c:260-277 | a REMOVE message has the effect of a removal in the history |
| `Traps.TrapTable.Route` | xpnet/src/xp_netdev_intf.c:204-228 | the two table look-ups compute the route the history prescribes, by channel number |
| `Traps.TrapTable.Deinit` | xpnet/src/xp_netdev_intf.c:182-202 | every live configuration is freed, once |
| `Registry.ExecInv` | xpnet/src/xp_netdev_intf.c:457-631 | after every sequence of create, delete, link and unlink, list and hash table agree |
| `Registry.HashedIffLinked` | xpnet/src/xp_netdev_intf.c:457-631 | ids are unique; an entry is hashed, and in its own bucket only, exactly when linked; its type fits its number |
| `Registry.LookupIsNewestLinked` | xpnet/src/xp_netdev_intf.c:1054-1073 | for any hash function a look-up finds the most recently linked live interface of that number, and nothing exactly when the list has none |
| `RegistryHistory.FollowsHistory` | xpnet/src/xp_netdev_intf.c:457-631 | after every history the list holds exactly the interfaces created, with success, and not deleted since, each with the number its last effective link gave it unless unlinked since, the type of that number's range and the time of that link, all functions of the messages alone |
| `RegistryHistory.LookupFollowsHistory` | xpnet/src/xp_netdev_intf.c:1054-1073 | in those terms a look-up finds the interface most recently linked to the number of those that still hold it, and nothing exactly when none does |
| `RegistryHistory.RegistryTells` | xpnet/src/xp_netdev_intf.c:457-631 | the registry object holds what its history says of every interface id |
| `Registry.NetdevRegistry.FindEntry` | xpnet/src/xp_netdev_intf.c:525-528 | the list walk finds the entry with the id, if any |
| `Registry.NetdevRegistry.IfCreate` | xpnet/src/xp_netdev_intf.c:457-514 | the registry is where the history with this creation leads, registration failing or not |
| `Registry.NetdevRegistry.IfDelete` | xpnet/src/xp_netdev_intf.c:516-545 | the registry is where the history with this deletion leads |
| `Registry.NetdevRegistry.IfLink` | xpnet/src/xp_netdev_intf.c:547-605 | the registry is where the history with this link leads |
| `Registry.NetdevRegistry.IfUnlink` | xpnet/src/xp_netdev_intf.c:607-631 | the registry is where the history with this unlink leads, which by FollowsHistory leaves the interface without a number |
| `Registry.NetdevRegistry.LookupNumber` | xpnet/src/xp_netdev_intf.c:1054-1073 | the bucket walk is the look-up, and every entry it meets is live |
| `Steering.InfoIs` | xpnet/src/xp_netdev_intf.c:938-964 | the shifts and ors concatenate the header fields; port below 256, rif in 65536..131071, reason code below 1024 |
| `Steering.NoDuplicateDelivery` | xpnet/src/xp_netdev_intf.c:1030-1076 | in every reachable registry and for every header a packet reaches at most two netdevs, live ones, never the same twice and never a LAG |
| `Steering.LagNeverReceives` | xpnet/src/xp_netdev_intf.c:1044-1073 | no header reaches an interface linked to a LAG number |
| `Steering.ReceivesIff` | xpnet/src/xp_netdev_intf.c:1030-1076 | an interface can receive some packet if and only if it is linked, not to a LAG number, and no live interface was linked to its number later |
| `Steering.NetdevProcess` | xpnet/src/xp_netdev_intf.c:1030-1076 | the two look-ups deliver to exactly the netdevs the header selects |
| `Steering.DeliveredIff` | xpnet/src/xp_netdev_intf.c:1044-1073 | a live interface gets a packet if and only if it is the newest linked to the ingress port and the ingress interface is below 128 or in 4096..5018, or it is the newest linked to 65536 plus the bridge domain |
| `Steering.DeliveredByHistory` | xpnet/src/xp_netdev_intf.c:457-1073 | the same with newest read off the messages alone |
| `Steering.SkbProcess` | xpnet/src/xp_netdev_intf.c:1078-1122 | the channel is the one the trap history prescribes, and the netdev channel reaches the selected interfaces |
| `QueueMemory.SameBlocks` | xpnet/src/xp_netdev_core.c:348-682 | owning the same blocks with the same pointers is having the same live memory |
| `QueueMemory.Queues.QueueUninit` | xpnet/src/xp_netdev_core.c:348-379 | exactly the queue's ring and first buffers are freed, each once and at the size it was allocated with: a receive buffer with the length stored for it, a ring with the length of a receive ring |
| `QueueMemory.RingSizesAgreeIff` | xpnet/src/xp_netdev_core.c:560-620 | giving a transmit ring back with the length of a receive ring is right if and only if the two descriptor counts fill the same number of pages |
| `QueueMemory.Sizes` | xpnet/include/xp_netdev.h:38-44 | 64 queues of 10 descriptors; 16384 bytes per receive buffer, 4096 per transmit buffer and per ring |
| `QueueMemory.Queues.RxQueueInit` | xpnet/src/xp_netdev_core.c:446-501 | succeeds exactly when the index is in range and no allocation fails; otherwise nothing stays allocated |
| `QueueMemory.Queues.TxQueueInit` | xpnet/src/xp_netdev_core.c:538-652 | fails exactly when the number is not below the count asked for or the ring allocation fails; a slot lacks its buffer exactly when that allocation failed |
| `QueueMemory.Queues.Teardown` | xpnet/src/xp_netdev_core.c:387-396 | everything the queues own is freed, each block once |
| `QueueMemory.Queues.Setup` | xpnet/src/xp_netdev_core.c:516-682 | succeeds if and only if at most 64 queues are asked for and no allocation the code looks at fails; transmit set-up runs past its array if and only if more are asked for and none fails; a failing one leaves the live memory as before the call, a successful one owns exactly the blocks of its queues |
| `QueueMemory.Queues.SetupThenTeardown` | xpnet/src/xp_netdev_core.c:387-682 | unless set-up runs past its array, which is said exactly when, set-up and teardown leave the live memory as it was, for every pattern of failures |
| `Transmit.Driver.StartXmit` | xpnet/src/xp_netdev_core.c:1168-1198 | BUSY exactly when DMA is on and the queue as it stands refuses the packet, and then the buffer is left alone; otherwise the buffer is freed once, queued or dropped |
| `Transmit.Driver.NdoStartXmit` | xpnet/src/xp_netdev_intf.c:295-382 | BUSY exactly when the interface is up and the queue refuses header and data; then the netdev's queue is stopped, the caller's buffer is live, no copy is left, and it is unchanged exactly if its headroom was too small; OK: caller's buffer and copy are gone; an accepted packet is header then data |
| `Transmit.Driver.Retry` | xpnet/src/xp_netdev_intf.c:279-382 | the first attempt is refused exactly when the queue says so and then stops the netdev's queue, which an open restarts; without a copy, what an accepted second offer adds carries the header twice |
| `Transmit.HeaderTwiceHappens` | xpnet/src/xp_netdev_intf.c:295-382 | under the A0 flag there is a run in which header and data are refused and the retry with the header twice is accepted |
| `Transmit.Driver.PacketSend` | xpnet/src/xp_netdev_intf.c:406-420 | the socket's buffer stays live exactly when the queue as it stands refuses it; otherwise it is freed once |

## Left out

- The openXps API headers (prototypes without bodies) and the serdes firmware images.
- procfs output, PCI probe and removal, ioctl, mmap and character-device plumbing, sockets and netlink sockets.
- The loop over sub-messages of a netlink message; the message handlers are called directly.
- The user-memory DMA list and the user-copy side of register access.
- The error path of `xp_netdev_init`, which ignores the set-up results.
- Statistics counters, debug output, delays, and the `num_shards` field, which is written and never read.
- `__xpnet_enforce_skb_sanity`: its result is not used; only `XPNET_CEIL_LEN` is modelled from it.
- Queue enable registers and priorities: the device is taken to be enabled.
- Spinlocks: each queue has one driver at a time; the device is concurrent with it.
- The guards of `xpnet_hard_start_xmit` read the queue in one step, as does each turn of the space check; after the first read finds a descriptor not owned the device does not touch it (TxMachine.DeviceSparesUnowned). A `|=` on a descriptor word is one write.
- Buffers are values in sequences: that two buffers might share memory is not modelled; their DMA addresses are distinct.
- `skb->len` read after the buffer was freed (xpnet/src/xp_netdev_core.c:1063-1065); it only feeds a counter.
- What the network stack does with a packet refused with BUSY: the driver stops the netdev's queue and only `xp_ndo_open` starts it again, so whether the packet is ever offered again is not the driver's to say; Transmit.Driver.Retry states what comes of it if it is.
- Failures of `alloc_netdev` and `skb_copy_expand`, whose results the code does not check on these paths.
- The status registers the management handler reads for its messages; the source register is read as a whole.
- Packet mirroring beyond a flag, the TX-header message, and `xp_netdev_all_remove`.
- The hash function of the registry is a parameter, so the results hold for every hash function.
- Delivery after a bad receive completion: the model shows that there is none.
- Shards.EndianSwap32: says nothing of the buffer where the loop does not end, which would go on swapping memory.
- QueueMemory.Queues.Setup: says nothing of what an overrun of the transmit array overwrites.
- RegisterFile.RegWrite: the address range is required to be mapped, as the C code takes for granted.
