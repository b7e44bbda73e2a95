# wcn36xx: a verified model of the driver's state machines

wcn36xx is a Linux driver for Qualcomm Wi-Fi chips. The project models the parts of it that are
state machines or in-place algorithms, and proves what they guarantee over every run.

**The transmit rings (`dxe.c`, `txrx.c`, `main.c`).** A channel is a circle of control blocks paired
with DMA descriptors. A frame takes two slots, one for its buffer descriptor (BD) and one for its
skb, and there is no element count. Four parties work on it: the transmit path, the DMA engine, the
reaper in the interrupt handler, and the firmware's acknowledgement. `TxRing`, `TxChannel` and
`TxDriver` describe one step of each of them on values, for any even number of slots from 4 on; the
reaper's loop is cut into its single steps, and every other party may step in between. `TxRelease`
says when skbs are given back; `TxFlags` tells the queues, the ring-full flag and the slot for the
acknowledgement from the events of a run; `TxTheorems` is about order and wake-up; `TxDrain` is about what the
engine and the reaper do when nothing is transmitted, `TxBound` about how long a reap can take;
`TxCatchUp` and `TxWakeUp` give the exact conditions for order and wake-up; `TxLimits` is about the
ring-full flag, and has runs on a small ring that fail. `DxeMemory`, `DxeChannel` and `Wcn36xx` are
the code itself: control blocks and descriptors are objects linked by references, methods update
them in place, and each method is proved to do exactly what the transition system says (`ReapRuns`
adds up the runs that the reaper's loop makes). `Circle` reads a circle from a chosen position, so
that the proofs need no modular arithmetic.

**The receive rings (`dxe.c`).** `RxRing` has the transitions and the results, `DxeChannel` the methods.

**The firmware interface (`smd.c`).** `NvDownload` cuts an image into fragments with a 16-bit offset;
`CfgTlv` appends configuration entries to a bounded buffer; `Beacon` pads the TIM element of a beacon
in place; `SmdHandshake` is the request and response protocol over one shared buffer; `IndQueue` is the
indication queue with its work item. `Bytes` has little-endian words and the copying functions.

**Aggregation (`txrx.c`, `main.c`).** `Ampdu` is the start control with its counter.

## How to read the results

`Run(d, es)` is the state after a list of events. The events are chosen freely, so that a lemma about
`Run` is about every interleaving. What is said about released skbs (`TxRelease`) and about the flags
(`TxFlags`) holds for all of them. What is said about order and wake-up is about orderly runs.

A run is orderly if it respects `RoomAhead` at every transmit. A reap that finds its ring empty goes
on all the same, because the loop is a do-while, and may go round the whole ring. The head must not
catch up with this circling reaper, except while the reaper has passed just the first slot of the
empty ring. The driver has nothing that prevents it. `RoomAheadExactly` shows that this condition on
a transmit is both sufficient and necessary for order, and `WakeUpExactly` tells which of the
transmits that violate it can also stop the queues for good.

## Where the code does less than its design suggests

- A transmit that catches up with a reaper circling the ring lets frames leave in the wrong order,
  unless the ring holds no frame and the reaper has passed just one slot (`RoomAheadExactly`).
- If exactly one frame is left behind by such a transmit, mac80211's queues can be stopped for good:
  no completion, acknowledgement or reap will ever wake them (`WakeUpExactly`, `LostExactly`,
  `OvertakingTheReaperLosesWakeUp`).
- A status-requesting frame refused on a full ring is released twice (`StatusFrameCanBeReleasedTwice`).
- If an acknowledgement comes before the reap of its frame, the frame is released while its ring slot
  still points to it, and the reaper reads it afterwards (`NeverDanglingExactly`, `AckCanComeBeforeReap`).
- The ring-full flag can stay set when no ring is full (`FlagMeansFullExactly`). In orderly runs the
  queues are woken nevertheless, later.
- Bringing a ring up again after it has been freed frees blocks a second time if the first allocation
  fails, since the head pointer is never reset (`AllocateCtlBlock`, `RestartThatFails`).
- The NV download never ends for an image with more than 67584 bytes behind its first four, although
  it checks no size (`TerminatesUpToBound`), and overruns its buffer for one of less than four bytes
  (`LoadNv`).
- A response of more than 4096 bytes overruns the message buffer: its length is not checked
  (`OverrunExactly`, `IndQueue.Indications.RspProcess`).
- A beacon whose TIM bitmap is longer than six octets is cut (`PaddingPreservesBeacon`,
  `CutBeaconExists`), and is copied beyond the end of the template if only the cut makes it fit
  (`BuildBeacon`, `OverrunsTemplate`). For a TIM to be padded that runs past the end of the beacon,
  a negative number of bytes is moved (`BuildBeacon`).
- A response that comes after its request has timed out can be taken for the response to a later
  request (`OwnResponseExactly`).
- Indications that arrive while the work item is pending leave a backlog that is never worked off
  (`HandledExactly`, `BacklogStays`).
- A receive buffer is shared between mac80211 and the DMA engine if its replacement could not be
  allocated (`SharedExactlyOnFailure`, `BufferCanBeShared`).

## Model

| member | source | states |
|---|---|---|
| `TxTheorems.FramesLeaveInOrder` | dxe.c:347-383 | In every orderly run frames leave a channel in the order in which they were accepted; what is accepted and not reaped is in the ring, at most one frame for two slots |
| `TxTheorems.StepRefinesFifo` | dxe.c:601-664 | In orderly runs every step of every party is a step of a FIFO of N/2 frames; a frame is refused iff N/2 skbs are still in its ring, or it asks for a status while another is due |
| `TxCatchUp.RoomAheadExactly` | dxe.c:353-380 | In every state reached by an orderly run: after a transmit the frames of the channel leave in order in every orderly continuation, whatever the frame, iff there was room between the head and a circling reaper, or the reaper had passed just the first slot of the empty ring |
| `TxCatchUp.CatchUpAndStop` | dxe.c:379-382 | A frame that catches up, whether it requests a status or not, makes the reaper stop at once, and exactly the frames between its old and new position are left behind the tail |
| `TxCatchUp.OvertakesThoseLeftBehind` | dxe.c:353-380 | If any are, an orderly continuation lets a later frame leave first |
| `TxDrain.Drain` | dxe.c:358-382 | From any state of any run in which no reap is under way, completions and a reap hand over everything in the slots from the tail to the head in order, and leave alone what is behind the tail |
| `TxDrain.EmptyRing` | dxe.c:358-382 | From any such state a second reap, which goes all the way round, empties the ring |
| `TxLimits.CatchingUpIsReachable` | dxe.c:353-380 | An orderly run reaches a state in which the next frame violates the condition and leaves itself behind |
| `TxLimits.OvertakingTheReaperBreaksOrder` | dxe.c:353-380 | A run from initialisation on four slots in which the second frame is reaped and the first is left behind |
| `TxTheorems.RingIsAlwaysSplit` | dxe.c:358-382 | In orderly runs, also between iterations of the reap, the slots from the reaper to the head are a completed stretch and a VALID one with skbs on exactly their skb slots; no other slot holds an skb or is VALID, except that the reaper may stand just behind the BD slot of the first frame |
| `TxTheorems.StoppedForAReason` | dxe.c:320-343 | In every run at all, stopped queues mean that the ring-full flag is set, or that the acknowledgement slot refers to a frame that a ring has taken |
| `TxFlags.QueuesStoppedExactly` | dxe.c:369-374 | At every point of every run: the queues are stopped iff a frame that took the acknowledgement slot or met a full ring has stopped them, and since then neither has an acknowledgement come for the slot nor a frame been reaped while the ring-full flag was set |
| `TxFlags.FlagSetExactly` | dxe.c:612-617 | Likewise: the ring-full flag is set iff a frame has met a full ring and no frame of either ring has been dealt with since |
| `TxFlags.SlotBelongsExactly` | txrx.c:299-310 | Likewise: the acknowledgement slot belongs to a frame iff this frame found it free and no acknowledgement has come since |
| `TxFlags.StoppedUntilAcknowledged` | txrx.c:299-303 | Whatever is reaped meanwhile, the queues stay stopped for a frame whose status is due until the acknowledgement, unless a frame meets a full ring |
| `TxFlags.GivenIsHandedOver` | main.c:415-427 | The books of skbs begin with every skb handed over, accepted or not |
| `TxTheorems.StoppedQueuesWillBeWoken` | dxe.c:612-617 | No lost wake-up in orderly runs: besides, a set flag means that a frame is left to be reaped |
| `TxTheorems.WakeableExactly` | dxe.c:369-376 | In every run at all, stopped queues always have someone to wake them iff no frame is refused while no ring has a frame left besides one whose pointer is about to be dropped |
| `TxTheorems.NextReapWakesQueues` | dxe.c:369-374 | Once the oldest frame of a channel has completed and the flag is set, the next reap of the channel wakes the queues within its first three steps, whatever comes in between and whichever channel set the flag |
| `TxWakeUp.WakeUpExactly` | dxe.c:369-382 | In every state reached by an orderly run: after a transmit some orderly continuation can stop the queues for good (no later run without transmits ever wakes them) iff the head catches up with a circling reaper and exactly one frame is left behind |
| `TxWakeUp.LostExactly` | dxe.c:320-383 | Under every interleaving, the queues are stopped for good iff they are stopped, the acknowledgement slot is empty, and no ring has a frame left; from every other state events without a transmit can wake them |
| `TxWakeUp.LosesWakeUp` | dxe.c:612-617 | The continuation that does it, on a ring of any size and from any such state |
| `TxWakeUp.RunStaysTame` | dxe.c:358-382 | The invariant behind the other direction: orderly runs keep the number of frames left behind different from one, and the queues wakeable |
| `TxLimits.OvertakingTheReaperLosesWakeUp` | dxe.c:369-376 | A run from initialisation on four slots that ends with both rings empty and the queues stopped for good |
| `TxRelease.BdErrorsNeverOccur` | txrx.c:273-285 | In every run the head has a BD and the slot behind it has none; `wcn36xx_start_tx` fails with -EINVAL only for a second outstanding status |
| `TxRelease.NothingLostOrDoubled` | txrx.c:299-330 | In every run, given equals released plus the frames without status stored in the rings plus the acknowledgement slot, iff no status frame was refused on a full ring |
| `TxRelease.ReleasedExactlyOnce` | dxe.c:361-377 | With distinct skbs, none is released twice or both released and still to be released, iff no status frame was refused on a full ring; every skb that is not to be released any more has been |
| `TxRelease.NeverDanglingExactly` | dxe.c:326-343 | With distinct skbs, no ring slot (outside the time between release and clearing) and not the acknowledgement slot ever refers to a released skb, iff no status frame is refused on a full ring and no acknowledgement comes before the reap of its frame |
| `TxRelease.StrandedExactly` | main.c:425-426 | A status frame has been freed while the acknowledgement slot refers to it iff some event of the run met a full ring and a free slot |
| `TxRelease.RefusedStatusFrameIsReleasedTwice` | txrx.c:309 | From any state in which it is refused so, the next acknowledgement releases it again |
| `TxLimits.StatusFrameCanBeReleasedTwice` | txrx.c:309 | A run from initialisation in which a status frame meets a full ring and is released twice |
| `TxLimits.AckCanComeBeforeReap` | dxe.c:326-343 | A run in which nothing is refused and a released frame is still in its ring slot |
| `TxLimits.FlagMeansFullExactly` | dxe.c:369-377 | In an orderly run the ring-full flag always means that some ring has N/2 frames to be dealt with, iff no frame is refused between the release of an skb and the dropping of its pointer while the other ring has room |
| `TxLimits.FlagCanOutliveFullRing` | dxe.c:369-377 | A run on four slots that leaves the flag set with room in both rings |
| `TxRing.FullTest` | dxe.c:612-617 | The skb pointer behind the head is set iff half as many skbs as slots are in the ring, although head == tail is both empty and full, as long as no frame is left behind |
| `TxRing.FrontTx` | dxe.c:620-664 | A frame accepted is appended to the stretch from the reaper to the head, whatever is left behind |
| `TxRing.FrontHw` | dxe.h:198-201 | A completion moves no frame |
| `TxRing.FrontClear` | dxe.c:361-379 | Passing a completed slot takes along the oldest frame iff the slot holds one |
| `TxRing.SoundTx` | dxe.c:620-664 | Under every interleaving a transmit keeps the head on a BD slot, skbs on skb slots, and the VALID slots a stretch from the engine to the head |
| `TxChannel.AcceptKeepsInv` | dxe.c:603-664 | An orderly transmit keeps the ring's invariant, is accepted iff fewer than N/2 skbs are held, and appends its frame to the queue |
| `TxChannel.ReapKeepsInv` | dxe.c:358-382 | Each single step of the reaper keeps the invariant and removes at most the frame at the front, the one it deals with |
| `TxChannel.ReleaseKeepsInv` | dxe.c:361-366 | The skb that the loop body deals with is the oldest one accepted and not reaped |
| `TxChannel.CleanInv` | dxe.c:698-733 | The initialised channel satisfies the invariant, with an empty queue |
| `TxDriver.StartTxVerdict` | txrx.c:273-318 | Under every interleaving, when `wcn36xx_start_tx` succeeds and which error it returns otherwise |
| `TxDriver.RunKeepsSound` | dxe.c:320-383 | Every run keeps both rings sound and the books of skbs balanced |
| `TxDriver.StepKeepsWakeable` | dxe.c:369-376 | A step keeps stopped queues wakeable iff it is not a frame refused while no ring has a frame left |
| `TxDriver.RunKeepsInv` | dxe.c:320-383 | Every orderly run keeps both queues in order as well, and stopped queues wakeable |
| `DxeMemory.Slab.Kfree` | dxe.c:72 | Freeing a block that is not allocated is recorded as misuse |
| `DxeChannel.DxeCh.AllocateCtlBlock` | dxe.c:77-107 | The blocks form one circle of N distinct blocks iff N is at least 2; after a failure in any iteration every block allocated has been freed once; blocks are freed a second time iff the first allocation fails and the head is left over from an earlier use |
| `DxeChannel.DxeCh.RestartThatFails` | dxe.c:77-107 | That case: a ring is allocated and freed, and the first allocation for the next use fails |
| `DxeChannel.DxeCh.FreeCtlBlock` | dxe.c:65-75 | Frees each block of an open chain or a circle once; it is misuse iff some block is not allocated |
| `DxeChannel.DxeCh.FreeRing` | dxe.c:65-75 | From whatever head position, all N blocks are freed once |
| `DxeChannel.DxeCh.CycleFromAnywhere` | dxe.c:65-75 | The circle read from any position is a chain of the same blocks |
| `DxeChannel.DxeCh.InitDescs` | dxe.c:173-232 | The physical next links of the descriptors form the same circle as the blocks, and each descriptor has the control word and the work queue of its channel; nothing changes if the memory cannot be allocated |
| `DxeChannel.DxeCh.DescriptorsDisjoint` | dxe.c:192-194 | The physical addresses of the descriptors are 32 bytes apart, all inside the memory allocated for them |
| `DxeChannel.DxeCh.FollowLink` | dxe.c:214-225 | The physical next link of a descriptor leads to the descriptor of the next block and to no other |
| `DxeChannel.DxeCh.InitTxBd` | dxe.c:234-256 | Even slots get consecutive chunks of the pool, odd slots none |
| `DxeChannel.ChunksDisjoint` | dxe.c:540-565 | The BDs of 40 bytes are 144 bytes apart for every second slot, and their chunks lie inside the pool |
| `DxeChannel.DxeCh.BringUp` | dxe.c:698-733 | If the control blocks and the descriptors can be allocated, the ring is ready; if only the descriptors cannot be, the control blocks stay allocated, each without a descriptor but with its BD buffer; if the control blocks cannot be, none is |
| `DxeChannel.DxeCh.InitialModel` | dxe.c:698-733 | A ring that is ready shows the clean ring from which the runs start |
| `DxeChannel.DxeCh.GetNextBd` | dxe.c:30-37 | Reads the BD buffer of the head slot of the modelled ring |
| `DxeChannel.DxeCh.IsFull` | dxe.c:612 | Reads the test of the modelled ring |
| `DxeChannel.DxeCh.Enqueue` | dxe.c:620-664 | Does to the linked objects what the model's transmit does; the two descriptors get the lengths, addresses, work queue and control words of the BD and of the skb |
| `DxeChannel.DxeCh.DmaStep` | dxe.h:198-201 | The engine clears VALID at its position and follows the physical next link, as the model's engine follows the circle |
| `Wcn36xx.Wcn.TxFrame` | dxe.c:591-684 | The linked objects and the flags follow the model, the full ring included |
| `Wcn36xx.Wcn.StartTx` | txrx.c:262-331 | The same for the acknowledgement slot and the stopping of the queues |
| `Wcn36xx.Wcn.Tx` | main.c:415-427 | The same for the release of a refused frame |
| `Wcn36xx.Wcn.TxAckInd` | dxe.c:320-345 | Releases the skb waiting for its acknowledgement, once, with the acknowledged flag iff the status is 1, and wakes the queues |
| `Wcn36xx.Wcn.ReapTxDxes` | dxe.c:347-383 | With completions, acknowledgements and the transmission of given frames anywhere in between, the loop is a run of the model's steps and keeps what every run keeps; it passes at most N slots and two more for each frame handed over meanwhile, also when it circles an empty ring |
| `TxBound.ReapIsBounded` | dxe.c:358-382 | Under every interleaving a reap passes at most N slots and two more for each frame that its ring takes meanwhile |
| `RxRing.ReceivedInOrder` | dxe.c:467-505 | Frames are passed up in the order in which the engine received them, each once; no buffer passed up is armed for DMA; the head slot is armed iff nothing is left to pass up |
| `RxRing.SharedExactlyOnFailure` | dxe.c:274-290 | At no point of a run is a buffer both passed up and armed iff no allocation failed while a filled slot was handled |
| `RxRing.BufferCanBeShared` | dxe.c:481-489 | A ring of two slots, one frame and one failing allocation after which mac80211 owns a buffer that is armed |
| `RxRing.RxRunKeepsInv` | dxe.c:467-505 | Every run with successful allocations keeps the ring's invariant |
| `RxRing.HandledAtMost` | dxe.c:475-500 | In every run, whatever fails, no more frames are passed up than were waiting and have been received meanwhile, and exactly as many once the head slot is armed |
| `DxeChannel.DxeCh.FillSkb` | dxe.c:274-290 | A fresh buffer in the slot and its descriptor, or no change |
| `DxeChannel.DxeCh.ChAllocSkb` | dxe.c:292-306 | Which block and descriptor gets which buffer, and that the others keep what they hold, for any pattern of failing allocations; the initial ring of the model if none fails |
| `DxeChannel.DxeCh.HandlePackets` | dxe.c:467-505 | With the engine receiving any number of frames up to a bound between any two iterations, the loop is a run of the model, ends at an armed slot, and has passed up exactly the frames that were waiting and those received meanwhile |
| `NvDownload.TerminatesUpToBound` | smd.c:344-379 | With every message accepted, the loop ends iff at most 67584 bytes follow the first four |
| `NvDownload.DownloadEndsExactly` | smd.c:344-383 | From sizes and outcomes alone: a download ends well iff it is within the bound and as many messages as the image has fragments were answered by 12 to 4096 bytes with a zero status word; otherwise the first message not so answered ends it with its own error (of the control channel, -ETIME, -EIO, or the status word) and nothing is sent after it |
| `NvDownload.SendsFragmentsInOrder` | smd.c:344-363 | Whatever the outcomes, what is sent are the first fragments, in order |
| `NvDownload.DoneMeansWithinBound` | smd.c:344-379 | Whatever the firmware answers, a download that ends well is within the bound |
| `NvDownload.FragmentsReassemble` | smd.c:335-379 | Then the bodies make up the image behind its first four bytes, the numbers are 0 to k-1, only the final message is marked last, and each fits the buffer |
| `NvDownload.EncodeRoundTrip` | hal.h:2753-2781 | The firmware reads back type 55, version 0, the fields and the body of a message |
| `NvDownload.OverrunExactly` | smd.c:2227-2228 | A download overruns the message buffer iff a response is longer than the buffer and the loop has gone on after every message before it |
| `NvDownload.Hal.LoadNv` | smd.c:318-384 | What is sent, byte for byte, the number of messages and the result, for any outcomes of the messages; an image of less than four bytes overruns the buffer |
| `NvDownload.Hal.SendAndWait` | smd.c:251-275 | The three ways in which a request can end; the buffer is overrun iff a response has more than 4096 bytes |
| `NvDownload.Hal.RspStatusCheck` | smd.c:301-316 | Success iff the response has at least 12 bytes and its status word is zero; otherwise -EIO for a short response and the status word for another |
| `CfgTlv.PutCfgTlvU32` | smd.c:80-102 | An entry is refused iff it would bring the length to 4096 or more, and then nothing changes; otherwise it is appended |
| `CfgTlv.BuildStart` | smd.c:437-449 | The start message is built iff there are at most 339 entries; otherwise the first 339 are intact |
| `CfgTlv.EntriesWalkBack` | hal.h:773-818 | The walk over the entries gives back the list |
| `CfgTlv.StartMessageReadsBack` | smd.c:432-449 | So does the walk over `params.len` bytes of the whole message, whose header gives type 0, version 0, its length, and a production driver |
| `Beacon.PaddingPreservesBeacon` | smd.c:1398-1432 | The template has the fixed part and the elements of the beacon, with a TIM of six bitmap octets that means the same, iff the bitmap has at most six octets |
| `Beacon.PaddedTimMeansTheSame` | smd.c:1430-1431 | Zero octets behind the bitmap change nothing: a TIM indicates the same stations (section 8.4.2.7 of IEEE 802.11-2012) |
| `Beacon.ParseConcat` | smd.c:1427-1429 | Elements in front of a complete stretch do not affect how the rest is parsed |
| `Beacon.CutBeaconLosesElements` | smd.c:1399-1405 | A cut beacon is malformed or has fewer elements |
| `Beacon.CutBeaconExists` | smd.c:1398-1405 | A beacon of 281 bytes with a bitmap of seven octets, whose template does not have its elements |
| `Beacon.BuildBeacon` | smd.c:1398-1440 | For any beacon and TIM offset: a mesh beacon is copied unchanged iff it has at most 380 bytes; another one octet by octet, the lengths and the TIM offset; or the error iff the unsigned length is too large; or a write outside the template iff a beacon that is too large passes the length check because of a negative padding, or a TIM to be padded runs past the end of the beacon |
| `Beacon.OverrunsTemplate` | smd.c:1399-1410 | A beacon of 381 bytes that is copied into the template of 380 |
| `Beacon.PadTim` | smd.c:1418-1432 | The in-place move, clearing and length correction give the padded beacon |
| `Bytes.MemmoveUp` | smd.c:1427-1429 | An overlapping move to higher addresses |
| `SmdHandshake.EveryCallerReadsItsOwnResponse` | smd.c:251-275 | Without timeouts at most one message is outstanding, and every caller reads the response to its own request with its length, whenever it arrives |
| `SmdHandshake.OwnResponseExactly` | smd.c:257-264 | A caller about to send reads its own response or none, in every continuation, iff nothing is left behind by an earlier request |
| `SmdHandshake.TimeoutLeavesResponseBehind` | smd.c:264-270 | A timeout can leave something behind |
| `SmdHandshake.WrongResponse` | smd.c:2227-2229 | From any such state a run in which the caller reads a response that is not its own |
| `SmdHandshake.Mailbox.RspProcess` | smd.c:2185-2230 | A response overwrites the buffer, sets the length and completes the wait |
| `SmdHandshake.Mailbox.SendAndWait` | smd.c:251-275 | The code, with firmware and control channel running in between, is a run of the protocol |
| `SmdHandshake.Mailbox.Request` | smd.c:431-460 | A request that succeeds returns its own response, and one that does not time out leaves the invariant for the next |
| `IndQueue.NeverTakesFromEmptyQueue` | smd.c:2272-2276 | Whenever the work item is about to take an indication, there is one, and of a kind that has a handler |
| `IndQueue.ArrivesExactly` | smd.c:2232-2256 | Exactly the three indications, if memory could be allocated, go to the end of the queue and schedule the work item |
| `IndQueue.RunIsSafe` | smd.c:2252-2255 | The queue is at least as long as the work to come, and the difference is exactly the number of arrivals that found the work pending |
| `IndQueue.HandledInOrder` | smd.c:2253-2254 | Handled and queued indications together are those that arrived, in order |
| `IndQueue.HandledExactly` | smd.c:2263-2302 | Once the work item rests, all have been handled iff none arrived while it was pending; otherwise exactly as many of the last ones remain |
| `IndQueue.BacklogStays` | smd.c:2298 | A backlog never shrinks |
| `IndQueue.SecondIndicationCanStay` | smd.c:2253-2254 | Two indications in a row leave one |
| `IndQueue.Indications.RspProcess` | smd.c:2185-2262 | Responses go to the buffer and overrun it iff they are longer; indications go to the queue, anything else nowhere |
| `IndQueue.Indications.IndSmdWork` | smd.c:2263-2302 | Handles and removes the first indication; the default case is never reached |
| `IndQueue.Indications.Serve` | smd.c:2185-2302 | With messages of any size delivered while the work item is scheduled, started and run, in whichever order, the code is a run of the queue's steps and neither loses nor reorders an indication, unless a response overruns the buffer |
| `Ampdu.Accounting` | txrx.c:140-150 | Counted frames are 21 for each start plus the counter |
| `Ampdu.StartsExactly` | txrx.c:144-148 | A session is started by exactly the 21st counted frame, the 42nd, and so on, whatever the TIDs |
| `Ampdu.CountsExactly` | txrx.c:127-142 | The frames counted are exactly the QoS data frames with HT, not of access category voice, for a TID whose session has not been left busy |
| `Ampdu.FrameStep` | txrx.c:127-148 | What one frame does to counter and states, from its fields |
| `Ampdu.BusyExactly` | main.c:925-944 | A TID is busy iff something made it so and it has not been stopped since |
| `Ampdu.OperationalExactly` | main.c:925-944 | A session is operational iff mac80211 has said so and has neither started nor stopped it since |
| `Ampdu.OneSessionAtATime` | txrx.c:141-142 | A start is requested only for a TID that is not busy; between two for the same TID it has been stopped |
| `Ampdu.Station.TxStartAmpdu` | txrx.c:118-151 | The new counter, states and request, from the fields of any frame |
| `Ampdu.Station.AmpduAction` | main.c:902-954 | The new state for any action |

## Left out

- TxTheorems.FramesLeaveInOrder: for orderly runs; that the condition on a transmit is exact is TxCatchUp.RoomAheadExactly.
- TxTheorems.StepRefinesFifo: for orderly runs, see TxCatchUp.RoomAheadExactly.
- TxTheorems.RingIsAlwaysSplit: for orderly runs; what holds of the slots in every run is TxDriver.RunKeepsSound.
- TxTheorems.StoppedQueuesWillBeWoken: for orderly runs; the transmits after which it can fail are characterised by TxWakeUp.WakeUpExactly, and the runs in which it does not by TxTheorems.WakeableExactly.
- TxDriver.RunKeepsInv: for orderly runs; TxDriver.RunKeepsSound is about all of them.
- TxRelease.NeverDanglingExactly: an skb is an identity; what the reaper finds in memory that has been released and reused is not modelled.
- DxeChannel.DxeCh.BringUp: what later becomes of a channel whose descriptors could not be allocated, which the caller does not notice.
- DxeChannel.DxeCh.ChAllocSkb: a ring for which an allocation has failed is not followed further: RxRing starts from a ring with a buffer in every slot.
- DxeChannel.DxeCh.HandlePackets: the number of frames received while the loop runs is bounded by a parameter, since otherwise the loop need not end.
- Wcn36xx.Wcn.StartTx: the contents of the BD, which is written before the ring is known to have room, and an acknowledgement between the setting of the slot and the stopping of the queues; all of `wcn36xx_start_tx` is one step.
- Wcn36xx.Wcn.ReapTxDxes: the frames handed over while the loop runs are a finite list, and go to its own channel; the other channel, whose objects the loop does not touch, is covered by the runs of TxDriver.
- NvDownload.TerminatesUpToBound: sizes are below 2^31.
- SmdHandshake.Mailbox.Request: messages are a number and a payload here; their bytes are in the modules of the single requests.
- Register writes, the doorbell and its SMSM variant in power save, interrupt registration and masks.
- DMA mapping: the address of an skb is its identity.
- Cross-channel clean-up when one of the four rings cannot be allocated, and the unwinding in `wcn36xx_start`.
- The other request functions that fill in a structure and call `wcn36xx_smd_send_and_wait`.
- Handlers of the single indications: they only read the message.
- Rates, keys, power save state, capability bits and scanning: independent of the state machines here.
- Flushing of the work queue at suspend and its destruction at close.
