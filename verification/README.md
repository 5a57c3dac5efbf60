# The QDMA descriptor engine, verified

This project models the core of the QDMA Linux driver and proves properties of the model
over every run: the descriptor rings of `libqdma` in both directions, the segmentation of
user buffers that feeds them, the interrupt aggregation ring, the queue allocator, the
sharing of character devices by queue pairs, and the bit layouts of the queue contexts.

## How it is built

The driver keeps wrapped indices, one-bit colours and small counters. Every component is
described twice.

* A *specification on values*: the state as a datatype, each driver function as a Dafny
  function with the same branches, error codes and constants (`TransmitSpec`,
  `ReceiveSpec`, `InterruptRing`, `QueueAllocator`, `SharedDevice`, `QueueContext`).
* The *driver's own form*: classes with mutable fields, arrays, lists and loops
  (`TransmitQueue.DescQueue`, `ReceiveQueue.RxQueue`, `InterruptRing.CoalEntry`,
  `QueueDevice.Device`, `SharedDeviceObjects.XpDev`), whose methods are proved to take the
  state from one value to the value the specification computes.

Runs of a queue are arbitrary sequences of atomic steps, since the driver posts, serves and
reads under the queue's lock (a submitted read takes the lock twice, and its two halves are
two steps). Runs of the queue allocator and of the shared devices are sequences of whole
calls, one after the other: `qdma_queue_add` drops its lock between counting and scanning,
and calls that overlap there are not modelled. `Exec` computes the state after a run together with an unbounded history: all
requests ever submitted, every descriptor ever posted with the request it was for, all
packets ever completed, how much was consumed, read and released. The invariants say that
the wrapped state is determined by that history, and the main results are read off from
them. Transmit runs submit requests of any kind: any scatter list, any count. `TransmitDrive.Drive` and
`ReceiveDrive.Drive` close the circle: they take the driver's objects through an arbitrary
run, hardware stores included, and end in the state that `Exec` computes. The hardware is an environment
that goes by the index registers the driver wrote and its own position: it consumes
descriptors in order up to the posted index, fills receive buffers only below the posted
index, and does not lap a ring that it shares with the driver.

| file | what it holds |
| --- | --- |
| `RingIndex.dfy`, `PhaseRing.dfy` | index arithmetic, and the theory of rings with a colour bit, used for the completion ring and for the interrupt ring |
| `ScatterGather.dfy`, `TransmitSpec.dfy` | cutting scatter lists; the transmit queue on values |
| `TransmitRuns.dfy`, `TransmitOrder.dfy`, `TransmitContent.dfy` | runs of transmit queues: what holds for requests of any kind, the order of credits and completions, and the contents of descriptors |
| `TransmitTheorems.dfy`, `TransmitTiling.dfy`, `TransmitLimits.dfy` | results for transmit queues, what one request is cut into, and where requests with long entries go wrong |
| `TransmitReports.dfy`, `TransmitFlags.dfy` | how requests fail and are reported; the start and end flags of streaming descriptors |
| `TransmitQueue.dfy`, `TransmitDrive.dfy` | the transmit queue as objects, and its runs |
| `Segmentation.dfy` | user buffers to requests (drv/cdev.c) |
| `ReceiveSpec.dfy`, `ReceiveCopy.dfy`, `ReceiveStream.dfy`, `ReceiveRings.dfy` | the receive queue on values, its copy loops, packets cut into buffers, and its two rings |
| `ReceiveRuns.dfy`, `ReceiveHardware.dfy`, `ReceiveTheorems.dfy`, `ReceiveReads.dfy`, `ReceiveLimits.dfy` | invariant and results for receive queues |
| `ReceiveErrors.dfy`, `ReceiveTargets.dfy` | the completion loop on any ring contents and the halted queue; what reading leaves alone |
| `ReceiveQueue.dfy`, `ReceiveDrive.dfy` | the receive queue as objects, and its runs |
| `DeviceWrites.dfy`, `DeviceReads.dfy` | requests of the character device from end to end, between the bytes of the user's buffer and the queue |
| `InterruptRing.dfy` | the interrupt aggregation ring |
| `QueueAllocator.dfy`, `QueueDevice.dfy` | adding, starting, stopping and removing queues |
| `SharedDevice.dfy`, `SharedDeviceObjects.dfy` | one character device for two queue directions |
| `QueueContext.dfy` | queue contexts, descriptor flags and completion entries bit by bit |

## Where the code does less than it seems to

These are results, each with its exact condition.

* A posting call that resumes inside a scatter-list entry starts the entry over, because
  the offset inside the entry is set to zero before it is used. The calls tile a request
  for every pattern of ring space if and only if every entry fits one descriptor
  (`TilesForAllPatternsIffEntriesFit`).
* Starting an entry over posts more than the count of the request. The request then stays
  on the work list while the credits of its descriptors are banked, and they pay for the
  next request, which is reported complete before the hardware has consumed its
  descriptors: `EarlyCompletion` is such a run of nine steps, and `CompletesTooEarly` the
  whole family. Requests with a given scatter list are served right in all runs if and only
  if every entry of the list fits one descriptor (`ExactForAllRunsIffEntriesFit`); and in
  every single run in which no call stops inside an entry, completions are exact, whatever
  the requests (`CompletesExactlyWhenConsumed`). Requests of drv/cdev.c have fitting
  entries (`RequestIsWellFormed`), and then no reachable state resumes inside an entry
  (`NeverResumesInsideAnEntry`).
* Streaming descriptors keep the flags of every descriptor that was in their slot before:
  the flags of a run delimit its requests if and only if no slot that held the first
  descriptor of a request, or one of its last entry, is used again for one that is neither
  (`FlagsDelimitIff`; `StaleStartFlag` is a run in which the second descriptor of a request
  carries a start flag).
* A read with a callback that had to wait is reported with an error although it was filled
  (`ReadsCompleteInOrder`).
* A read that starts inside a buffer is given that buffer from its beginning again. It is
  right for all contents if and only if it starts at the beginning of a buffer or asks
  for nothing (`RightForAllContentsIff`; `SecondReadRepeatsTheFirst` has the runs in which two reads of
  one byte both deliver the first byte of a packet).
  Lengths are right in any case.
* A read may wait beside data that is already there. In a run this never happens if and
  only if every read that joins the waiting ones finds everything read
  (`DrainedThroughoutIff`); data taken over between the two halves of a submission make the
  difference (`WaitsBesideUnreadData` has the runs).
* The handle of a C2H queue can be the value reserved for "no queue" if and only if twice
  the number of queues exceeds 65535 (`InvalidHandleIsFreeIff`); such a queue, and no
  other, survives its own deletion (`DeleteLeaksIff`).
* Without the bound on laps the colour test fails (`ColorTestNeedsBound`).

## Model

| member | source | states |
|---|---|---|
| RingIndex.SlotDelta | libqdma/qdma_descq.h:141-145 | the wrapped difference is the true difference of two counts less than a ring apart |
| RingIndex.SlotIncr | libqdma/qdma_descq.h:147-152 | wrapped increment follows the count, for every step up to the ring size |
| RingIndex.SlotDecr | libqdma/qdma_descq.h:154-160 | wrapped decrement, by any amount up to the ring size, is the slot of the earlier count |
| RingIndex.PhaseAdvance | libqdma/qdma_st_c2h.c:353-363 | adding one, wrapping and flipping the colour steps the count behind (index, colour) |
| RingIndex.SlotIsRemainder | libqdma/qdma_descq.h:141-160 | slots are remainders and colours the parity of the lap |
| PhaseRing.WriteHolds | libqdma/qdma_intr.c:232-274 | a writer that stores the colour of its lap keeps the ring an image of its log |
| PhaseRing.ColorTestExact | libqdma/qdma_st_c2h.c:365-369 | the colour test holds if and only if the entry is written, and then shows that entry |
| PhaseRing.ColorTestNeedsBound | libqdma/qdma_st_c2h.c:365-369 | one entry beyond a lap makes an unread entry look old |
| ScatterGather.FindOffset | libqdma/qdma_descq.c:64-87 | finds the entry an offset falls into and reports the bytes REMAINING in it, or fails; the sum of lengths wraps at 32 bits |
| ScatterGather.LocateBoundary | libqdma/qdma_descq.c:64-87 | the offset of an entry boundary is found at that entry with nothing remaining before it |
| ScatterGather.LocateWithin | libqdma/qdma_descq.c:64-87 | below 2^32 bytes every offset is found in its entry, with the bytes remaining there, and nothing remaining exactly at an entry boundary |
| ScatterGather.LocateWraps | libqdma/qdma_descq.c:64-87 | with more bytes the 32-bit sum can pass the entry of the offset |
| TransmitQueue.DescQueue.constructor | libqdma/qdma_descq.c:722-749 | a configured queue: empty ring of which one slot stays unused, no credit |
| TransmitQueue.DescQueue.Submit | libqdma/libqdma_export.c:940-948 | a request joins the end of the work list; a queue that is not online refuses it |
| TransmitQueue.DescQueue.NoteBatch | libqdma/qdma_descq.c:202-211 | counters of a request after posting; it moves to the pending list when its count is reached |
| TransmitQueue.DescQueue.EmitMmEntry | libqdma/qdma_descq.c:158-189 | one entry is cut into consecutive descriptors of at most the maximal length, as far as there is room |
| TransmitQueue.DescQueue.EmitBatch | libqdma/qdma_descq.c:140-200 | the nested loops write exactly the specified batch, with its start and end flags |
| TransmitQueue.DescQueue.MmProcRequest | libqdma/qdma_descq.c:96-222 | one posting call of a memory-mapped queue, all of its outcomes and error codes |
| TransmitQueue.DescQueue.EmitStBatch | libqdma/qdma_descq.c:262-323 | the nested loops of a streaming batch, empty entries included |
| TransmitQueue.DescQueue.StH2cProcRequest | libqdma/qdma_descq.c:224-345 | one posting call of a streaming H2C queue |
| TransmitQueue.DescQueue.WrkProc | libqdma/qdma_thread.c:57-78 | the worker posts for the work list in order while there is room, and ends failed requests |
| TransmitQueue.DescQueue.WbCredit | libqdma/qdma_descq.c:474-492 | the consumer index becomes the number of descriptors consumed since the last call, none if it is unchanged |
| TransmitQueue.DescQueue.ReqUpdatePend | libqdma/qdma_descq.c:337-369 | credits go to the pending requests in order, and the rest is banked |
| TransmitQueue.DescQueue.ServiceWb | libqdma/qdma_descq.c:494-544 | one writeback service |
| TransmitQueue.DescQueue.Report | libqdma/qdma_descq.c:806-836 | the status a caller sees, and that the completion is recorded |
| TransmitDrive.Drive | libqdma/qdma_thread.c:57-78 | objects taken through any run of submissions, worker passes, hardware progress and services are in the state the run results speak of |
| TransmitRuns.PassBase | libqdma/qdma_thread.c:57-78 | a worker pass over any requests keeps indices, registers, ring contents, flags and the credit balance |
| TransmitRuns.ServiceBase | libqdma/qdma_descq.c:494-544 | so does a writeback service, over any pending requests |
| TransmitOrder.PostOrder | libqdma/qdma_descq.c:113-211 | a posting call for the first request keeps descriptors, bytes and lists in submission order, unless it stops inside an entry |
| TransmitOrder.PassOrder | libqdma/qdma_thread.c:57-78 | a worker pass fills the ring or empties the work list, and posts something if it can |
| TransmitOrder.ServiceOrder | libqdma/qdma_descq.c:337-369 | a service completes exactly the requests whose last descriptor the hardware has consumed |
| TransmitOrder.RunOrder | libqdma/qdma_thread.c:57-78 | every run keeps that order until a call stops inside an entry, and with fitting entries none does |
| TransmitContent.RingCarriesTheTiling | libqdma/qdma_descq.c:140-200 | through every run, the descriptors posted for a request are the pieces of its tiling, in order, once each, and all of them when it leaves the work list |
| TransmitTheorems.RingIsSafe | libqdma/qdma_descq.c:740-746 | for any requests: free slots and outstanding descriptors make up the ring less one; equal indices mean empty; the hardware was told the producer index; unconsumed slots hold what was posted |
| TransmitTheorems.UntouchedUntilConsumed | libqdma/qdma_descq.c:96-222 | no step changes a slot, flags included, that the hardware has not consumed |
| TransmitTheorems.BatchesAreDelimited | libqdma/qdma_descq.c:197-200 | in every reachable state the start flag is on the first and the end flag on the last descriptor of each posting call, and on no other |
| TransmitFlags.StreamFlagsAre | libqdma/qdma_descq.c:262-323 | on streaming queues the flags of a descriptor are exactly those that it, or an earlier descriptor in its slot, needed |
| TransmitFlags.StreamFlagsMark | libqdma/qdma_descq.c:262-323 | so the first descriptor of a request has the start flag and those of its last entry the end flag |
| TransmitFlags.FlagsDelimitIff | libqdma/qdma_descq.c:262-323 | the flags delimit the requests of a run if and only if no marked slot is used again for a descriptor in the middle |
| TransmitFlags.StaleStartFlag | libqdma/qdma_descq.c:262-323 | a run with a start flag in the middle of a request |
| TransmitTheorems.CreditConservation | libqdma/qdma_descq.c:344-366 | for any requests, counted descriptors are those in flight plus the banked credit, less those of failed requests; in order, only the first request is partly posted and the bank never covers the oldest pending request |
| TransmitTheorems.CompletesExactlyWhenConsumed | libqdma/qdma_descq.c:337-369 | a request is complete if and only if its whole count is posted and all its descriptors are seen consumed; completions are in submission order, once each |
| TransmitTheorems.CompletesAtOneService | libqdma/qdma_descq.c:337-369 | a request completes at the service that first sees its last descriptor consumed, at no other step |
| TransmitReports.PassTriesAll | libqdma/qdma_thread.c:57-78 | for any requests: a worker pass reports exactly failing requests, each with its error, and with room left passes over none |
| TransmitReports.StatusSaysWhatHappened | libqdma/qdma_descq.c:806-836 | over every run only a service reports success, for the oldest pending requests, all posted to their count, and only a worker pass reports errors |
| TransmitTheorems.NeverResumesInsideAnEntry | libqdma/qdma_descq.c:113-138 | with fitting entries no reachable posting call resumes inside an entry or fails |
| TransmitTheorems.NoRequestIsStranded | libqdma/qdma_descq.c:521-527 | from every reachable state, finitely many rounds of posting, hardware going by the index register, and service complete every request |
| TransmitLimits.CompletesTooEarly | libqdma/qdma_descq.c:113-211 | a run in which a request with a long entry makes the next one complete before its descriptors are consumed, for every such request |
| TransmitLimits.EarlyCompletion | libqdma/qdma_descq.c:344-366 | that run with concrete requests on a ring of four slots |
| TransmitLimits.ExactForAllRunsIffEntriesFit | libqdma/qdma_descq.c:96-369 | requests with a scatter list complete exactly when consumed in all runs if and only if every entry of the list fits one descriptor |
| TransmitTiling.TilesForAllPatternsIffEntriesFit | libqdma/qdma_descq.c:118-211 | the calls tile a request for every pattern of ring space if and only if every entry fits one descriptor |
| TransmitTiling.TilesCompletely | libqdma/qdma_descq.c:118-211 | with enough room in total, the calls emit the whole request, in order, without gap or overlap |
| TransmitTiling.IntendedTiles | libqdma/qdma_descq.c:158-175 | consecutive pieces are adjacent on the card; each lies in one entry, at the place that belongs to it, so pieces of an entry are adjacent in memory; lengths are from 1 to the maximum |
| Segmentation.MapUserBuf | drv/cdev.c:254-337 | pins and segments a user buffer, with the error codes for each failure in the order of the checks |
| Segmentation.MappedIff | drv/cdev.c:254-337 | mapping succeeds if and only if the touched pages are counted, allocated for, and all pinned without repetition in a row; otherwise the first obstacle is reported |
| Segmentation.PagesNrExact | drv/cdev.c:258-263 | the page count is the number of pages the buffer touches |
| Segmentation.SegmentsTile | drv/cdev.c:306-328 | the segments tile the buffer, are not empty and cross no page |
| Segmentation.RequestIsWellFormed | drv/cdev.c:377-386 | lengths and counts of the request are what posting needs if and only if its page count fits 16 bits |
| Segmentation.RequestNamesTheBuffer | libqdma/libqdma_export.c:880-894 | byte `k` of the buffer is in exactly one entry, the one of its page, at its own bus address and as byte number `k` of the request |
| DeviceWrites.BufferReachesTheRing | libqdma/qdma_descq.c:140-200 | through every run: descriptors one a page, byte `k` of the buffer at its own bus address, paired with card address `pos + k` |
| Segmentation.EmptyRequest | drv/cdev.c:262-263 | a request for no bytes is posted by streaming queues and refused by memory-mapped ones |
| ReceiveCopy.CopyStops | libqdma/qdma_st_c2h.c:256-294 | the copy loops stop only when the sources are used up or the targets full, never at the end of a buffer they took from |
| ReceiveCopy.CopyMoves | libqdma/qdma_st_c2h.c:256-294 | they move the next source bytes to the next target places, for every mix of empty and partial entries |
| ReceiveStream.PktChunksAre | libqdma/qdma_st_c2h.c:427-484 | the computed number of buffers, their lengths and their flags are those of the packet cut into buffers |
| ReceiveStream.ReleasedIs | libqdma/qdma_st_c2h.c:285-288 | the completion index kept with the last packet end read counts exactly the packets read to their end |
| ReceiveRings.SourcesAre | libqdma/qdma_st_c2h.c:228-272 | what a read can take is the unread part of the stream, buffer by buffer |
| ReceiveRings.ConsumeOk | libqdma/qdma_st_c2h.c:296-303 | reading buffers, the last one perhaps in part, keeps the free list |
| ReceiveRings.RefillOk | libqdma/qdma_st_c2h.c:179-222 | handing read buffers back keeps the free list |
| ReceiveRings.ClaimOk | libqdma/qdma_st_c2h.c:427-484 | taking over a packet keeps the free list and never meets a buffer in use |
| ReceiveRings.NextCmplOk | libqdma/qdma_st_c2h.c:353-363 | stepping to the next completion keeps the consumer's place |
| ReceiveQueue.RxQueue.constructor | libqdma/qdma_st_c2h.c:131-177 | a started queue with all buffers lent to the hardware |
| ReceiveQueue.RxQueue.CopyBuffer | libqdma/qdma_st_c2h.c:262-281 | the inner copy loop |
| ReceiveQueue.RxQueue.CopyLoops | libqdma/qdma_st_c2h.c:256-294 | the nested copy loops compute the specified copy, and the completion that can be released |
| ReceiveQueue.RxQueue.FlqRefill | libqdma/qdma_st_c2h.c:179-222 | recycled buffers are reset, around the end of the ring |
| ReceiveQueue.RxQueue.Read | libqdma/qdma_st_c2h.c:228-318 | one read call: cursor, counters, refill and registers, and its error |
| ReceiveQueue.RxQueue.FinishHead | libqdma/qdma_descq.c:806-836 | the status a waiting read ends with: with a callback an error, unless it asked for nothing |
| ReceiveQueue.RxQueue.ProcDefault | libqdma/qdma_st_c2h.c:320-351 | the waiting reads are served in order |
| ReceiveQueue.RxQueue.WrbNext | libqdma/qdma_st_c2h.c:353-363 | the next completion entry |
| ReceiveQueue.RxQueue.ParseCmplEntry | libqdma/qdma_st_c2h.c:371-425 | which entries halt the queue |
| ReceiveQueue.RxQueue.FillPacket | libqdma/qdma_st_c2h.c:436-476 | flags and lengths of the buffers of a packet, and the warning for a buffer in use |
| ReceiveQueue.RxQueue.RcvPkt | libqdma/qdma_st_c2h.c:427-484 | a packet claims its buffers |
| ReceiveQueue.RxQueue.CollectLoop | libqdma/qdma_st_c2h.c:561-597 | the budgeted completion loop |
| ReceiveQueue.RxQueue.ProcessCompletion | libqdma/qdma_st_c2h.c:523-624 | one completion service, all of its outcomes |
| ReceiveQueue.RxQueue.SubmitRead | libqdma/libqdma_export.c:76-84 | the first half of a submitted read takes what is there |
| ReceiveQueue.RxQueue.JoinWaiting | libqdma/libqdma_export.c:86-91 | the second half joins the waiting reads, or is refused when the queue is not online |
| ReceiveDrive.HardwareStores | libqdma/qdma_st_c2h.c:371-396 | what the hardware stores for a packet: its bytes in the next buffers and its completion entry |
| ReceiveDrive.Drive | libqdma/qdma_st_c2h.c:523-624 | objects taken through any run of packets, reports, services and submitted reads are in the state the run results speak of |
| ReceiveRuns.ReadKeeps | libqdma/qdma_st_c2h.c:228-318 | a read keeps both rings and the byte accounts |
| ReceiveRuns.CollectKeeps | libqdma/qdma_st_c2h.c:561-597 | the completion loop takes over exactly as many completions as it may |
| ReceiveRuns.ServiceKeeps | libqdma/qdma_st_c2h.c:523-624 | with a read waiting a service takes over all reported completions, or as many as its budget if that is smaller and not 0; without one none; and it leaves nothing unread while a read waits |
| ReceiveRuns.SubmitKeeps | libqdma/libqdma_export.c:76-84 | submitting a read keeps the invariant |
| ReceiveHardware.RoomIs | libqdma/qdma_descq.c:777-780 | what the index registers allow the hardware is exactly the room there is |
| ReceiveHardware.PacketKeeps | libqdma/qdma_st_c2h.c:523-624 | a packet that the registers allow keeps the invariant |
| ReceiveTheorems.BytesArriveInOrder | libqdma/qdma_st_c2h.c:256-315 | delivered and outstanding bytes add up; `pkt_dlen` is the length of the unread buffers; the bytes delivered are a prefix of the payloads unless a read ended inside a buffer |
| ReceiveTheorems.FreeListIsSafe | libqdma/qdma_st_c2h.c:601-618 | `avail`, `valid` and clean buffers in every reachable state; no packet meets a buffer in use; the hardware sees clean buffers only |
| ReceiveTheorems.CompletionsAreExact | libqdma/qdma_st_c2h.c:353-369 | index, colour and pointer stand for one count, and the colour test there is exact |
| ReceiveTheorems.ServiceCatchesUp | libqdma/qdma_st_c2h.c:565-597 | over runs: a service without limit leaves no reported completion behind while a read waits, and then every byte taken over has been delivered |
| ReceiveErrors.CollectTakesGoodEntries | libqdma/qdma_st_c2h.c:561-597 | for any ring contents the loop takes over the longest run of good entries in its budget, and halts exactly at an erroneous, unreadable or bufferless one |
| ReceiveErrors.HaltedQueueRests | libqdma/qdma_st_c2h.c:403-425 | a service that meets a faulty entry serves no read and tells the hardware nothing, and the queue stays as it is from then on |
| ReceiveErrors.WarnsExactly | libqdma/qdma_st_c2h.c:436-476 | the warning is given exactly when a claimed buffer was in use |
| ReceiveErrors.RefusedReadIff | libqdma/qdma_st_c2h.c:228-255 | a read is refused if and only if there is data and its list is used up, and nothing changes then |
| ReceiveTheorems.ReleaseIsSafe | libqdma/qdma_st_c2h.c:285-309 | completions returned to the hardware are those of packets read to their end, at most those processed, and are never taken back |
| ReceiveTheorems.UserDataIsCounted | libqdma/qdma_st_c2h.c:478-479 | with user data enabled every completion is counted once |
| ReceiveReads.ReadsHoldTheStream | libqdma/qdma_st_c2h.c:228-318 | every read holds what was moved to it, in order across calls; complete reads are full; all moves in time order are a prefix of the payloads unless a read ended inside a buffer |
| ReceiveReads.ReadsCompleteInOrder | libqdma/qdma_st_c2h.c:320-351 | in every reachable state the reads that waited are reported in exactly the order in which they joined, with status 0, or EINVAL for a read with a callback that asked for anything; those that still wait joined last |
| ReceiveReads.FirstComeFirstServed | libqdma/qdma_st_c2h.c:320-351 | one service completes waiting reads from the front, once each, with status 0, or EINVAL if they have a callback and asked for anything |
| DeviceReads.CdevReadIsFresh | drv/cdev.c:306-328 | a read of the character device is one that the receive results apply to |
| DeviceReads.ReadFillsTheBuffer | drv/cdev.c:306-328 | in every reachable state a complete read has byte `k` of what was moved to it at byte `k` of the user's buffer |
| ReceiveTargets.ReadsKeepTheirPages | libqdma/qdma_st_c2h.c:256-294 | reads stay the requests they were, and no byte of their pages outside the windows is changed |
| ReceiveLimits.RightForAllContentsIff | libqdma/qdma_st_c2h.c:256-303 | a read is right for all contents if and only if it starts at the beginning of a buffer or asks for nothing |
| ReceiveLimits.NextReadGets | libqdma/qdma_st_c2h.c:256-303 | what a read is given in a reachable state, in terms of the stream |
| ReceiveLimits.SecondReadRepeatsTheFirst | libqdma/qdma_st_c2h.c:256-303 | runs in which two one-byte reads both deliver the first byte of a packet |
| ReceiveLimits.WaitsBesideDataIff | libqdma/libqdma_export.c:78-91 | the one step that leaves a read waiting beside unread data is joining at a moment when there is some |
| ReceiveLimits.DrainedThroughoutIff | libqdma/libqdma_export.c:78-91 | in a run no read ever waits beside unread data if and only if every joining read finds everything read |
| ReceiveLimits.WaitsBesideUnreadData | libqdma/libqdma_export.c:78-91 | runs in which a read waits beside unread data, and service does not help |
| InterruptRing.AggregateStops | libqdma/qdma_intr.c:238-271 | the handler's loop ends for any ring contents, within one lap |
| InterruptRing.EveryInterruptOnce | libqdma/qdma_intr.c:206-275 | every hardware entry is handled once, in order, over any number of laps and any interleaving, and a handler run ends at the hardware's position |
| InterruptRing.CoalEntry.constructor | libqdma/qdma_intr.c:545-580 | the ring at setup: zeroed, index 0, colour 1 |
| InterruptRing.CoalEntry.DataIntrAggregate | libqdma/qdma_intr.c:206-275 | the handler's loop, its local counter equal to the shared index throughout |
| QueueAllocator.AddIs | libqdma/libqdma_export.c:431-614 | adding succeeds if and only if the mode is on and an admissible queue is asked for or exists; the least one is chosen; the handle is new and finds a queue in the mode asked for that does not run; nothing else changes |
| QueueAllocator.AddRefusal | libqdma/libqdma_export.c:459-598 | which error a refused call reports, in terms of the queues handed out |
| QueueAllocator.StartIs | libqdma/libqdma_export.c:643-753 | starting succeeds if and only if the queue is handed out, not running, and both steps work; it then runs; a failure changes nothing |
| QueueAllocator.StopIs | libqdma/libqdma_export.c:755-792 | stopping succeeds if and only if the queue is handed out; it no longer runs and keeps its mode |
| QueueAllocator.RemoveIs | libqdma/libqdma_export.c:256-296 | removing succeeds if and only if the queue is handed out, and takes back that queue only |
| QueueAllocator.Restart | libqdma/libqdma_export.c:643-792 | starting, stopping and starting again succeeds |
| QueueAllocator.UnknownHandle | libqdma/qdma_device.c:310-363 | handles that no queue has are refused by every call |
| QueueAllocator.QueueIsAsAdded | libqdma/qdma_descq.c:677-698 | in every reachable state a queue is handed out, in a mode, if and only if a call added it in that mode and none removed it since; it runs if and only if it was started and not stopped or removed since |
| QueueAllocator.RemoveUndoesAdd | libqdma/libqdma_export.c:256-296 | removing undoes adding: counts, the queues handed out, and all other queues |
| QueueAllocator.HandlesAreOneToOne | libqdma/qdma_device.c:310-363 | handles are one-to-one with direction and index, and the lookup of others fails |
| QueueAllocator.InvalidHandleIsFreeIff | libqdma/libqdma_export.c:459-461 | no queue has the invalid handle if and only if twice the number of queues fits below it |
| QueueAllocator.ReachableStatesAreSound | libqdma/libqdma_export.c:502-561 | in every reachable state counts equal enabled queues, pairs share a mode, and only enabled queues run |
| QueueDevice.Device.constructor | libqdma/qdma_device.c:161-226 | all queues of a new device are idle |
| QueueDevice.Device.ScanFree | libqdma/libqdma_export.c:527-554 | the scan for a queue to hand out |
| QueueDevice.Device.QueueAdd | libqdma/libqdma_export.c:431-614 | adding a queue, all outcomes and error codes |
| QueueDevice.Device.GetDescqById | libqdma/qdma_device.c:310-363 | the lookup of a queue by its handle |
| QueueDevice.Device.QueueRemove | libqdma/libqdma_export.c:256-296 | removing a queue |
| QueueDevice.Device.QueueStart | libqdma/libqdma_export.c:643-753 | starting a queue, with failing allocation or programming |
| QueueDevice.Device.QueueStop | libqdma/libqdma_export.c:755-792 | stopping a queue |
| SharedDevice.AddKeeps | drv/qdma_mod.c:457-511 | adding succeeds as the allocator says, shares the device of the pair or creates one, touches no other entry, and keeps the tables right |
| SharedDevice.DeleteKeeps | drv/qdma_mod.c:418-443 | deleting succeeds exactly for queues handed out, takes the queue back and clears its entry only; otherwise nothing changes |
| SharedDevice.DeleteLeaksIff | drv/qdma_mod.c:434-436 | a deleted queue stays handed out if and only if its handle is the invalid one |
| SharedDevice.EachDeviceDestroyedOnce | drv/qdma_mod.c:609-628 | a device is destroyed, once, if and only if no queue refers to it, and after the cleanup every device was destroyed exactly once |
| SharedDeviceObjects.CharDevice.constructor | drv/cdev.c:586-660 | a new character device marks the direction it was created for |
| SharedDeviceObjects.CharDevice.Destroy | drv/cdev.c:567-584 | destruction of a character device |
| SharedDeviceObjects.XpDev.QueueAdd | drv/qdma_mod.c:457-511 | adding a queue and attaching it to a device |
| SharedDeviceObjects.XpDev.QueueDelete | drv/qdma_mod.c:418-443 | deleting a queue and leaving its device |
| SharedDeviceObjects.XpDev.DeviceCleanup | drv/qdma_mod.c:609-628 | the final cleanup loop |
| QueueContext.WrbRoundTrip | libqdma/qdma_context.c:150-190 | decoding the completion context recovers every field and the whole address if and only if the inputs are in range |
| QueueContext.MakeWrbContext | libqdma/qdma_context.c:150-190 | the context is stored in the caller's words, or refused if there are too few |
| QueueContext.SwRoundTrip | libqdma/qdma_context.c:76-118 | the hardware reads the intended software context for each kind of queue if and only if the inputs are in range |
| QueueContext.HardwareReadsSizes | libqdma/qdma_context.c:76-118 | the descriptor size the hardware reads is 32, 8 or 16 bytes by kind of queue |
| QueueContext.MakeSwContext | libqdma/qdma_context.c:76-118 | the software context is stored in the caller's words, or refused if there are too few |
| QueueContext.FlagLenRoundTrip | libqdma/qdma_descq.c:177-200 | length and flags of a descriptor can be told apart if and only if the length has at most 28 bits |
| QueueContext.DescriptorLengthsFit | libqdma/qdma_descq.c:158-189 | every length that entries are cut to can be told apart from the flags, and the limit is the largest such length |
| QueueContext.EntryRoundTrip | libqdma/qdma_st_c2h.c:371-396 | the driver reads flags and length of a completion entry whatever else the entry holds |

## Left out

* Allocation, DMA mapping and page pinning: taken to succeed, or parameters with the error codes they can return.
* Wait queues, timers and wake-ups: any step may happen at any time, so no result depends on them.
* Timeout of a request, which unlinks it without reclaiming its credits (libqdma/libqdma_export.c:38-41): not a step of a run. Requests that end with an error while descriptors are in flight are in the runs; what is counted against them is recorded as lost (`LostWithFailures`).
* The packet callback of an upper layer, completions that carry user data only in `XMP_DISABLE_ST_C2H_CMPL` builds, and processing after a completion error: runs of receive queues are in default mode with error-free completions; `ReceiveErrors` covers the entries that halt the queue, for any ring contents.
* Starting a queue that is already running: `qdma_queue_start` resets the ring indices before it checks the state (libqdma/libqdma_export.c:654-683), so runs of a queue begin when it is started.
* Queues going offline during a run: submissions to an offline queue are refused by `Submit` and `JoinWaiting`, but runs are of queues that stay online.
* Calling the completion callback: its arguments are recorded as the completion, and what it does is not modelled. (`cb->offset` stays zero for streaming C2H, so a waiting read with a callback always ends with an error: libqdma/qdma_descq.c:821-832.)
* Addresses wrap at 64 bits in the driver and are unbounded here; byte counts of a request wrap at 32 bits in both, as do its offset comparisons.
* Widths of counters on the receive side: `left`, `pkt_dlen` and the copy counters are 32 bits in the driver and unbounded here; reads of less than 2^32 bytes, and so all that drv/cdev.c can describe, never reach the difference.
* Reads on behalf of other kernel code (`qdma_queue_packet_read`, `qdma_queue_c2h_peek`): thin wrappers around the read that is modelled.
* Buffer sizes: the driver shifts and masks by a power of two, the model divides, which agrees for powers of two and also covers other sizes.
* More than one interrupt vector for data: `QDMA_DATA_VEC_PER_PF_MAX` is 1, and with more the handler would flip the colour of the first ring only (libqdma/qdma_intr.c:264).
* A failure of `qdma_device_prep_q_resource` lowers the count of a direction but leaves the queue handed out (libqdma/libqdma_export.c:603-605, 627-633), and a refusal whose message is truncated leaves the count raised (libqdma/libqdma_export.c:556-563, 576-579): runs of the allocator are without either.
* A failure of `qdma_descq_config_complete` when a queue is started (libqdma/libqdma_export.c:654-667): it comes before the state check and clears `inited` of a queue that may be running, after which `online` and `inited` differ; runs of the allocator are without it.
* Overlapping calls of the allocator: `qdma_queue_add` counts under the device's lock and scans under each queue's (libqdma/libqdma_export.c:498-560); calls follow one another here.
* Asynchronous vectors of drv/cdev.c, queue reconfiguration, `make_intr_context`, `descq_wrb_cidx_update` packing, mailbox and SR-IOV tables, thread balancing, sysfs, netlink and tools.
- QueueAllocator.AddIs: the preparation of resources is taken to succeed; see above for what its failure leaves behind.
- QueueAllocator.ReachableStatesAreSound: calls one after the other, and neither the preparation of resources nor the configuration step fails.
- QueueDevice.Device.QueueAdd: the preparation of resources succeeds and messages fit their buffer.
- QueueDevice.Device.QueueStart: the configuration step succeeds, because its failure breaks the state of a running queue.
- SharedDeviceObjects.CharDevice.constructor: creation succeeds; after a failure `xpdev_queue_add` would store a pointer that was never set (drv/qdma_mod.c:502-508).
- SharedDeviceObjects.XpDev.QueueAdd: creating the character device succeeds, for the same reason.
- SharedDevice.EachDeviceDestroyedOnce: device creation succeeds; and it covers devices with at most 32767 queues, because beyond that a queue whose handle is the invalid one is not removed.
- InterruptRing.EveryInterruptOnce: does not model the lookup of the queue of an entry, which cannot fail once the device has queues.
