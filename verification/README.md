# ulog verification

A model of ulog's production pipeline in Dafny, with proofs of what the pipeline promises: records enter
through per-producer lanes, are consumed in admission order, encoded into Raw frames, delivered by a route,
retired by the Runtime worker in admission order, and accounted for in the reports of Drain and Shutdown.
Two prototypes from the benchmarks are modelled as refinements.

`dafny verify dfyconfig.toml` checks the whole project.

## How to read it

Concurrent parts are state machines. An action is one atomic access (lanes, ledger, kernel, ring) or one block
under a lock (Runtime, file sink, control reserve). A schedule is any sequence of actions, an action that is not
enabled leaves the state unchanged, and theorems hold for the state after every schedule. Fields marked as history
variables record what happened and influence nothing. Beside each machine stands a class with the fields of the
code; its methods say which actions a call performs on the machine, so the theorems apply to the states the calls
go through. Sequential parts (record storage, encoder, segmented storage, UTF-8) are classes and methods proved
against functions on byte sequences.

| file | models |
|---|---|
| ProducerLanes.dfy | lanes, global sequence, single consumer |
| CreditLedger.dfy, Accounting.dfy | byte budget, mailbox, reservations and ownerships; charges |
| ProducerKernel.dfy, KernelCalls.dfy | record cells, registrations, closing, quiescence; the kernel's calls |
| Retirement.dfy, Overtaking.dfy | kernel and ledger together: how a retired slot is freed; retiring during a call |
| Utf8.dfy, RecordFormat.dfy, RecordStorage.dfy | well-formed prefixes; byte format and reader; slot and writer |
| RawEncoder.dfy | Raw frames, size pass and write pass |
| DeliveryAccounting.dfy, EncodedDestination.dfy, RawFileSink.dfy, FileRoute.dfy | routes: slots against outcomes; in-memory route; file; the file as a route of the Runtime |
| Runtime.dfy, RuntimeDomain.dfy | worker, ledger, reports, actions; the domain's calls over a route |
| ControlReserve.dfy | control nodes, free list, callbacks |
| MpscRing.dfy, SegmentedStorage.dfy | the prototypes |
| Bytes.dfy, RingArithmetic.dfy, Options.dfy | byte splicing; ring positions; optional values |

## Assumptions

- Accesses are sequentially consistent and counters are unbounded naturals; 64-bit wrap-around of positions,
  sequences and generations is not modelled. Sizes that can overflow (`AddSize`, `AccountingCharge`,
  `MaximumRawEncodedBytes`, `SaturatingAdd`) keep their bounds.
- Sequence watermarks fit 64 bits: SettleLocked requires it, because the code asks the route for everything below the
  largest 64-bit value.
- The Runtime machine takes from the kernel that after a true answer of IsQuiescent everything accepted is consumed, and
  from the control reserve that a pending action's node is not handed out again. QuiescentAnswerHolds, QuiescenceIsFinal
  and PendingNodeIsKept prove these in the form its guards use.
- A record the kernel finishes is one RecordWriter::Publish returned, with what RecordStorage proves of it
  (`ProducerKernel.WriterPromises`).
- The ledger's local credit is a plain variable in the code. Adding to it or taking from it is one step here; reading
  it, giving what was read to the central budget and zeroing it are three, so a reconciliation can run beside a
  reservation.
- TryFinishRetirement reads the published position before the read position.
- The file sink is given strictly increasing sequences, as the worker submits them (guard of Submit).
- A write completion may carry any result and, on an error, may have appended any prefix of the frame.
- Rendering a double is a parameter that yields at most 24 bytes without tab, newline, carriage return, NUL or
  backslash.
- What a call gets from outside is a parameter of its method: the timestamp of a record's source, the
  ledger's answer and the builder's result in TryPublishSlot, the reconciliation result in TryFinishRetirement and the
  number of accepted records in StartAction.

## Where the code and its promise differ

- Slots are said not to be reused until their lane is drained and their credit reconciled, so that stale registrations
  cannot address a reused slot (docs/performance-contract.md:22-25). TryFinishRetirement tests the lane before it
  takes the slot, and the ledger does not yet know of a call that has seen its slot active and has not reserved. A
  registration retired while a call of its own is at that point, and another thread has tested the lane before the
  call claimed it, can lose its generation under the call. That includes Shutdown, which retires every registration
  from its own thread (src/runtime.cpp:743-748). `Overtaking.OvertakenIff` gives the exact condition,
  `Overtaking.OvertakingHappens` a run, and `Overtaking.OvertakingDoublesCredit` a run that breaks the credit budget.
  Outside that window the promise holds in every run (`Retirement.GenerationAdvancesConsumed`,
  `Retirement.PublishedUnderCurrentGeneration`, `Retirement.CreditConservedUnexposed`). Inside it no slot is shared
  with a successor as long as admission is closed first, as the Runtime does (`Retirement.NoSuccessor`).
- TryReconcileProducer and TryReserve use a slot's local credit without synchronisation, and nothing in the ledger keeps
  them apart. `CreditLedger.CreditDoubled` gives a run that doubles credit, `CreditLedger.ConservedIffUntorn` the exact
  condition.
- BoundedMpscRing permits a capacity of one (bounded_mpsc_ring.hpp:16-17). With one cell a published turn equals the
  turn of the next lap, so a second producer takes the occupied cell. `MpscRing.OneCellOverflows` gives the run and
  `MpscRing.BoundedIffTwoCells` the exact condition.

## Model

| member | source | states |
|---|---|---|
| ProducerLanes.InvStep | src/producer/producer_lanes.hpp:156-221 | every single access of every producer and of the consumer, in any order, keeps lane positions, cells, the log of allocated sequences and the consumer consistent |
| ProducerLanes.AcknowledgedInAdmissionOrder | src/producer/producer_lanes.hpp:175-221 | in every interleaving the acknowledged records carry the sequences 0, 1, 2, ... with no gap, loss or duplicate, each with the handle its producer passed to Publish |
| ProducerLanes.PublishedCellStable | src/producer/producer_lanes.hpp:183-189 | from its publication until its acknowledgement a cell is never rewritten, whatever is scheduled |
| ProducerLanes.CellHolds | src/producer/producer_lanes.hpp:186-188 | the cell of every published, unacknowledged position holds the record admitted at that position |
| ProducerLanes.NextIsSomeHead | src/producer/producer_lanes.hpp:200-214 | when no lane is between allocating a sequence and publishing it, the next unacknowledged sequence is the head of some lane |
| ProducerLanes.OwedScanFindsRecord | src/producer/producer_lanes.hpp:194-221 | a scan that began with the next sequence at some head never ends without a record |
| ProducerLanes.EmptyMeansAllAcknowledged | src/producer/producer_lanes.hpp:216-220 | a scan that ends without a record reports the lanes empty exactly when every allocated sequence is acknowledged |
| ProducerLanes.HistoryGrowsRun | src/producer/producer_lanes.hpp:182-191 | no run ever changes an allocated sequence, an acknowledged record or the layout of a lane |
| ProducerLanes.PositionsGrowRun | src/producer/producer_lanes.hpp:187-188 | read and published positions only grow |
| ProducerLanes.PartitionCovers | src/producer/producer_lanes.hpp:140-151 | the first lane begins at cell 0, each begins where its predecessor ends, has at least one cell, and the last ends at the configured count |
| ProducerLanes.PartitionOrdered | src/producer/producer_lanes.hpp:140-151 | lane offsets never decrease, so with the previous row no two lanes share a cell |
| ProducerLanes.BuildLanes | src/producer/producer_lanes.hpp:140-151 | the constructor loop builds exactly that partition |
| ProducerLanes.FreshStateStarts | src/producer/producer_lanes.hpp:140-151 | the constructed lanes are a start state of the machine |
| ProducerLanes.Lanes.constructor | src/producer/producer_lanes.hpp:140-151 | a new lane table is in a start state |
| ProducerLanes.Lanes.TryClaimPublication | src/producer/producer_lanes.hpp:156-173 | which of the four claim results is given, by the flag and the positions, the accesses performed, and that a refused call leaves the lane table as it was |
| ProducerLanes.Lanes.Publish | src/producer/producer_lanes.hpp:175-192 | succeeds exactly for a valid handle that belongs to the claimed cell and lane; then returns the next sequence and performs the five accesses of a publication |
| ProducerLanes.Lanes.StorePublication | src/producer/producer_lanes.hpp:187-189 | the three stores that end a publication and nothing else |
| ProducerLanes.Lanes.AbandonClaim | src/producer/producer_lanes.hpp:281-284 | clears the flag and nothing else |
| ProducerLanes.Lanes.TryClaimConsumption | src/producer/producer_lanes.hpp:194-221 | without interference it takes a record exactly when some head carries the next sequence; otherwise it tells pending from empty |
| ProducerLanes.Lanes.ScanHeads | src/producer/producer_lanes.hpp:199-214 | the first lane whose head carries the next sequence, and whether an earlier lane had a later record |
| ProducerLanes.Lanes.AcknowledgeClaim | src/producer/producer_lanes.hpp:286-292 | advances the read position and the next sequence, and appends the envelope to what was acknowledged |
| ProducerLanes.Lanes.CancelClaim | src/producer/producer_lanes.hpp:294-297 | releases the claim and leaves the record at the head |
| ProducerLanes.Lanes.IsProducerDrained | src/producer/producer_lanes.hpp:223-231 | true exactly when nobody publishes on the lane and all its admitted records are acknowledged |
| CreditLedger.InvStep | src/producer/credit_ledger.cpp:77-196 | every access of every producer, release and reconciliation, a reconciliation beside a reservation included, keeps the identity of central and held credit, capacity and the credit made up so far, and each slot consistent |
| CreditLedger.CreditConserved | src/producer/credit_ledger.cpp:77-196 | in every run in which no reconciliation has overlapped a reservation of its slot, central credit, local and mailbox credit and the charges of all reservations and ownerships, including those in transit, add up to the capacity, no counter is negative, and logical bytes never exceed what is held, slot by slot and in all |
| CreditLedger.ConservedIffUntorn | src/producer/credit_ledger.cpp:77-121 | over all runs, overlapping or not, credit is conserved in every state exactly when no charge was taken from credit already gone and no local credit was zeroed that differs from what was read |
| CreditLedger.CreditDoubled | src/producer/credit_ledger.cpp:77-121 | for every charge, a run in which a reconciliation and a reservation of the same slot overlap and the central budget is whole while a reservation of all of it is out |
| CreditLedger.AllReconciled | src/producer/credit_ledger.cpp:109-121 | when every producer is reconciled and nothing is held, the whole capacity is central again |
| CreditLedger.SnapshotExact | src/producer/credit_ledger.cpp:123-141 | a snapshot of one state reports exactly the held and logical bytes, within the capacity, as long as reconciliations and reservations kept apart |
| CreditLedger.SampledSnapshot | src/producer/credit_ledger.cpp:123-141 | with each counter read at its own moment of a run: physical bytes are exactly those held when the central budget was read, logical bytes are the sampled sum cut off at them, the consistency mark tells exactly whether it was cut off, and if no logical counter differs between its reading and that moment the sum is exact |
| CreditLedger.Ledger.constructor | src/producer/credit_ledger.cpp:66-75 | a reset ledger holds its whole capacity centrally |
| CreditLedger.Ledger.Prepare | src/producer/credit_ledger.cpp:83-90 | the mailbox moves into local credit, nothing is lost, and no other producer changes |
| CreditLedger.Ledger.Refill | src/producer/credit_ledger.cpp:90-101 | takes exactly the missing credit from the centre, or nothing |
| CreditLedger.Ledger.TryReserve | src/producer/credit_ledger.cpp:77-107 | grants a reservation exactly when local, returned and central credit cover its charge; a refusal loses no credit; no other producer changes |
| CreditLedger.Ledger.CommitReservation | src/producer/credit_ledger.cpp:159-176 | shrinks a reservation to the retained size and returns the surplus; a size it does not cover gives everything back; no other producer changes |
| CreditLedger.Ledger.Abandon | src/producer/credit_ledger.cpp:178-186 | the whole charge goes to the mailbox and the bytes are forgotten; no other producer changes |
| CreditLedger.Ledger.ReleaseOwnership | src/producer/credit_ledger.cpp:188-196 | returns the charge and the logical bytes of an ownership |
| CreditLedger.Ledger.TryReconcileProducer | src/producer/credit_ledger.cpp:109-121 | succeeds exactly when the producer retains nothing, whatever reservation is in progress, and then moves all its local and returned credit to the centre |
| CreditLedger.Ledger.GetSnapshot | src/producer/credit_ledger.cpp:123-141 | central, logical and held bytes of the state, marked consistent as long as reconciliations and reservations kept apart |
| Accounting.AccountingCharge | src/producer/record_storage.cpp:107-114 | a non-zero charge covers the record and is a positive multiple of the quantum; it is zero exactly when rounding would overflow |
| Accounting.ChargeIsLeast | src/producer/record_storage.cpp:107-114 | no smaller positive multiple of the quantum covers the record |
| Accounting.ChargeMonotone | src/producer/record_storage.cpp:107-114 | a smaller record is never charged more |
| ProducerKernel.StepInv | src/producer/producer_kernel.cpp:473-611 | every access of publishing, consuming, registering, retiring and quiescence scanning, interleaved in any way and with slots reconciled and freed at any time, keeps the kernel invariant, and a lane once quiet stays quiet |
| ProducerKernel.ProduceOk | src/producer/producer_kernel.cpp:493-546 | from a cell in the state its holder expects, no producer move takes a defensive branch: for a finished record because of what RecordWriter::Publish proves of it, for the rest because of the cell |
| ProducerKernel.StoredRecordFits | src/producer/producer_kernel.cpp:530-543 | a record its writer published is within the limit in size and charge, and its charge is the one its size calls for, so neither the size test nor the commit test can fail |
| ProducerKernel.HandleAccepted | src/producer/producer_kernel.cpp:544-561 | the handle of an installed record is always one the lane accepts |
| ProducerKernel.ValidationPasses | src/producer/producer_kernel.cpp:578-600 | the record the consumer holds always passes its validation |
| ProducerKernel.NoDefensiveBranch | src/producer/producer_kernel.cpp:498-611 | in every run Begin finds its slot reset, no record is oversize, no commit fails, no handle is refused and no validation fails |
| ProducerKernel.CellsFollowWindow | src/producer/producer_kernel.cpp:544-606 | a cell outside its lane's published window and not claimed is reset, empty and unowned; a cell inside carries exactly the record admitted there, but for the head while the consumer has emptied it and not yet acknowledged |
| ProducerKernel.ConsumedInOrder | src/producer/producer_kernel.cpp:571-611 | the consumer acknowledges exactly the admitted records, in admission order |
| ProducerKernel.AtMostOneLateRecord | src/producer/producer_kernel.cpp:440-496 | after CloseAdmission each lane accepts at most one more record in any continuation |
| ProducerKernel.QuiescenceIsFinal | src/producer/producer_kernel.cpp:448-457 | once a scan begun after closing has answered true, accepted equals consumed and never changes again, although the scan reads lane by lane |
| ProducerKernel.QuiescentAnswerHolds | src/producer/producer_kernel.cpp:440-457 | in every continuation after a scan begun behind a closed admission answered true, admission is closed and as many records are acknowledged as were accepted |
| Retirement.StepInv | src/producer/producer_kernel.cpp:316-331 | with the kernel, the ledger and any number of threads in TryFinishRetirement interleaved access by access, whenever registrations are retired, the shares of a slot are those of its unconsumed records and a slot being reconciled belongs to one thread; on a slot never retired in the window a call works under its generation and reconciliations are undisturbed |
| Retirement.GenerationAdvancesConsumed | src/producer/producer_kernel.cpp:316-331 | in every run, Shutdown during calls included, that never retired a registration of the slot in the window, its generation advances only when every record ever admitted on it has been consumed, no call can still publish or holds a reservation, no bytes are retained and no credit is left in hand, however stale the test of the lane was |
| Retirement.PublishedUnderCurrentGeneration | src/producer/producer_kernel.cpp:493-546 | in those runs a call past its generation check whose record is not published yet has the generation of its slot, which is the last one handed out, and the slot is not free |
| Retirement.ReconcileNeverRefused | src/producer/credit_ledger.cpp:109-121 | in those runs a thread that found no retained bytes reconciles beside no reservation, and the accesses it has left move the local and returned credit of the slot to the centre exactly |
| Retirement.CreditConservedUnexposed | src/producer/credit_ledger.cpp:77-121 | in every run that never retired a registration in the window no reconciliation overlaps a reservation, credit is conserved and logical bytes are covered |
| Retirement.RetiredBetweenCalls | src/producer/producer_kernel.cpp:678-692 | retiring a registration while none of its calls is under way is never in the window |
| Retirement.NoSuccessor | src/runtime.cpp:743-748 | in every run that closes admission before any retirement takes effect, as the Runtime does, a call past its generation check works under the last generation its slot ever hands out, even when it has been overtaken: no successor shares its slot |
| Overtaking.OvertakenIff | src/producer/producer_kernel.cpp:316-331 | retiring a registration lets some continuation by all threads advance the generation under a call that can still publish exactly when the call has seen its slot active and has no bytes counted yet, and some thread passed the flag test before and may still find the lane drained |
| Overtaking.OvertakingHappens | src/producer/producer_kernel.cpp:316-331 | such a state is reached by a run from the start |
| Overtaking.DrainTo | src/producer/producer_kernel.cpp:571-611 | from every state without a publication halfway, the worker alone can go on until it has read a lane up to any published position, touching nothing of the slot, its call and the threads retiring it |
| Overtaking.OvertakingDoublesCredit | src/producer/producer_kernel.cpp:316-331 | a run of the kernel that retires a registration in the window and ends with the central budget whole while a reservation of all of it is out |
| KernelCalls.Kernel.constructor | src/producer/producer_kernel.cpp:290-302 | a new kernel is in a start state |
| KernelCalls.Kernel.ClaimLane | src/producer/producer_kernel.cpp:481-492 | a claim is obtained exactly when the flag is free and the lane not full |
| KernelCalls.Kernel.Admit | src/producer/producer_kernel.cpp:493-507 | the outcome of the checks after the claim, and the stage reached |
| KernelCalls.Kernel.Build | src/producer/producer_kernel.cpp:509-546 | the record is installed exactly when the texts fit, the builder completes and the writer publishes; otherwise every cell is as before. The size test is made and never fails |
| KernelCalls.Kernel.Install | src/producer/producer_kernel.cpp:530-546 | what the writer published is committed, which never fails, and stored with its ownership under a new generation |
| KernelCalls.Kernel.HandOver | src/producer/producer_kernel.cpp:547-568 | the lane accepts the record as the last admission |
| KernelCalls.Kernel.Withdraw | src/producer/producer_kernel.cpp:493-528 | a call that gives up frees the lane and leaves cells and admissions as they were |
| KernelCalls.Kernel.TryPublishSlot | src/producer/producer_kernel.cpp:473-569 | which outcome a call has, by its inputs; an accepted record is the last admission, and otherwise cells, lanes and admissions are as before |
| KernelCalls.Kernel.TryConsume | src/producer/producer_kernel.cpp:571-611 | takes the next record exactly when a head carries it and otherwise tells pending from empty; it is the one admitted under that sequence, it is acknowledged, its cell is left clean and no other cell changes; its slot is freed under the next generation if that was all it waited for |
| KernelCalls.Kernel.Move | src/producer/producer_kernel.cpp:316-331 | one store to a slot's state or generation, and nothing else |
| KernelCalls.Kernel.TryFinishRetirement | src/producer/producer_kernel.cpp:316-331 | frees a slot under its next generation exactly when it is retiring, drained and reconciled |
| KernelCalls.Kernel.TryRegisterProducer | src/producer/producer_kernel.cpp:407-432 | activates the first free slot and no other, and fails only without one or with admission closed |
| KernelCalls.Kernel.ClaimSlot | src/producer/producer_kernel.cpp:408-418 | takes a free slot; with admission closed it is retired again, and freed at once when drained and reconciled |
| KernelCalls.Kernel.RetireProducer | src/producer/producer_kernel.cpp:678-693 | ends a registration of the given generation; a stale one changes nothing |
| KernelCalls.Kernel.CloseAdmission | src/producer/producer_kernel.cpp:440-444 | closes admission and nothing else |
| KernelCalls.Kernel.IsQuiescent | src/producer/producer_kernel.cpp:448-457 | true exactly when every slot is drained and free, or just became so; with admission closed everything accepted has then been consumed |
| DeliveryAccounting.SumExact | src/testing/in_memory_encoded_destination.cpp:354-379 | summing the slots below a watermark gives, for each measure, the sum over the unretired sequences below it |
| DeliveryAccounting.SummaryExact | src/route/delivery_accounting.hpp:28-36 | a route summary is the exact summary of the unretired sequences below the watermark |
| DeliveryAccounting.SubmitRepresents | src/testing/in_memory_encoded_destination.cpp:244-267 | filling a retired slot with the next sequence keeps slots and outcomes in step |
| DeliveryAccounting.CompleteRepresents | src/testing/in_memory_encoded_destination.cpp:464-478 | completing a delivery changes exactly its own sequence's outcome |
| DeliveryAccounting.RetireRepresents | src/testing/in_memory_encoded_destination.cpp:335-350 | freeing the slot of the first unretired sequence retires exactly that sequence |
| DeliveryAccounting.CompletedSlot | src/testing/in_memory_encoded_destination.cpp:335-345 | the retirement scan finds a slot exactly when the sequence has completed |
| EncodedDestination.Destination.constructor | src/testing/in_memory_encoded_destination.cpp:100-111 | a new destination carries nothing |
| EncodedDestination.Destination.TryClaimWrite | src/testing/in_memory_encoded_destination.cpp:305-325 | reserves the first free, retired slot under a new generation, and fails exactly when stopped, paused or without one |
| EncodedDestination.Destination.Release | src/testing/in_memory_encoded_destination.cpp:167-186 | frees the slot a handle matches and nothing else |
| EncodedDestination.Destination.StoreRaw | src/testing/in_memory_encoded_destination.cpp:226-277 | submits a frame under the next sequence with the outcome its mode and stopping call for, or releases the claim if there is no frame |
| EncodedDestination.Destination.FindLowestSequence | src/testing/in_memory_encoded_destination.cpp:128-141 | the slot of the wanted state with the lowest sequence |
| EncodedDestination.Destination.TryTakePendingDelivery | src/testing/in_memory_encoded_destination.cpp:535-553 | hands out the pending delivery with the lowest sequence, which carries the frame submitted under it; there is none exactly when nothing is pending |
| EncodedDestination.Destination.Finish | src/testing/in_memory_encoded_destination.cpp:451-478 | completes exactly the delivery the handle was issued for, in any order; an outlived handle changes nothing |
| EncodedDestination.Destination.TryTake | src/testing/in_memory_encoded_destination.cpp:518-532 | hands out the oldest delivered frame, byte for byte as submitted |
| EncodedDestination.Destination.TryRetire | src/testing/in_memory_encoded_destination.cpp:327-352 | retires the next sequence exactly when it has completed, with its outcome and bytes |
| EncodedDestination.Destination.SummarizeInFlight | src/testing/in_memory_encoded_destination.cpp:354-379 | the exact summary of the unretired sequences below the watermark |
| EncodedDestination.Destination.Stop | src/testing/in_memory_encoded_destination.cpp:381-396 | cancels every delivery in flight and changes no other outcome |
| EncodedDestination.Destination.DiscardInFlight | src/testing/in_memory_encoded_destination.cpp:398-408 | retires every delivery and keeps the frames |
| RawFileSink.InvStep | src/io/raw_file_sink.cpp:122-254 | every locked block, with any write result and any partial append, keeps slots, queue and file consistent |
| RawFileSink.FileIsDeliveredFrames | src/io/raw_file_sink.cpp:143-196 | in every run the file is the concatenation, in submission order, of the frames appended to their end, followed by at most a prefix of the next one |
| RawFileSink.DeliveredFramesMakeTheFile | src/io/raw_file_sink.cpp:122-196 | in every run a frame is marked delivered exactly when its append has run to its end, so the file is the frames marked delivered and a prefix; a failed frame is the next one, a cancelled one was never begun, any other is still in its slot |
| RawFileSink.BookStep | src/io/raw_file_sink.cpp:122-254 | every locked block keeps what became of each frame in step with the slot that carries it |
| RawFileSink.OrderlyRepresents | src/io/raw_file_sink.cpp:376-509 | as long as sequences are submitted as 0, 1, 2, ... and retired in that order, the slots represent exactly the unretired sequences with their outcomes |
| RawFileSink.OutcomesGrow | src/io/raw_file_sink.cpp:122-196 | frames are only added, and a terminal outcome is never revised |
| FileRoute.StepInv | src/io/raw_file_sink.cpp:122-254 | every block of the Runtime and of the file sink, each under its own guards, keeps their view of the route the same |
| FileRoute.SinkIsTheRoute | src/io/raw_file_sink.cpp:122-254 | in every run of the Runtime over the file sink, until the worker settles its counts, the outcomes it reports on are those of the submitted frames in order, and both agree on what is retired and on the error |
| FileRoute.ReportsCountTheFile | src/runtime.cpp:777-803 | every report made before that calls delivered exactly the records below its watermark whose frames the file holds whole, and exactly as many bytes as those frames make up at the beginning of the file |
| RawFileSink.DeliveredIsInFile | src/io/raw_file_sink.cpp:171-196 | a delivery marked delivered has its whole frame in the file, at its place |
| RawFileSink.NothingAfterFailure | src/io/raw_file_sink.cpp:171-196 | after a write failure no run appends anything more |
| RawFileSink.FailureIsFinal | src/io/raw_file_sink.cpp:171-186 | one step after a failure leaves file and failure as they are |
| RawFileSink.BufferKept | src/io/raw_file_sink.cpp:143-169 | the buffer of a queued or writing frame is never touched |
| RawFileSink.HistoryGrows | src/io/raw_file_sink.cpp:171-196 | frames are only added, and the file only grows |
| RawFileSink.Sink.constructor | src/io/raw_file_sink.cpp:60-104 | a new sink is in a start state |
| RawFileSink.Sink.TryClaimWrite | src/io/raw_file_sink.cpp:451-466 | reserves the first free, retired slot unless the sink is stopping, closing or failed |
| RawFileSink.Sink.StoreRaw | src/io/raw_file_sink.cpp:376-409 | queues the encoded frame under its sequence, or records it as cancelled |
| RawFileSink.Sink.Reset | src/io/raw_file_sink.cpp:364-374 | gives an unused claim back |
| RawFileSink.Sink.CancelQueuedLocked | src/io/raw_file_sink.cpp:122-130 | cancels exactly the queued frames |
| RawFileSink.Sink.PumpLocked | src/io/raw_file_sink.cpp:233-254 | starts the queued frame with the lowest sequence, or the close, or nothing |
| RawFileSink.Sink.StartWriteLocked | src/io/raw_file_sink.cpp:143-169 | marks the slot as the one being written |
| RawFileSink.Sink.OnWake | src/io/raw_file_sink.cpp:256-260 | the wake-up is one pump |
| RawFileSink.Sink.FinishWriteLocked | src/io/raw_file_sink.cpp:171-196 | the new state after a write completion, by its result |
| RawFileSink.Sink.FailWriteLocked | src/io/raw_file_sink.cpp:171-186 | a failed write fails its delivery and cancels the rest |
| RawFileSink.Sink.AdvanceWriteLocked | src/io/raw_file_sink.cpp:187-196 | a short write continues, a complete one is delivered and pumps on |
| RawFileSink.Sink.TryRetire | src/io/raw_file_sink.cpp:468-488 | hands back the completed delivery of the sequence, if there is one; for the next sequence exactly when it has completed, with its outcome |
| RawFileSink.Sink.SummarizeInFlight | src/io/raw_file_sink.cpp:490-509 | the sums over the unretired slots below the watermark, and these are the exact sums over the unretired sequences below it |
| RawFileSink.Sink.StopRoute | src/io/raw_file_sink.cpp:516-522 | stops and cancels what is queued |
| RawFileSink.Sink.DiscardInFlight | src/io/raw_file_sink.cpp:538-543 | retires every delivery |
| Runtime.StepInv | src/runtime.cpp:568-976 | every locked block of callers, worker and route, in any order, keeps ledger, actions and history consistent, never revises a terminal outcome and never touches a completion |
| Runtime.ReportExact | src/runtime.cpp:777-803 | every report the code builds counts exactly the sequences below its watermark, from the ledger, the route and a refused record |
| Runtime.ExactReportBalances | src/runtime.cpp:800-801 | delivered, failed and unfinished records make up the watermark, and likewise the bytes, with no difference negative |
| Runtime.EveryReportBalances | src/runtime.cpp:777-803 | so in every run for every report ever completed; a success reports nothing unfinished |
| Runtime.DrainNotOvertaken | src/runtime.cpp:775-776 | the watermark of a pending Drain never falls below the retired count |
| Runtime.EveryActionCompletes | src/runtime.cpp:636-695 | once the worker has stopped, every action ever started has completed |
| Runtime.CompletedOnce | src/runtime.cpp:878-962 | a completed action is never completed again |
| Runtime.SuccessIsFinal | src/runtime.cpp:878-902 | a successful report stays exact for the deliveries of every later state |
| Runtime.FreeSlotExists | src/runtime.cpp:594-607 | pending actions hold distinct control nodes, so a caller with a fresh node finds a free slot |
| Runtime.StartActionFindsSlot | src/runtime.cpp:605-607 | in every run the branch for a missing action slot is not taken |
| Runtime.SettleTotals | src/runtime.cpp:858-870 | settling makes the ledger account for every submitted record |
| RuntimeDomain.Domain.constructor | src/runtime.cpp:978-1000 | a new domain is in a start state |
| RuntimeDomain.Domain.BuildReportLocked | src/runtime.cpp:777-803 | computes the report the machine's theorems are about |
| RuntimeDomain.Domain.StartAction | src/runtime.cpp:568-622 | the action completes at once, with the outcome and report recorded, or is pending; never refused |
| RuntimeDomain.Domain.FindFreeAction | src/runtime.cpp:594-600 | the first slot without a pending action |
| RuntimeDomain.Domain.CompleteAtOnce | src/runtime.cpp:578-607 | an action that completes as it starts gets the report of that moment |
| RuntimeDomain.Domain.Register | src/runtime.cpp:608-613 | a waiting action occupies the free slot |
| RuntimeDomain.Domain.CompleteLocked | src/runtime.cpp:956-958 | deactivates one action and builds its report in one block |
| RuntimeDomain.Domain.FindReady | src/runtime.cpp:884-892 | the first Drain at or below the retirement point |
| RuntimeDomain.Domain.CompleteReadyDrains | src/runtime.cpp:878-902 | completes as succeeded exactly the Drains that have reached their watermark |
| RuntimeDomain.Domain.FindActive | src/runtime.cpp:946-952 | the first pending action |
| RuntimeDomain.Domain.CompleteNext | src/runtime.cpp:940-962 | one turn of the completion loop |
| RuntimeDomain.Domain.CompleteActions | src/runtime.cpp:940-962 | completes every pending action with the given outcome |
| RuntimeDomain.Domain.TakeRetirement | src/runtime.cpp:832-836 | the route gives up the next sequence exactly when its delivery has completed |
| RuntimeDomain.Domain.RecordRetirement | src/runtime.cpp:837-847 | folds one retirement into the ledger |
| RuntimeDomain.Domain.RetireCompletedDeliveries | src/runtime.cpp:830-855 | retires in admission order up to the first delivery still in flight |
| RuntimeDomain.Domain.SettleLocked | src/runtime.cpp:859-868 | the ledger takes over what the route still holds |
| RuntimeDomain.Domain.SettleInFlight | src/runtime.cpp:858-870 | afterwards the ledger totals are those of every submitted record |
| ControlReserve.StepInv | src/control/control_reserve.cpp:116-182 | every locked block keeps nodes, free list and callback queue consistent |
| ControlReserve.CapacityConserved | src/control/control_reserve.cpp:439-462 | free-list length and nodes in use make up the capacity; the list is walked by its links and is empty exactly when all are in use |
| ControlReserve.RecycledOncePerStart | src/control/control_reserve.cpp:116-160 | a node is recycled exactly once per start and only with no reference left; every live reference carries its generation |
| ControlReserve.CallbackQueuedOnce | src/control/control_reserve.cpp:284-320 | a callback has been queued exactly when it is registered and the operation completed, once, for every ordering; it runs at most once and sees the result |
| ControlReserve.NoCallbackLost | src/control/control_reserve.cpp:146-182 | when the last reference goes the operation has completed and a registered callback has run |
| ControlReserve.TaskPushedUnlinked | src/control/control_reserve.cpp:317-319 | a callback task is never pushed while linked |
| ControlReserve.StartTakesUnreferenced | src/control/control_reserve.cpp:446-458 | a started node has no reference and no linked task, and gets a new generation |
| ControlReserve.PendingNodeIsKept | src/control/control_reserve.cpp:116-160 | in every run a node whose operation has not completed is neither on the free list nor on its way to it |
| ControlReserve.ResultIsStable | src/control/control_reserve.cpp:245-254 | from the completion on, the result a live handle reads never changes over any schedule |
| ControlReserve.CallbackTaskQueue.constructor | src/control/control_reserve.cpp:60-63 | a new queue is empty |
| ControlReserve.CallbackTaskQueue.Push | src/control/control_reserve.cpp:35-43 | appends a task that is not linked |
| ControlReserve.CallbackTaskQueue.Pop | src/control/control_reserve.cpp:45-56 | unlinks the oldest task |
| ControlReserve.CallbackDispatcher.constructor | src/control/control_reserve.cpp:190-192 | a new dispatcher has nothing waiting |
| ControlReserve.CallbackDispatcher.Enqueue | src/control/control_reserve.cpp:207-213 | links a node's task behind all others |
| ControlReserve.CallbackDispatcher.TakeNext | src/control/control_reserve.cpp:215-229 | unlinks the callback that has waited longest |
| ControlReserve.Reserve.constructor | src/control/control_reserve.cpp:107-114 | links every node into the free list in order |
| ControlReserve.Reserve.TryStart | src/control/control_reserve.cpp:439-462 | takes the head of the free list; refuses exactly when every node is in use |
| ControlReserve.Reserve.ReleaseOwner | src/control/control_reserve.cpp:146-160 | a live reference is always found; the last one resets the node and returns it to the free list |
| ControlReserve.Reserve.EnqueueTask | src/control/control_reserve.cpp:207-213 | appends the callback to the queue, where it was not yet |
| ControlReserve.Reserve.CompleteLocked | src/control/control_reserve.cpp:361-375 | a live completion always completes, and queues an armed callback |
| ControlReserve.Reserve.TryComplete | src/control/control_reserve.cpp:350-384 | always completes; the new state is that of completing, linking an armed callback's task, dropping the reference and recycling after the last one |
| ControlReserve.Reserve.InstallLocked | src/control/control_reserve.cpp:293-304 | only the first registration pins the node |
| ControlReserve.Reserve.ArmLocked | src/control/control_reserve.cpp:307-316 | arms the callback, or queues it if the operation is over |
| ControlReserve.Reserve.RegisterCallback | src/control/control_reserve.cpp:284-322 | registers exactly when no callback is there yet; a late registration is linked at once; a second one changes nothing |
| ControlReserve.Reserve.RunCallback | src/control/control_reserve.cpp:162-182 | a popped callback always runs, with the operation's result, and then drops its reference |
| ControlReserve.Reserve.RunNext | src/control/control_reserve.cpp:215-229 | one turn of the dispatcher: the callback that has waited longest runs with its operation's result and drops its reference |
| Utf8.SequenceIsChar | src/producer/record_storage.cpp:60-95 | the code's test of one sequence is the UTF8-char of section 4 of RFC 3629 |
| Utf8.DropPrefix | src/producer/record_storage.cpp:57-99 | what follows a well-formed prefix of a well-formed string is well formed |
| Utf8.StuckIsLongest | src/producer/record_storage.cpp:70-97 | a well-formed prefix no character continues is the longest |
| Utf8.TestSequence | src/producer/record_storage.cpp:60-95 | whether the sequence the first byte calls for is there |
| Utf8.ValidUtf8PrefixLength | src/producer/record_storage.cpp:57-99 | the length of the longest well-formed prefix |
| RecordFormat.StoredWord | src/producer/record_storage.cpp:26-32 | each word of a stored row reads back |
| RecordFormat.StoredFieldReads | src/producer/record_storage.cpp:476-530 | a stored field reads back with its key, exact kind and value, and its link |
| RecordFormat.ChainDescends | src/producer/record_storage.cpp:282-289 | links strictly descend |
| RecordFormat.WalkAll | src/producer/record_storage.cpp:532-541 | a cursor gives exactly the stored fields, in insertion order |
| RecordFormat.SourceReads | src/producer/record_storage.cpp:543-567 | the header accessors give back the source |
| RecordFormat.RecordReads | src/producer/record_storage.cpp:543-583 | a stored record reads back as its source, message, mark and fields |
| RecordFormat.FieldCursor.Next | src/producer/record_storage.cpp:532-541 | gives the next field and moves on; an ended cursor stays ended |
| RecordFormat.FieldAt | src/producer/record_storage.cpp:585-594 | the field of that number, or none |
| RecordStorage.SaturatingAdd | src/producer/record_storage.cpp:39-51 | the sum, capped at the largest 64-bit value |
| RecordStorage.CopyIn | src/producer/record_storage.cpp:194-197 | the buffer with the bytes written over it |
| RecordStorage.ChainExtended | src/producer/record_storage.cpp:260-289 | adding a field below the chain extends it and keeps every earlier field |
| RecordStorage.RelinkStored | src/producer/record_storage.cpp:285-287 | relinking a field changes its link and nothing else about it |
| RecordStorage.SealedReads | src/producer/record_storage.cpp:324-329 | rewriting the header makes the buffer read as the record |
| RecordStorage.SealedCharge | src/producer/record_storage.cpp:331-344 | the sizes add up to the limit, and an aligned limit has room for the charge |
| RecordStorage.RecordSlot.constructor | src/producer/record_storage.hpp:130-152 | a new slot is reset |
| RecordStorage.RecordSlot.ResetSlot | src/producer/record_storage.cpp:408-408 | the slot is reset |
| RecordStorage.RecordSlot.Begin | src/producer/record_storage.cpp:361-406 | opens exactly a reset slot whose source texts fit the limit; nothing changes otherwise |
| RecordStorage.RecordWriter.constructor | src/producer/record_storage.cpp:132-137 | the positions of an empty record |
| RecordStorage.RecordWriter.Abandon | src/producer/record_storage.cpp:354-359 | resets the slot and lets it go |
| RecordStorage.RecordWriter.AppendBytes | src/producer/record_storage.cpp:188-202 | stores what fits before the fields; the message is a prefix of everything appended |
| RecordStorage.RecordWriter.AddFieldBytes | src/producer/record_storage.cpp:244-293 | adds the field exactly when it fits, keeping everything stored so far |
| RecordStorage.RecordWriter.WriteField | src/producer/record_storage.cpp:260-288 | key, value, entry and link as bytes |
| RecordStorage.RecordWriter.AddField | src/producer/record_storage.cpp:215-242 | the same for an open writer; a writer without a slot adds nothing |
| RecordStorage.RecordWriter.CutMessage | src/producer/record_storage.cpp:303-306 | the longest well-formed prefix of the first bytes |
| RecordStorage.RecordWriter.AddTruncatedField | src/producer/record_storage.cpp:295-309 | adds the mark as last field exactly when it fits with the message given up as far as needed |
| RecordStorage.RecordWriter.SealMessage | src/producer/record_storage.cpp:315-322 | marks the record exactly when something appended is missing |
| RecordStorage.RecordWriter.Publish | src/producer/record_storage.cpp:311-352 | under an aligned limit publishes exactly when the mark of a cut message fits; the buffer then reads as the source, a well-formed prefix of the appended bytes (all of them unless marked) and every accepted field in order, within the limit |
| RawEncoder.ScanEscape | src/encoding/raw_encoder.cpp:24-45 | unescaping undoes escaping, keys lower-cased |
| RawEncoder.ValueEscaped | src/encoding/raw_encoder.cpp:146-197 | every value is written as the escaped form of its plain rendering |
| RawEncoder.FrameRoundTrip | src/encoding/raw_encoder.cpp:209-236 | a frame decodes to every field with lower-cased key and rendered value, and the message last |
| RawEncoder.FrameIsOneLine | src/encoding/raw_encoder.cpp:209-236 | the only newline of a frame is its last byte |
| RawEncoder.FrameBound | src/encoding/raw_encoder.cpp:201-207 | a record of at most M serialized bytes has a frame of at most 2M + 11 |
| RawEncoder.StoredRecordEncodes | src/encoding/raw_encoder.cpp:209-214 | a published record always fits the buffer configured for its limit |
| RawEncoder.AddSize | src/encoding/raw_encoder.cpp:47-53 | adds unless the sum leaves the size type |
| RawEncoder.AddEscapedSize | src/encoding/raw_encoder.cpp:55-63 | adds the escaped length, or reports overflow |
| RawEncoder.AddFieldValueSize | src/encoding/raw_encoder.cpp:75-102 | adds the value's length, or reports overflow |
| RawEncoder.AddFieldSize | src/encoding/raw_encoder.cpp:108-114 | adds one pair's length, or reports overflow |
| RawEncoder.RequiredSize | src/encoding/raw_encoder.cpp:104-117 | the exact length of the frame, unless it leaves the size type |
| RawEncoder.WriteLiteral | src/encoding/raw_encoder.cpp:119-124 | writes the bytes and nothing else |
| RawEncoder.WriteEscapedByte | src/encoding/raw_encoder.cpp:128-136 | writes one byte in its escaped form |
| RawEncoder.WriteEscaped | src/encoding/raw_encoder.cpp:126-137 | writes exactly the escaped text |
| RawEncoder.WriteFieldValue | src/encoding/raw_encoder.cpp:146-197 | writes exactly the value |
| RawEncoder.WriteField | src/encoding/raw_encoder.cpp:225-230 | writes exactly the pair |
| RawEncoder.WriteFields | src/encoding/raw_encoder.cpp:216-231 | writes the prefix and every pair |
| RawEncoder.EncodeRawRecord | src/encoding/raw_encoder.cpp:209-236 | writes the frame exactly when it fits, and nothing otherwise |
| MpscRing.StepInv | benchmarks/prototypes/ingress/bounded_mpsc_ring.hpp:58-124 | every atomic access keeps cells, turns, holders and consumer consistent, with at least two cells |
| MpscRing.RingRefinesQueue | benchmarks/prototypes/ingress/bounded_mpsc_ring.hpp:58-124 | every access is an enqueue, a dequeue of the head or nothing for a bounded FIFO queue |
| MpscRing.ConsumedInOrder | benchmarks/prototypes/ingress/bounded_mpsc_ring.hpp:107-126 | consumed positions are 0, 1, 2, ... with the record of the reserving producer, and at most capacity positions are outstanding |
| MpscRing.ReturnedOk | benchmarks/prototypes/ingress/bounded_mpsc_ring.hpp:34-104 | a full ring is reported only if it was full at the turn load, and no call exceeds 2*32+6 actions |
| MpscRing.EmptyMeansEmpty | benchmarks/prototypes/ingress/bounded_mpsc_ring.hpp:111-115 | an empty ring is reported only if nothing was reserved |
| MpscRing.ReservedIsHeldOrPublished | benchmarks/prototypes/ingress/bounded_mpsc_ring.hpp:66-98 | in every run a reserved, unconsumed position is still in its producer's hands or its cell shows the record published: none is lost |
| MpscRing.OneCellOverflows | benchmarks/prototypes/ingress/bounded_mpsc_ring.hpp:62-71 | with one cell a run accepts two records, the second overwrites the first, and no continuation ever lets the consumer take a record |
| MpscRing.BoundedIffTwoCells | benchmarks/prototypes/ingress/bounded_mpsc_ring.hpp:15-18 | the occupancy bound holds in all runs exactly with at least two cells, although one is permitted |
| MpscRing.Ring.constructor | benchmarks/prototypes/ingress/bounded_mpsc_ring.hpp:23-27 | every cell shows its first turn |
| MpscRing.Ring.Probe | benchmarks/prototypes/ingress/bounded_mpsc_ring.hpp:61-83 | one probe publishes, finds the ring full, or goes on with the last position seen; a probe at the current position always decides, by whether a cell is free |
| MpscRing.Ring.Finish | benchmarks/prototypes/ingress/bounded_mpsc_ring.hpp:92-98 | writes the reserved cell and passes its turn on |
| MpscRing.Ring.PublishFrom | benchmarks/prototypes/ingress/bounded_mpsc_ring.hpp:58-104 | from any loaded position, out of date or not: a full ring is reported only when full, at most 2*32+6 actions, and from the current position the outcome is decided by whether a cell is free |
| MpscRing.Ring.TryPublish | benchmarks/prototypes/ingress/bounded_mpsc_ring.hpp:38-105 | the outcome by the inputs: invalid, accepted exactly when a cell is free, else full; an accepted record is last in the queue, and otherwise nothing changes |
| MpscRing.Ring.TryConsume | benchmarks/prototypes/ingress/bounded_mpsc_ring.hpp:107-126 | takes the oldest record exactly when the queue is not empty and its producer has finished; otherwise pending exactly when the queue is not empty |
| SegmentedStorage.LocateCovers | benchmarks/prototypes/record_storage/record_storage.hpp:58-114 | the segment computed for an offset covers it |
| SegmentedStorage.LocateUnique | benchmarks/prototypes/record_storage/record_storage.hpp:58-114 | and is the only one |
| SegmentedStorage.SegmentWrite | benchmarks/prototypes/record_storage/record_storage.hpp:72-99 | writing inside a segment is writing at that place of the flat buffer |
| SegmentedStorage.Storage.constructor | benchmarks/prototypes/record_storage/record_storage.hpp:58-114 | new storage is a flat buffer of zeros |
| SegmentedStorage.Storage.CopyIn | benchmarks/prototypes/record_storage/record_storage.hpp:120-129 | the flat buffer with the bytes written over it, for every layout; each turn makes progress |
| SegmentedStorage.Storage.CopyOut | benchmarks/prototypes/record_storage/record_storage.hpp:131-141 | the bytes of the flat buffer |
| SegmentedStorage.ChargeCovers | benchmarks/prototypes/record_storage/record_storage.hpp:325-359 | the charge is at least the serialized size and at most 16384 |
| SegmentedStorage.ChargeIsSegmentEnd | benchmarks/prototypes/record_storage/record_storage.hpp:334-359 | a segmented record is charged exactly the segments it touches |
| SegmentedStorage.ContiguousChargeAgrees | benchmarks/prototypes/record_storage/record_storage.hpp:325-332 | in one piece the charge is the production charge |

## Left out

- Thread-local registry lookup, kernel identity and lifetime reference counting: plumbing around the slot states.
- libuv calls, opening and statting the file, loop threads, fault injection, joining: foreign I/O.
- Memory orderings, condition variables, wake epochs and timed rechecks: they carry no safety property here.
- The structured in-memory route (src/testing/in_memory_destination.cpp): the same role as the encoded one, without
  frames.
- Logger, macros, levels and configuration messages: single-branch facts. Configuration bounds are preconditions.
- Appending numbers to a message: rendering followed by AppendBytes.
- The prototype record writer over segmented storage, the other ingress prototypes and the benchmark drivers: near
  copies of what is modelled, or measurement.
- Producer and kernel rejection counters and GetSnapshot of the kernel: sums of independent counters.
- WaitForNode and the status PollNode returns: reads of the state the reserve machine describes.
- KernelCalls.Kernel.TryPublishSlot: is stated for a call that other threads do not interrupt; the interleavings are covered by the machine of ProducerKernel.
- KernelCalls.Kernel.TryConsume: is stated for a non-null consumer callback, whose effect is outside the model.
- KernelCalls.Kernel.IsQuiescent: is stated without interference; QuiescenceIsFinal covers the interleaved scan.
- ProducerLanes.Lanes.TryClaimConsumption: is stated without interference; the interleaved scan is covered by OwedScanFindsRecord and EmptyMeansAllAcknowledged.
- RawFileSink.Sink.StoreRaw: takes the encoded frame, under a sequence above all earlier ones; a record that does not encode takes the path of Reset, and StoredRecordEncodes shows it does not occur.
- RawFileSink.Sink.SummarizeInFlight: relates slots to sequences until DiscardInFlight, after which the code does not ask.
- KernelCalls.Kernel.TryRegisterProducer: is stated without interference, where admission cannot close between its two tests; ClaimSlot is stated for both answers.
- ProducerLanes.Lanes.IsProducerDrained: reads flag and positions in one state; Retirement takes the three loads one by one.
- CreditLedger.Ledger.GetSnapshot: samples the counters in one state; SampledSnapshot covers interleaved loads.
- CreditLedger.Ledger.TryReconcileProducer: is stated without interference; the machine covers the interleaved accesses.
- RecordFormat.FieldCursor.Next: is stated for a record whose links match its count, as every published record's do (SealedReads).
- RecordFormat.FieldAt: is stated for such records.
- RawEncoder.RequiredSize: is stated for such records.
- RawEncoder.EncodeRawRecord: is stated for such records.
- FileRoute.ReportsCountTheFile: covers reports made before the worker settles its counts; afterwards the counts stay, while an append the system still held may yet reach the file.
- RuntimeDomain.Domain.RetireCompletedDeliveries: runs over the in-memory route, which has no terminal error; the file route's early return is in the machine of Runtime.
- RuntimeDomain.Domain.BuildReportLocked: requires a watermark at or above the retired count, which the code guarantees for every report it builds (DrainNotOvertaken).
- TryFinishShutdown and the outer loop of Run are steps of the machine of Runtime and have no method.
- MpscRing.Ring.constructor: requires two cells, the condition under which the ring is a queue.
- MpscRing.Ring.TryPublish: is stated without interference, where contention does not arise; ReturnedOk covers the interleaved call and PublishFrom a position that is out of date.
- Ring capacities are not restricted to powers of two, as the remainder is taken instead of a mask.
- RecordStorage.RecordWriter.Publish: its exact condition is stated for limits that are multiples of the quantum, as configurations are; for other limits it promises what a published record holds.
- Update in place of segments, of registrations and of file slots is modelled by reassigning sequences and array cells
  that hold whole records.
