# Models and proofs for five concurrent components

This project models five components in Dafny and proves what they are for:

| component | source | files |
|---|---|---|
| lock-free byte ring, many producers and one consumer | `hw-5/mpsc_queue.cpp` | `Bytes`, `Options`, `RingRecords`, `RingMachine`, `RingSafety`, `RingConsumer`, `RingTheorems`, `RingRuns`, `RingBounds`, `RingStale`, `RingCapacity`, `RingQueue` |
| pool of worker processes | `hw-6/process_pool.cpp`, `hw-6/process_pool.h`, `hw-6/detail.h` | `PoolFraming`, `PoolTasks`, `PoolMachine`, `PoolSafety`, `PoolSteps`, `PoolTheorems`, `PoolGraceful`, `PoolOnce`, `PoolProgress`, `PoolWork`, `PoolFinish`, `PoolTrips`, `ProcessPool` |
| three-state futex mutex | `hw-4/mutex.h` | `Sums`, `FutexMutex` |
| bounded channel | `hw-3/buffered_channel.h` | `BufferedChannel` |
| cooperative depth-first search | `hw-1/dfs.cpp` | `CooperativeDfs` |

Check the whole project with `dafny verify dfyconfig.toml`.

## How it is built

The four concurrent components are each modelled twice, and the two forms are tied together.

* As a state machine: a `State` with one program counter per thread, one `Action` per atomic access, critical section,
  system call or copied byte, `Enabled`, `Apply`, and runs as sequences of actions (`ValidRun`, `Final`). An invariant is
  proved of the first state and of every step, and the main results are read off it for every run, any number of threads
  and every interleaving.
* In the source's own form: a class whose methods loop over and update the source's fields (`RingQueue.RingQueue`,
  `ProcessPool.ProcessPool` with `PoolFraming.Socket`, `FutexMutex.Mutex`, `ChannelBuffer.BufferedChannel`), each method
  proved against the functions the machine uses. `RingQueue` goes further: every call of its `TrySend` and `TryReceive`
  is shown to be a run of the machine, so the machine's invariant holds of the array.

The search runs on one thread; it is a class only, proved against a closed form of its interleaving.

Fields the machines call history (`log`, `stream`, `committed`, `consumed`, `delivered`, `sent` of the ring;
`completions`, `idOf`, `refOf`, `place`, `accepted`, `returned` of the pool; `sent`, `received`, `returned`
of the channel; `swaps`, `wakes` of the mutex) record what happened; no step depends on them. `tasks` of the pool holds
what each submitting thread keeps in its own variables. Some guards also keep an index in range or ask for a well-formed
buffer; the invariants imply them, so they rule out no step of the program.

## Hypotheses

All machines are sequentially consistent, which is what the source's acquire and release orders are there to give.

The ring:

* (a) the buffer size is a multiple of 8 or less than 24 (`RingRecords.Works`). The source accepts every size;
  `RingCapacity.CapacitiesThatWork` proves that the ring works for exactly these. For any other size a padding record is
  written whose length is no multiple of 8, the consumer rounds that length up, and its read position ends inside an
  unread message; `RingCapacity.BadCapacityBreaks` has the run.
* (b) a payload has at most 2^32 - 16 bytes and no message is of type `Padding` (`RingRecords.ValidMessage`).
  `RingRecords.SizeCoversPayload` has the exact bound beyond which the 32-bit size computation fails.
* (c) there is one consumer, and positions do not reach 2^64.
* (d) every reservation fits (`RingMachine.ReservesFit`): the compare-exchange at line 201 succeeds only for a range
  that ends at most the buffer size above `readPos`. `RingTheorems.SafeExactlyIfFit` proves that a run is safe throughout
  if and only if this holds of it. For one producer it always holds (`RingTheorems.OneProducerSnapshots`). With more it
  can fail, because the unsigned subtraction at line 183 wraps when `reservePos` was loaded long after `readPos`:
  `RingStale.StaleSnapshotOverwrites` gives, for every buffer that holds a record, the run that overwrites an unread
  message. So a queue is safe in all its runs if and only if it has no producer, or no room for a record, or one
  producer and a size as in (a): `RingCapacity.SafeAsItIsExactlyIf`. What a producer could check for itself is enough
  though not necessary: that the loaded `reservePos` is at most the buffer size above the loaded `readPos`
  (`RingTheorems.SnapshotsMakeFit`, `RingStale.StaleSnapshotMayFit`). `RingRecords.AdmissionIsExact` shows that the
  free-space test means what it should if and only if that is so.

The pool: task ids and the sizes of what executors produce stay below 2^64; a failed write ends its socket for good; an
executor's result depends on its payload only. Under these a shutdown can hang: `PoolFinish.EveryRunEnds`
proves that, while no worker dies, every run without new tasks comes to an end, and that at its end `Shutdown` has
returned if and only if each worker's Stop is on its socket or its socket still takes it. One failed write is enough to
break this: that of a `Submit`, if the socket takes nothing afterwards (`PoolFinish.FailedWriteHangs`; the source would
still try to write the Stop), or that of the Stop itself, whose exception `Shutdown` swallows
(`PoolFinish.FailedStopHangs`). The source tells success from failure by whether the exception's text is
empty (`hw-6/process_pool.cpp` line 143); `PoolTasks.DeliveryIsExact` says that a future holds what its call produced
if and only if the call did not throw an exception with an empty text.

The search: a graph has at most 2^31 - 1 vertices, so that the source's `int` indices do not wrap.

## Model

The byte ring (`Ring...`), the process pool (`Pool...`, `ProcessPool`), the futex mutex, the bounded channel, the search.

| member | source | states |
|---|---|---|
| RingRecords.AlignUpExact | hw-5/mpsc_queue.cpp:32-34 | The 32-bit computation rounds up to the next multiple of 8, for every value that leaves room for it. |
| RingRecords.SizeCoversPayload | hw-5/mpsc_queue.cpp:170-176 | The record size computed in 32 bits covers header and payload if and only if the payload has at most 2^32 - 16 bytes. |
| RingRecords.PaddingIsSkippedExactly | hw-5/mpsc_queue.cpp:242-253 | The consumer's rounding of a padding record's length gives back that length if and only if it is a multiple of 8. |
| RingRecords.HeaderRoundTrip | hw-5/mpsc_queue.cpp:355-359 | Type and payload size are read back from the header bytes that were written. |
| RingRecords.HeaderLayout | hw-5/mpsc_queue.h:63-66 | The header byte by byte: type, then size, lowest byte first. |
| RingRecords.Placement | hw-5/mpsc_queue.cpp:185-215 | Record geometry, for any capacity and a position at an offset that is a multiple of 8: the cast of the tail space to 32 bits loses nothing, padding ends at the buffer's end, the message behind it does not straddle that end, and the offset behind the record is a multiple of 8 again. |
| RingRecords.WorksSkips | hw-5/mpsc_queue.cpp:242-253 | With a capacity that is a multiple of 8 or less than 24, padding in front of a record that fits together with it is skipped exactly: it is too short for a header, or a multiple of 8. |
| RingRecords.CellsDiffer | hw-5/mpsc_queue.cpp:185 | Two positions less than the capacity apart use different cells. |
| RingRecords.AdmissionIsExact | hw-5/mpsc_queue.cpp:182-196 | With unsigned wrap-around, the free-space test means that the range fits behind the loaded read position if and only if the loaded reserve position is at most the capacity ahead. |
| RingRecords.AdmitsWithin | hw-5/mpsc_queue.cpp:182-196 | Under that condition the test is exactly that the range fits. |
| RingMachine.RunConcat | hw-5/mpsc_queue.cpp:170-390 | Runs compose: a run followed by a run from its last state is a run. |
| RingSafety.TileShape | hw-5/mpsc_queue.cpp:185-215 | Every reservation made in a tiled log is placed as the geometry says and ends at an offset that is a multiple of 8. |
| RingSafety.BoundsGrow | hw-5/mpsc_queue.cpp:198-207 | Reservations lie one behind the other, each at least a header long. |
| RingSafety.AddressIsCell | hw-5/mpsc_queue.cpp:209-215 | The k-th byte of a reservation is stored in the cell of its own absolute position, padding or message. |
| RingSafety.InitInv | hw-5/mpsc_queue.cpp:126-128 | The invariant holds of the empty ring. |
| RingSafety.ReserveOthers | hw-5/mpsc_queue.cpp:201-207 | Reserving a range that fits keeps the invariant: what others own, have written and have loaded is untouched. |
| RingSafety.WritingInside | hw-5/mpsc_queue.cpp:209-215 | A writing producer's range lies between commit and reserve position. |
| RingSafety.RangesDisjoint | hw-5/mpsc_queue.cpp:209-215 | The ranges of two writing producers do not overlap. |
| RingSafety.WriteBytewise | hw-5/mpsc_queue.cpp:242-272 | A byte copied changes no cell of an unread record nor of what another producer has written. |
| RingSafety.WriteInv | hw-5/mpsc_queue.cpp:242-272 | Copying a byte keeps the invariant. |
| RingSafety.PublishIsNext | hw-5/mpsc_queue.cpp:274-286 | The commit position equals the begin of a producer's range if and only if it holds the oldest unpublished reservation. |
| RingSafety.PublishInv | hw-5/mpsc_queue.cpp:274-286 | Publishing keeps the invariant; the published record is complete in the buffer. |
| RingConsumer.StreamAt | hw-5/mpsc_queue.cpp:347-364 | At the first unread record the reserved bytes are a padding header, if there is padding, and then the message's header and payload. |
| RingConsumer.FetchCommitted | hw-5/mpsc_queue.cpp:355-356 | A committed byte is fetched from the buffer as it was reserved. |
| RingConsumer.ShortTail | hw-5/mpsc_queue.cpp:347-353 | In front of an unread record the tail of the buffer is too short for a header exactly if the gap written there is, and the tail is then that gap. |
| RingConsumer.ShortTailInv | hw-5/mpsc_queue.cpp:347-353 | Jumping over a tail too short for a header keeps the invariant and leads to the message behind it. |
| RingConsumer.ParseDecodes | hw-5/mpsc_queue.cpp:355-369 | A parsed header is either that of padding, with the next record right behind it and no earlier jump in this call, or the message's own type and size; the record is committed whole. |
| RingConsumer.BodyByte | hw-5/mpsc_queue.cpp:373-385 | Each byte the consumer copies is the payload's byte at that index. |
| RingConsumer.FinishInv | hw-5/mpsc_queue.cpp:387-388 | The final store of the read position consumes exactly one message and keeps the invariant. |
| RingConsumer.StepInv | hw-5/mpsc_queue.cpp:170-390 | Every step keeps the invariant, given that a reservation fits and padding is skipped exactly. |
| RingConsumer.RunInv | hw-5/mpsc_queue.cpp:170-390 | So does every run of such steps. |
| RingConsumer.FitRun | hw-5/mpsc_queue.cpp:170-390 | With a capacity that works it is enough that every reservation of the run fits. |
| RingTheorems.RingIsSafe | hw-5/mpsc_queue.cpp:178-219 | After every run whose reservations fit: `readPos <= commitPos <= reservePos <= readPos + bufferSize`, all three at offsets that are multiples of 8; all positions in between have cells of their own; in-flight reservations tile `[commitPos, reservePos)` and have one owner each; the read position is in front of a record; every committed unread record decodes from the buffer to what its producer wrote; what was delivered is what is wanted of what was consumed. |
| RingTheorems.SafeExactlyIfFit | hw-5/mpsc_queue.cpp:178-219 | For any run of any number of producers: all its states are safe in that sense if and only if every successful compare-exchange reserves a range that ends at most the buffer size above the read position. |
| RingTheorems.SnapshotsMakeFit | hw-5/mpsc_queue.cpp:179-196 | Every reservation fits whenever each reserve position loaded is at most the buffer size above the read position loaded before it. |
| RingTheorems.WritesStayInside | hw-5/mpsc_queue.cpp:209-215 | In every run each byte stored belongs to the producer's own in-flight range and goes to the cell of its position. |
| RingTheorems.OneProducerSnapshots | hw-5/mpsc_queue.cpp:179-183 | With one producer every run is of that kind: loaded positions are close enough and every reservation fits. |
| RingTheorems.PublishEnqueues | hw-5/mpsc_queue.cpp:274-286 | The compare-exchange on `commitPos` appends the producer's message to the abstract queue. |
| RingTheorems.FinishDequeues | hw-5/mpsc_queue.cpp:371-388 | The final store of `readPos` removes the head, and delivers it, type and payload, exactly if it is a Stop or of the type asked for, or All was asked for. |
| RingTheorems.StepRefinesQueue | hw-5/mpsc_queue.cpp:170-390 | FIFO refinement: every step is an enqueue, a dequeue or invisible to a plain queue of messages. |
| RingTheorems.DeliveryIsFifo | hw-5/mpsc_queue.cpp:338-401 | Over every run the messages delivered are, in commit order and byte for byte, exactly those of the consumed prefix that are Stops or of the type asked for, or all of them if All was asked for. |
| RingTheorems.ProducerOrder | hw-5/mpsc_queue.cpp:170-240 | Each producer's messages are committed in its own order, none missing and no other. |
| RingTheorems.ConsumerLoopBound | hw-5/mpsc_queue.cpp:339-389 | In every run `TryReceive` jumps at most once, never exits as empty after a jump, and never takes the not-committed branch; the short-tail branch it takes only if the buffer size is no multiple of 8. |
| RingTheorems.NextPublisherIsUnique | hw-5/mpsc_queue.cpp:274-286 | While something is unpublished exactly one producer owns the range at `commitPos`. |
| RingTheorems.InFlightBalance | hw-5/mpsc_queue.cpp:198-219 | Over any stretch of a run reservations in flight change by successful reservations less publications. |
| RingRuns.CopyRest | hw-5/mpsc_queue.cpp:209-215 | A producer that owns a range can finish copying it, and changes no other cell. |
| RingRuns.PublishNext | hw-5/mpsc_queue.cpp:274-286 | The oldest reservation in flight can always be published. |
| RingRuns.Drain | hw-5/mpsc_queue.cpp:274-286 | k reservations in flight drain after exactly k publications. |
| RingRuns.RunsCanDrain | hw-5/mpsc_queue.cpp:274-286 | So after every run. |
| RingRuns.DrainingEnds | hw-5/mpsc_queue.cpp:209-286 | Every run of copies and publications is bounded by the bytes left plus the ranges in flight, which fall by one with each step; it publishes no more than was in flight; and one that cannot be continued has published everything. |
| RingRuns.SendTrip | hw-5/mpsc_queue.cpp:170-220 | From any state with nothing in flight and room for it, a message can be sent; the whole new state. |
| RingRuns.ReceiveTrip | hw-5/mpsc_queue.cpp:338-390 | From any state with an unread message one `TryReceive` consumes exactly the head; the whole new state. |
| RingBounds.AdmittedExactly | hw-5/mpsc_queue.cpp:178-196 | On an empty queue a record is admitted if and only if it fits in the tail, or tail and record together fit in the buffer. |
| RingBounds.EmptyQueueAdmits | hw-5/mpsc_queue.cpp:172-196 | An empty queue admits an aligned size m at every position if and only if `2 * m - 8 <= bufferSize`; for any buffer size. |
| RingBounds.ReachPosition | hw-5/mpsc_queue.cpp:170-390 | From an empty quiet queue the position 8 * k further is a reachable empty one, if an empty message fits the tail at each position on the way. |
| RingBounds.StarvedForever | hw-5/mpsc_queue.cpp:194-226 | In a starved state no further run that sends only messages of that size admits any: `Send` waits forever. |
| RingBounds.TooLargeStarves | hw-5/mpsc_queue.cpp:172-226 | For every buffer size and every message that fits but is larger than the bound there is a run to such a state. |
| RingStale.Filled | hw-5/mpsc_queue.cpp:170-390 | For every buffer that holds a record: a run to a full queue, one message read, with another producer still holding the read position 0. |
| RingStale.StaleReserve | hw-5/mpsc_queue.cpp:179-207 | From there that producer's free-space test wraps around and its reservation succeeds; it fits if and only if the rest has been read in the meantime. |
| RingStale.StaleSnapshotOverwrites | hw-5/mpsc_queue.cpp:179-207 | For every buffer that holds a record and two or more producers: a run that reserves past the capacity and overwrites an unread message. |
| RingStale.StaleSnapshotMayFit | hw-5/mpsc_queue.cpp:179-207 | And one in which the loaded positions are too far apart and yet every reservation fits. |
| RingCapacity.BadPadding | hw-5/mpsc_queue.cpp:185-196 | From 24 bytes on, a size that is no multiple of 8 has an offset where a record of 16 bytes is admitted behind padding that is not skipped exactly. |
| RingCapacity.JumpsTooFar | hw-5/mpsc_queue.cpp:359-365 | There the consumer jumps by the padding's length rounded up. |
| RingCapacity.BadCapacityBreaks | hw-5/mpsc_queue.cpp:338-390 | For each such size a run, of reservations that fit, after which the read position is inside an unread message. |
| RingCapacity.CapacitiesThatWork | hw-5/mpsc_queue.cpp:112-128 | The ring is safe in every run whose reservations fit if and only if the buffer size is a multiple of 8 or less than 24. |
| RingCapacity.OneProducerWorks | hw-5/mpsc_queue.cpp:112-128 | With one producer it is safe in every run at all, for exactly those sizes. |
| RingCapacity.SafeAsItIsExactlyIf | hw-5/mpsc_queue.cpp:112-207 | The queue is safe in every run at all if and only if it has no producer, or its buffer holds no record, or it has one producer and a size that is a multiple of 8 or less than 24. |
| RingQueue.PaddingInBuffer | hw-5/mpsc_queue.cpp:355-369 | Between calls, at a padding record, the header found in the array is that of padding and leads to the message behind it. |
| RingQueue.MessageInBuffer | hw-5/mpsc_queue.cpp:371-388 | Between calls, at a message, the array holds its header and payload without a wrap. |
| RingQueue.CellOfContent | hw-5/mpsc_queue.cpp:209-215 | Each byte of a committed unread reservation is at the address the source computes for it. |
| RingQueue.SendTripWrites | hw-5/mpsc_queue.cpp:209-218 | A whole send of the machine leaves the buffer that copying padding record and message record leaves. |
| RingQueue.RingQueue.constructor | hw-5/mpsc_queue.cpp:126-128 | An empty ring over a buffer of the given size. |
| RingQueue.RingQueue.WritePaddingRecord | hw-5/mpsc_queue.cpp:242-253 | The array afterwards, everywhere. |
| RingQueue.RingQueue.WriteMessageRecord | hw-5/mpsc_queue.cpp:255-272 | The array afterwards, everywhere. |
| RingQueue.RingQueue.CompareExchangeReserve | hw-5/mpsc_queue.cpp:201-207 | Sets the reserve position if and only if it was as expected and the exchange did not fail spuriously. |
| RingQueue.RingQueue.PublishReservedRange | hw-5/mpsc_queue.cpp:274-286 | Whatever commit positions other producers let it find and whichever exchanges fail spuriously, it publishes at the first that finds its range's begin and does not fail, setting the commit position to the range's end, and never before. |
| RingQueue.RingQueue.WriteReserved | hw-5/mpsc_queue.cpp:209-215 | Padding record and message record are both in the reserved range, and nothing else changes. |
| RingQueue.RoomExactly | hw-5/mpsc_queue.cpp:170-196 | The room a message takes, spelled out: header and payload rounded up to 8, and the tail if that is too short for them. |
| RingQueue.RingQueue.TrySend | hw-5/mpsc_queue.cpp:170-220 | For any buffer size: which of the three results it gives, exactly; the waiting messages grow by the one sent or nothing changes; the call is a run of the machine. |
| RingQueue.RingQueue.TryReceive | hw-5/mpsc_queue.cpp:338-390 | For the buffer sizes that work: none and no change on an empty queue; otherwise exactly the head is consumed, and returned exactly if it is a Stop or of the type asked for, or All was asked for; the call is a run of the machine. |
| RingQueue.RingQueue.Receive | hw-5/mpsc_queue.cpp:392-401 | Consumes the messages nobody asked for up to the first that is a Stop or of the type asked for (any, for All), and returns that; everything behind it stays. With no such message the queue ends empty. |
| PoolFraming.WireSplit | hw-6/detail.h:26-44 | Frame k occupies the wire right behind the frames before it. |
| PoolFraming.NeededOfPrefix | hw-6/process_pool.cpp:120-133 | A receiver that holds part of a frame wants the rest of its header, then the rest of its body, and no more. |
| PoolFraming.ReadOk | hw-6/detail.h:49-70 | However little a read returns, the receiver stays inside the frame it is reading. |
| PoolFraming.FrameComplete | hw-6/process_pool.cpp:169-179 | When nothing more is needed the receiver holds exactly the next frame that was sent. |
| PoolFraming.Decode | hw-6/process_pool.cpp:119-133 | Only well-formed frames come out of a stream. |
| PoolFraming.DecodeFirst | hw-6/process_pool.cpp:119-133 | A frame comes off the front of a stream if and only if the stream holds it whole. |
| PoolFraming.DecodeRoundTrip | hw-6/process_pool.cpp:119-133 | A stream of frames cut off anywhere decodes to exactly the frames it holds whole; uncut, to all of them. |
| PoolFraming.Socket.constructor | hw-6/process_pool.cpp:76-88 | A fresh socket carries nothing. |
| PoolFraming.Socket.WriteExact | hw-6/detail.h:26-44 | Under any script of short writes, interruptions and errors: all bytes are written, in order, unless a call it made failed or returned zero, and then exactly those the calls before it moved; an interrupted call is made again. |
| PoolFraming.Socket.ReadExact | hw-6/detail.h:49-70 | Under any script: exactly the bytes asked for, or end of file with fewer left, or a failure, at a call that failed and nowhere else, with what was moved before it consumed; never a byte too many. |
| PoolTasks.PayloadRoundTrip | hw-6/detail.h:98-117 | `AppendBytes` then `ReadValue` rebuilds function and arguments, with the offset equal to the size. |
| PoolTasks.ReadValuesExactly | hw-6/detail.h:106-117 | The reads succeed if and only if the data is long enough, and end at the sum of the sizes. |
| PoolTasks.ExecutesWhatWasSubmitted | hw-6/process_pool.h:213-249 | The executor calls the very function with the very arguments that `Submit` serialised. |
| PoolTasks.ExecutorRefusesOtherSizes | hw-6/process_pool.h:219-232 | A payload that is too short or too long is refused, each with its own text. |
| PoolTasks.TaskFrameRoundTrip | hw-6/process_pool.h:36-41 | Command, id, executor and size are read back from a request header. |
| PoolTasks.ResultFrameRoundTrip | hw-6/process_pool.h:44-48 | Id, status and size are read back from a response header. |
| PoolTasks.AnswerDelivers | hw-6/process_pool.cpp:140-157 | Whatever the worker answers, the reader completes the future of the same id with what the executor left. |
| PoolTasks.DeliveryIsExact | hw-6/process_pool.cpp:143-157 | A future holds what the call produced if and only if the call did not throw an exception with an empty text. |
| PoolTasks.EmptyTextLooksLikeSuccess | hw-6/process_pool.cpp:143 | With an empty text a void call that threw looks as if it had succeeded. |
| PoolSafety.InitInv | hw-6/process_pool.cpp:9-24 | The invariant holds of a fresh pool. |
| PoolSafety.LockOk | hw-6/process_pool.h:314-320 | A frame is queued behind all complete frames when its writer holds the `write_mutex`. |
| PoolSafety.WritePieceOk | hw-6/detail.h:31-43 | A partial write keeps the stream a beginning of the queued frames. |
| PoolSafety.ExecuteOk | hw-6/process_pool.cpp:119-158 | The worker takes the next frame sent: it leaves at a Stop, and otherwise sets out to send the answer to that very task. |
| PoolSafety.AnswerFound | hw-6/process_pool.cpp:169-185 | The response a reader has read whole is the answer to a task whose id was drawn for its own reference. |
| PoolSteps.SettleRefs | hw-6/process_pool.h:58-115 | Completing one task settles its own shared state and no other. |
| PoolSteps.DrawIdInv | hw-6/process_pool.h:274 | Drawing an id keeps the invariant; the id is new, to the ids drawn and to the handlers. |
| PoolSteps.RegisterInv | hw-6/process_pool.h:278-281 | Registering a handler keeps the invariant: each handler is in one place. |
| PoolSteps.TestStoppingInv | hw-6/process_pool.h:301-309 | The test accepts exactly the caller's own task, which is registered by then, and chooses the worker whose turn it is; none once the pool is stopping; it keeps the invariant. |
| PoolSteps.LockWriterInv | hw-6/process_pool.h:314-320 | The frame a thread sets out to send is that of its own task. |
| PoolSteps.LookUpMovesOne | hw-6/process_pool.cpp:181-190 | Looking up the response's id moves exactly its handler, if there is one, from `pending_` to the reader, and no other. |
| PoolSteps.CompletesInv | hw-6/process_pool.cpp:192-197 | The reader completes that handler's shared state with its own task's result, for the first time. |
| PoolSteps.SwapsInv | hw-6/process_pool.cpp:204-209 | When `pending_` is swapped out every accepted handler is completed or among those swapped out. |
| PoolSteps.FailsOneInv | hw-6/process_pool.cpp:211-214 | Each handler swapped out fails its own shared state, for the first time. |
| PoolTrips.SubmitTrip | hw-6/process_pool.h:252-324 | From every reachable state a thread that nobody is in the way of can make a whole Submit: future returned, handler registered under the new id, the frame whole on the socket of exactly the worker in turn, as the method of the class does. |
| PoolTheorems.StepInv | hw-6/process_pool.cpp:32-215 | Every step of any thread keeps the invariant. |
| PoolTheorems.RunInv | hw-6/process_pool.cpp:32-215 | So does every run. |
| PoolTheorems.FuturesComplete | hw-6/process_pool.cpp:32-72 | In every run each future is completed at most once, and is ready exactly when it was; when `Shutdown` has returned every future that any `Submit` returned or still will return is ready. |
| PoolTheorems.LeftoversWereRefused | hw-6/process_pool.h:278-305 | What is left in `pending_` after a shutdown belongs only to tasks whose `Submit` did not pass its test. |
| PoolTheorems.ResultsAreRouted | hw-6/process_pool.cpp:117-201 | Whichever worker served a task and however responses interleave, a ready future holds its own task's result if a reader completed it, and otherwise the shutdown's error after the swap. |
| PoolTheorems.CallsComeBack | hw-6/process_pool.h:252-324 | End to end: a future completed by a reader holds the value or text of the call that its own `Submit` serialised, exactly unless that text is empty. |
| PoolTheorems.SocketsKeepFrames | hw-6/process_pool.h:314-320 | Frames of different threads never mix, and the worker has taken exactly the frames sent first, no Stop among them, and queued the answer to each. |
| PoolGraceful.EofIsTheEnd | hw-6/process_pool.cpp:171-179 | A reader that sees the end of a complete stream has taken every answer. |
| PoolGraceful.CalmExecutes | hw-6/process_pool.cpp:125-127 | A worker leaves its loop only at a Stop, with every answer sent. |
| PoolGraceful.RunCalm | hw-6/process_pool.cpp:117-201 | If no worker dies and no reader errs, that holds over every run, and every answer taken has used its handler. |
| PoolGraceful.QueuedTasksFinish | hw-6/process_pool.cpp:32-72 | Then after `Shutdown` every task whose request lies ahead of its worker's first Stop has its own result in its future. |
| PoolOnce.TasksRunAtMostOnce | hw-6/process_pool.h:301-320 | In every run a task is sent at most once, on one socket, so it is executed at most once; a future completed by a reader belongs to a request that was executed. |
| PoolOnce.StopParts | hw-6/process_pool.cpp:32-72 | A graceful shutdown parts the requests exactly: a task's future holds its result if and only if no Stop lies ahead of its request, and the shutdown's error otherwise. |
| PoolProgress.ExitHasStop | hw-6/process_pool.cpp:125-127 | A worker that leaves its loop has the Stop on its socket whole. |
| PoolProgress.StepSane | hw-6/process_pool.cpp:32-72 | Every step in which no worker dies and no reader errs keeps: who holds a `write_mutex` is writing there, and every socket `Shutdown` is done with has the Stop or was given up. |
| PoolProgress.StuckStays | hw-6/process_pool.cpp:37-46 | A socket given up before its Stop was written never gets it. |
| PoolProgress.StuckForever | hw-6/process_pool.cpp:48-52 | Then in no continuation does `Shutdown` return: it joins a reader that waits for ever. |
| PoolWork.WorkFalls | hw-6/process_pool.cpp:32-215 | Every step but the making of a new task lowers the work there is: bytes to write and to read, requests to execute, answers to deliver, steps of threads under way. So do failures and deaths. |
| PoolWork.WorkBounds | hw-6/process_pool.cpp:32-215 | So a run without new tasks has at most as many steps as there was work, whatever fails. |
| PoolFinish.NextStep | hw-6/process_pool.cpp:32-72 | Where each Stop has arrived or can, `Shutdown`, or the thread or worker it waits for, has a step that fails nothing, until it has returned. |
| PoolFinish.SettlingEnds | hw-6/process_pool.cpp:32-72 | So every run from there without new tasks and failures is bounded, and if it cannot be continued `Shutdown` has returned. |
| PoolFinish.CanFinish | hw-6/process_pool.cpp:32-72 | From every reachable state in which each Stop has arrived or can, `Shutdown` can be brought to its end. |
| PoolFinish.ShutdownEndsExactlyIf | hw-6/process_pool.cpp:32-72 | After any run in which no worker died and no reader erred, `Shutdown` can still return if and only if each worker's Stop is on its socket or its socket has not been given up. |
| PoolFinish.EveryRunEnds | hw-6/process_pool.cpp:32-72 | And it does, not only can: every continuation of that kind without new tasks, whatever writes fail, is bounded by the work; when nothing is left to do `Shutdown` has returned if and only if that condition holds then. |
| PoolFinish.DeathsFreeShutdown | hw-6/process_pool.cpp:48-72 | With deaths and errors allowed every run without new tasks is bounded too, and when nothing more can happen `Shutdown` has returned: only a worker that lives can hold it up. |
| PoolFinish.FailedWriteHangs | hw-6/process_pool.h:308-320 | One `Submit` whose write fails, on any pool and for any task, is enough that `Shutdown` never returns while the worker lives, given that the socket takes nothing afterwards; the source would still try to write the Stop there. |
| PoolFinish.FailedStopHangs | hw-6/process_pool.cpp:37-52 | A Stop whose own write fails is swallowed, and is enough that `Shutdown` never returns while the worker lives; no other Stop is ever sent. |
| ProcessPool.LoopsDeliver | hw-6/process_pool.cpp:117-201 | The worker's loop and the reader's loop one after the other deliver to each registered task its own result, use up exactly those handlers and touch no other future. |
| ProcessPool.OwedNext | hw-6/process_pool.cpp:119-157 | What a worker owes on a stream is the reply to its first request and then what it owes on the rest. |
| ProcessPool.OwedExactly | hw-6/process_pool.cpp:117-157 | What it owes, spelled out: one reply to each whole request before the first Stop, in order. |
| ProcessPool.SendFrame | hw-6/process_pool.h:314-320 | Header and body are written whole, or a proper beginning of them; whole if no call fails. |
| ProcessPool.ReceiveBody | hw-6/process_pool.cpp:129-133 | The body a header announces, also if it is empty; a failure only if a call fails. |
| ProcessPool.ExecuteAndAnswer | hw-6/process_pool.cpp:135-157 | One of three responses, which is the answer the reader expects, whole if no call fails. |
| ProcessPool.WorkerLoop | hw-6/process_pool.cpp:117-164 | Under any script of short reads and writes the worker writes the answers to its requests up to the first Stop, behind whose header it reads nothing, or the last whole one; or a beginning of that if it ends by an exception, which it does only if a call fails. |
| ProcessPool.Serialise | hw-6/process_pool.h:284-287 | The payload is the function and the arguments in order. |
| ProcessPool.MakePool | hw-6/process_pool.cpp:9-24 | Fails if and only if asked for no worker; otherwise fresh, distinct, empty sockets for each. |
| ProcessPool.ProcessPool.RegisterHandler | hw-6/process_pool.h:271-281 | A new shared state, a new id, and the handler that ties them. |
| ProcessPool.ProcessPool.Submit | hw-6/process_pool.h:252-324 | The whole new state: counter, handlers, futures, the next worker in turn, and the bytes on exactly one socket; it throws only if the pool is stopping or a call fails, and then the handler stays behind. |
| ProcessPool.ProcessPool.ReaderLoop | hw-6/process_pool.cpp:167-201 | Handlers and futures are those after taking in the responses one by one, all of them unless it ends by an exception, which it does only if a call fails. |
| ProcessPool.ProcessPool.HandleResponse | hw-6/process_pool.cpp:181-197 | One response: its handler is removed and completes its future, with the exception's text, nothing for void, the value, or the error for a value of the wrong size; no other future changes, and nothing does if there is no handler. |
| ProcessPool.ProcessPool.FailAllPending | hw-6/process_pool.cpp:204-215 | `pending_` is empty, exactly the futures of its handlers have failed with the reason, and no other has changed. |
| ProcessPool.ProcessPool.SendStops | hw-6/process_pool.cpp:38-46 | Each worker gets its Stop, whole if no call on its own socket fails. |
| ProcessPool.ProcessPool.Shutdown | hw-6/process_pool.cpp:32-72 | The first call sends each worker a Stop, whole if no call on its socket fails and whatever happens to the others, and fails exactly what is pending; a later call changes nothing. |
| FutexMutex.InitInv | hw-4/mutex.h:20 | The invariant holds of a free mutex and threads about to lock. |
| FutexMutex.StepSums | hw-4/mutex.h:22-46 | Every step keeps: the word is nonzero exactly when one thread owns the lock, every wake is paid for by an exchange for 2, no increment is lost. |
| FutexMutex.StepSleepers | hw-4/mutex.h:31-35 | Every step keeps each sleeper accounted for. |
| FutexMutex.RunInv | hw-4/mutex.h:22-46 | So does every run. |
| FutexMutex.MutualExclusion | hw-4/mutex.h:22-46 | In every run, for any number of threads, the word is nonzero if and only if some thread owns the lock, and owners are unique. |
| FutexMutex.SleepersAreCovered | hw-4/mutex.h:22-46 | No lost wakeup: with a thread asleep the word is 2 and an owner exists, or an unlocker still owes its wake, or an awake thread is about to exchange the word for 2. |
| FutexMutex.WakesAreBounded | hw-4/mutex.h:28-45 | Wakes never exceed the exchanges for 2. |
| FutexMutex.CounterIsExact | hw-4/mutex.h:22-46 | N threads that each lock, load, add, store and unlock k times leave N * k, on every complete run. |
| FutexMutex.Advance | hw-4/mutex.h:22-46 | In every unfinished state some thread has a step, not a spurious return, that brings the end closer. |
| FutexMutex.EveryRunCanFinish | hw-4/mutex.h:22-46 | Never stuck: every run extends, without spurious returns, to a complete one. |
| FutexMutex.Mutex.constructor | hw-4/mutex.h:20 | The word starts free. |
| FutexMutex.LockActions | hw-4/mutex.h:22-46 | The atomic actions of Lock and Unlock one by one, on a word of any value. |
| FutexMutex.Mutex.CompareExchangeStrong | hw-4/mutex.h:25 | Succeeds if and only if the word was as expected. |
| FutexMutex.Mutex.Exchange | hw-4/mutex.h:28 | Returns the old word and stores the new one. |
| FutexMutex.Mutex.Lock | hw-4/mutex.h:22-37 | Whatever other threads do to the word between its actions, the loop does what the machine does; it returns only as owner, having found the word 0 and left it 1, or 2 if it had to wait. |
| FutexMutex.Mutex.FutexWait | hw-4/mutex.h:6-10 | Sleeps only if it finds the word 2, and then needs a wake. |
| FutexMutex.Mutex.Unlock | hw-4/mutex.h:40-46 | Frees the word, and owes a wake exactly when it was 2. |
| ChannelBuffer.PushAppends | hw-3/buffered_channel.h:41-43 | Storing at `tail` appends one value behind the others and keeps `tail == (head + size) % capacity`. |
| ChannelBuffer.PopRemovesFirst | hw-3/buffered_channel.h:61-63 | Taking at `head` removes exactly the oldest value. |
| ChannelBuffer.BufferedChannel.constructor | hw-3/buffered_channel.h:25-27 | An open, empty channel of the given capacity, at least 1. |
| ChannelBuffer.BufferedChannel.Send | hw-3/buffered_channel.h:29-46 | Waits, throws or appends, exactly when; the whole new state. |
| ChannelBuffer.BufferedChannel.Recv | hw-3/buffered_channel.h:48-68 | Waits, ends or takes the oldest value, exactly when; the whole new state. |
| ChannelBuffer.BufferedChannel.Close | hw-3/buffered_channel.h:70-78 | Closes, and notifies only the first time. |
| ChannelMonitor.InitInv | hw-3/buffered_channel.h:25-27 | The invariant holds of a fresh channel. |
| ChannelMonitor.StepLocking | hw-3/buffered_channel.h:29-78 | Every step keeps: exactly the holder of the mutex is inside it. |
| ChannelMonitor.CheckSendCounts | hw-3/buffered_channel.h:32-43 | A Send that passes its test keeps the values in order and owes a notification. |
| ChannelMonitor.CheckRecvCounts | hw-3/buffered_channel.h:51-63 | The same for a Recv. |
| ChannelMonitor.NotifyOneMoves | hw-3/buffered_channel.h:45-66 | `notify_one` trades an owed notification for a woken thread of the kind it is owed to. |
| ChannelMonitor.NotifyAllCloseWakes | hw-3/buffered_channel.h:76-77 | `notify_all` leaves nobody asleep on its condition variable. |
| ChannelMonitor.StepInv | hw-3/buffered_channel.h:29-78 | Every step of any thread keeps the invariant. |
| ChannelMonitor.ChannelIsFifo | hw-3/buffered_channel.h:40-68 | In every run the values sent are the values received followed by the buffered ones. They are exactly the values of the Sends that returned normally or have still to notify, and those received exactly what Recvs returned or are about to. A Send throws only when closed, a Recv returns nullopt only when closed and drained. |
| ChannelMonitor.SendTakesEffect | hw-3/buffered_channel.h:32-43 | A Send under the mutex: with room on an open channel its value goes behind the others; on a closed one it throws and changes nothing; otherwise it falls asleep. |
| ChannelMonitor.RecvTakesEffect | hw-3/buffered_channel.h:51-63 | A Recv under the mutex: it takes the oldest value if there is one, closed or not; otherwise nullopt if closed, and sleep if not. |
| ChannelMonitor.CloseTakesEffect | hw-3/buffered_channel.h:70-74 | A Close under the mutex closes the channel, and goes on to wake everybody unless it was closed before. |
| ChannelMonitor.StepLedger | hw-3/buffered_channel.h:29-78 | Every step keeps: each value sent has one Send that returned normally or has still to notify, each value received one such Recv. |
| ChannelMonitor.EveryCallComesBack | hw-3/buffered_channel.h:29-78 | In every run each thread's calls come back in the order it began them, each exactly once and as the call it was; only the one it is inside is still out. |
| ChannelMonitor.NoSendAfterClose | hw-3/buffered_channel.h:36-38 | Once closed, no Send takes effect in any continuation. |
| ChannelMonitor.EndIsFinal | hw-3/buffered_channel.h:55-58 | Once a Recv has returned nullopt, no continuation sends or receives a value. |
| ChannelMonitor.SleepersAreCovered | hw-3/buffered_channel.h:29-78 | No lost wakeup: while open, a sleeping receiver means each buffered value is matched by an owed notification or a woken receiver, symmetrically for senders and free slots; once closed, a sleeper means the closer still owes its `notify_all`. |
| ChannelMonitor.NoDeadlock | hw-3/buffered_channel.h:29-78 | If no thread inside a call can move, the channel is open, and empty with only receivers waiting or full with only senders waiting. |
| DfsFrames.FrameStepAt | hw-1/dfs.cpp:160-204 | One resume of a coroutine is the next entry of the closed form, or the exception at a bad edge, given that all vertices were entered in round 1. |
| DfsFrames.NextRound | hw-1/dfs.cpp:108-130 | A round that has nobody left is the start of the next, with the live coroutines queued in ascending order. |
| DfsFrames.Front | hw-1/dfs.cpp:110-111 | The front of the ready queue is the next vertex of the round. |
| DfsFrames.Advance | hw-1/dfs.cpp:113-128 | Resuming it moves queue, frames, vectors and log one place on in the closed form. |
| DfsFrames.LedgerAt | hw-1/dfs.cpp:117-128 | Every frame is either queued once and intact, or destroyed once. |
| DfsFrames.NeverDescends | hw-1/dfs.cpp:176-203 | No stack is ever deeper than one, and the branch that enters an unvisited target is never taken. |
| DfsFrames.AtEnd | hw-1/dfs.cpp:206-221 | With the queue empty the graph was valid, the order is 0 to n-1, the log is the whole closed form, and the resumes were edges plus 3n. |
| DfsFrames.BadEdgeIsFirst | hw-1/dfs.cpp:189-191 | The edge at which the run throws is the first bad one in the order of the run. |
| DfsLog.LogUpto | hw-1/dfs.cpp:160-204 | At every position of a run each coroutine has logged the events of its turns so far, and all events are in the order of rounds and, in a round, of vertices. |
| DfsLog.WholeLog | hw-1/dfs.cpp:160-204 | The whole log: of every vertex its entry, its edges in order and its exit, interleaved round by round. |
| CooperativeDfs.Scheduler.Spawn | hw-1/dfs.cpp:97-102 | One more frame, queued at the end. |
| CooperativeDfs.Scheduler.Schedule | hw-1/dfs.cpp:104-106 | The handle goes to the end of the queue. |
| CooperativeDfs.Scheduler.Destroy | hw-1/dfs.cpp:120-128 | A frame is destroyed at most once. |
| CooperativeDfs.Scheduler.Resume | hw-1/dfs.cpp:160-204 | The body of the coroutine between two suspensions, on the shared vectors, is `FrameStep`; a destroyed or finished frame is never resumed. |
| CooperativeDfs.Scheduler.RunOne | hw-1/dfs.cpp:110-128 | One turn of the loop: throws exactly at a bad edge, otherwise advances the closed form by one. |
| CooperativeDfs.Scheduler.Run | hw-1/dfs.cpp:108-130 | Ends with an empty queue at the end of the closed form, or throws at the first bad edge. |
| CooperativeDfs.Scheduler.DestroyQueued | hw-1/dfs.cpp:86-95 | After it every frame was destroyed exactly once. |
| CooperativeDfs.Search | hw-1/dfs.cpp:206-221 | Returns 0 to n-1 if and only if every edge is in range, after a log that holds of every vertex its entry, its edges in order and its exit, interleaved round by round, and exactly edges + 3n resumes; otherwise throws at the first bad edge with the log up to it; every frame is destroyed exactly once either way. |
| CooperativeDfs.StartPosition | hw-1/dfs.cpp:213-217 | The spawned coroutines are the start of round 1. |

## Left out

- The ring's shared memory, its creation, header and reference counts (`hw-5/mpsc_queue.cpp` lines 36-168 and 288-336): operating-system plumbing; the model starts in the ready state with all positions 0.
- Weak memory: all steps are sequentially consistent.
- Positions of the ring and task ids of the pool that reach 2^64; the wrap at line 183 of the ring is modelled.
- `SendText`, `SendNumber`, `SendStop`, `BytesToString`, `BytesToInt64` and the yield between tries of `Send` and `Receive`: thin wrappers.
- RingQueue.RingQueue.PublishReservedRange: the other producers are an oracle for the commit position each compare-exchange finds; how they produce it is in the machine.
- RingQueue.RingQueue.TrySend: for messages of hypothesis (b); the source also takes longer payloads, whose size it computes wrongly as `SizeCoversPayload` shows. Calls do not overlap; overlapping calls are in the machine.
- RingQueue.RingQueue.TryReceive: for the buffer sizes of hypothesis (a); what happens for the others is in `RingCapacity`.
- RingQueue.RingQueue.Receive: None stands for the source's waiting on a queue without a wanted message; buffer sizes as for TryReceive.
- RingTheorems.RingIsSafe: under hypotheses (a) and (d), which `CapacitiesThatWork` and `SafeExactlyIfFit` prove to be exact.
- ChannelBuffer.BufferedChannel.Send: where the source would sleep, the class reports that and changes nothing; sleeping, waking and the mutex are in `ChannelMonitor`.
- ChannelBuffer.BufferedChannel.Recv: as Send; a value moved out of its slot is still in the slot in the model.
- FutexMutex.Mutex.Lock: the other threads are an oracle for the word each atomic action finds; how they produce it is in the machine.
- FutexMutex.Mutex.FutexWait: a wake and a spurious return are one kind of event of the oracle; the machine keeps them apart.
- ProcessPool.ProcessPool.Submit: one call at a time, with `read` and `write` scripted; interleaving and the two mutexes are in `PoolMachine`.
- ProcessPool.ProcessPool.Shutdown: joins readers that have already run; waiting for them is in `PoolMachine`.
- ProcessPool.ProcessPool.ReaderLoop: reads a stream that does not grow meanwhile.
- ProcessPool.WorkerLoop: as ReaderLoop.
- `fork`, `socketpair`, `waitpid`, closing and reuse of descriptors, SIGPIPE and the casts of function pointers in hw-6: a worker is a function of its payload and a socket a byte stream with an end.
- A task's executor that never returns or kills its worker: the machine lets a worker die at any step, but execution itself is one step.
- `hw-6/future.h`: waiting on a future; the model has only whether it is ready and with what.
- Bytes between the fields of the pool's headers are zero, as value-initialised structs leave them here; integers are little-endian and pointers 8 bytes.
- Fairness and time: the mutex's progress is stated as the existence of a continuation; the ring's draining and the pool's shutdown as a bound on every run and what holds at its end.
- CooperativeDfs.Search: for at most 2^31 - 1 vertices; the log is always kept, a null stream only drops it.
- `hw-2`, `hw-4/mutex.cpp`, the demo programs, benchmarks and build files: easier than the rest, or system calls.
