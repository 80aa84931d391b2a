# Frame Processor: a verified model

Frame Processor takes RTSP streams, thins and transforms their frames, batches them per stream and event, and
publishes the batches to Redis. This project models the logic around the FFmpeg and Redis calls and proves what the
parts promise together.

| modules | what they model |
|---|---|
| `Queues`, `Monitor` | the stoppable queue: its class, and its condition variable as a step system with sleeping and woken waiters |
| `Chunking`, `FrameFormat`, `Blob`, `Batcher` | the batcher: greedy batches per key, the stride-removing row loops, the byte format with the documented reader as its inverse, the imperative loop over the map of open batches |
| `Pipeline`, `PipelineSafety`, `PipelineControl`, `PipelineThreads`, `PipelineStages`, `PipelineTermination`, `PipelineTheorems`, `PipelineOrder`, `PipelineBlobs`, `PipelineCache` | all threads and both shutdown sequences as one step system; a step is one mutex section or one local move, and a run is any interleaving; the bytes behind its batches, and the workers' caches inside it |
| `WorkerStop`, `PublisherStop` | what the two stop methods can lose: runs that do, and exact conditions |
| `ManagerLock` | `stop_all` against the reloader, both joining stream threads under the manager's mutex |
| `PublisherLoop` | one publisher's imperative loop, tied to the publisher's steps of the pipeline |
| `Configs`, `Reconciler`, `Reloader` | the equality of configurations, `update_streams` on its two maps, and the reload loop driving it |
| `Whitelist`, `StreamFilter` | the whitelist text, the stream filter of the configuration parser, ownership in a fleet |
| `FilterCache`, `FilterSpec`, `Decimal` | the worker's graph cache against a fresh graph per frame, and the filter description printed and read back |
| `Decimation`, `Backoff` | the frame interval and the reconnect waits |
| `Sequences`, `Options`, `Widths`, `Division` | shared vocabulary |

Code that changes state step by step is a class or a method with loops here, proved against a specification function;
the specification functions carry the theorems. Threads are modelled as steps of a state machine.

## Where the code and its documentation differ

The model follows the code. Each difference is a theorem:

- `Worker::stop` is documented to lose no frame (src/components/worker/worker.cpp:232-235), but it stops the output
  queue before it joins the workers (lines 241-243). `WorkerStop.StopLosesAFrame` is a run that loses one;
  `WorkerStop.WholeCallLosslessIff` is exact for the moment of the call, `LosslessIff` for the moment the input queue has
  stopped. As the reloader still runs, no call is safe on all schedules: `ReloaderMakesUnsafe`.
- The repository's README.md (line 19) promises that queues are flushed on termination. The batcher and the publishers leave
  their loops on a stop request with items still queued, and a re-queue after the batch queue has stopped is dropped.
  `PublisherStop.StopStrandsAFrame` and `StopLosesABatch` are runs that do so; `BatcherDrainsIff`, `PublishersLoseNothingIff`
  and `DryRunDrainsIff` are exact, from the call of `Publisher::stop` until it stops the batch queue.
- `update_streams` is documented to start new and stop changed streams; a changed stream is stopped and not restarted by the
  same call. `Reloader.OneCallSufficesIff` and `Reloader.UpAfterChangeIff` say when that matters, and for how long.
- The maps of running streams are keyed by `int`, stream ids are `long long`. The model keeps the conversion everywhere.
  `Reloader.ByIdIff`: a call is the recurrence by id exactly when all enabled ids fit. `AllCurrentIff`,
  `TwoCallsReachDesiredIff` and `SettlesIff` are exact for what repeated calls reach; `KeyFlaps` and `WideIdFlaps` show what an
  id does that does not settle. The whole-run and fleet results hold for ids of any width.
- Stream equality ignores the stream's own `target_fps`; "same configuration" is that relation throughout.
- The graph arguments include the sample aspect ratio, the reuse test does not. `FilterCache.InvisibleIff`
  shows that the cache is invisible exactly when the aspect ratio is fixed for frames the test confuses.
- Ownership uses the remainder of C++, so a negative id usually has no owner. `StreamFilter.OwnersOf` is exact.
- An odd width or height loses chroma samples: `Blob.ChromaLossless`.
- The live row loops multiply in 32 bits. `Blob.LiveIsImageIff` is exact for whole frames, `FrameFormat.LiveIsPackedIff` for
  planes; `FrameFormat.BottomUpRows` is a failing input, a bottom-up plane with a negative stride. The blob is well-formed either way.
- Any non-null reply of Redis ends a batch's way, so the model says "acked", not "stored".

## Model

| member | source | states |
|---|---|---|
| Queues.Fifo.Push | src/utils/fifo.h:41-65 | appends and counts, or after a stop drops without touching anything |
| Queues.Fifo.PopReady | src/utils/fifo.h:76-81 | hands out the oldest undelivered item if the queue has any; nothing exactly when it is empty, and then only if it has been stopped |
| Queues.Fifo.Stop | src/utils/fifo.h:88-92 | refuses further items, keeps the queued ones |
| Queues.Fifo.GetStats | src/utils/fifo.h:120-131 | pushed = popped + current size; the peak is reset to the current size or kept |
| Monitor.InvStep | src/utils/fifo.h:41-92 | every mutex section, notification and spurious wake-up keeps: if anyone sleeps, the queue is no longer than the woken waiters |
| Monitor.ConsumerSleepsIff | src/utils/fifo.h:71-82 | a consumer with the mutex sleeps, taking nothing, exactly when the queue is empty and has not stopped; otherwise it leaves with the front item if there is one |
| Monitor.AnySleeperMayWake | src/utils/fifo.h:74 | every sleeper may wake for no reason, which changes nothing in the queue |
| Monitor.NoLostWakeup | src/utils/fifo.h:64-74 | in every reachable state, nobody sleeps or each queued item has a woken waiter, whose next step takes the front item |
| Monitor.DeliveredInOrder | src/utils/fifo.h:41-82 | in every run, what consumers got followed by what is queued is what was accepted, in order |
| Monitor.NobodySleepsAfterStop | src/utils/fifo.h:88-92 | once stopped, on every continuation no consumer sleeps and nothing is accepted |
| Monitor.RefinesQueue | src/utils/fifo.h:41-92 | every run of any producers and consumers, with its sleeping, waking and spurious wake-ups, accepts and delivers what a run of whole pushes, ready pops and stops does |
| Monitor.EveryQueueRunOccurs | src/utils/fifo.h:41-92 | conversely every run of whole operations is one of producers and consumers |
| Chunking.GreedyIsGreedy | src/components/publisher/publisher.cpp:182-235 | the batches of a key keep every frame in order, and each ends at the first frame whose own batch size is at most the running count |
| Chunking.GreedyUnique | src/components/publisher/publisher.cpp:229-235 | no other division into batches has that property |
| Chunking.OfKeyCounts | src/components/publisher/publisher.cpp:170-182 | the frames of a (stream, event) key are exactly those of the input with that key, as often as they occur and in order |
| Chunking.ChunkedCoversAll | src/components/publisher/publisher.cpp:238-248 | with the flush, the batches concatenate to all frames of the key, none of them empty |
| FrameFormat.OffsetsAgreeIff | src/components/publisher/publisher.cpp:211-225 | the 32-bit row offsets of the live loops are exact for all rows exactly when the stride is not negative and the last offset is below 2^32 |
| FrameFormat.Offset32Is | src/components/publisher/publisher.cpp:211-213 | the live row offset is the exact product modulo 2^32, for a stride of either sign |
| FrameFormat.LiveIsPackedIff | src/components/publisher/publisher.cpp:211-225 | the live loop copies every plane of given dimensions and stride rightly exactly when no offset wraps that matters, on either side |
| FrameFormat.BottomUpRows | src/components/publisher/publisher.cpp:211-213 | with a negative stride the rows after the first come from 4 GiB behind where they are |
| FrameFormat.ReadsInside | src/components/publisher/publisher.cpp:211-225 | with a stride that is not negative, even a wrapped offset reads inside the plane's rows |
| FrameFormat.PackedRowsAt | src/components/publisher/publisher.cpp:103-113 | byte c of row r of the packed plane is byte c of row r in memory |
| FrameFormat.CopyRows32 | src/components/publisher/publisher.cpp:211-225 | for every stride the live loop writes inside the plane's region only, and leaves there what its 32-bit offsets say, row after row |
| FrameFormat.Offset64Exact | src/components/publisher/publisher.cpp:109-110 | the `size_t` product moves a pointer by the exact signed offset, for every `int` stride |
| FrameFormat.CopyPlaneRemoveStride | src/components/publisher/publisher.cpp:103-113 | the 64-bit helper leaves the packed rows in the region for every stride, negative ones included |
| Blob.LeRead | src/components/publisher/publisher.cpp:206-207 | header integers read back from their bytes |
| Blob.LeWrite | src/components/publisher/publisher.cpp:41-45 | every byte pattern of a header field is the encoding of what it reads as |
| Blob.FromLeSnoc | src/components/publisher/publisher.cpp:206-207 | bytes weigh by their place, the first one least |
| Blob.EntryLayout | README.md:150-162 | the documented layout: pts, width and height at bytes 0, 8 and 12, then Y, U and V of width times height and half by half bytes |
| Blob.ReadEncoded | README.md:148-162 | the documented reader takes exactly one entry off a blob: signed 64-bit pts, width, height, the three planes |
| Blob.RoundTrip | README.md:148-164 | reading a blob returns exactly its images, in order, for all sizes and any number of frames |
| Blob.ParseOnlyEncoded | README.md:148-164 | every blob the reader accepts is the encoding of what it returns, so no two image lists share a blob |
| Blob.LiveIsImageIff | src/components/publisher/publisher.cpp:193-225 | every picture of given dimensions and strides is serialized rightly exactly when no row offset of any plane wraps |
| Blob.ImageSamples | src/components/publisher/publisher.cpp:194-225 | in that case every sample of the rows and columns kept is the one in the frame's memory, for all three planes |
| Blob.ChromaLossless | src/components/publisher/publisher.cpp:197 | all chroma samples are kept exactly when no dimension is odd or there are none |
| Batcher.AppendEntry | src/components/publisher/publisher.cpp:193-225 | for every frame, of any dimensions and strides, the buffer grows by exactly one entry: header, and Y, U and V as the live loops leave them tile it, the bytes before it stay |
| Batcher.OpenIsShort | src/components/publisher/publisher.cpp:227-229 | an open batch is always shorter than some `int`, so the frame count cannot overflow |
| Batcher.LoopStep | src/components/publisher/publisher.cpp:182-235 | one frame keeps, for every key: pushed are its closed greedy batches, open is its open one, buffer and count included |
| Batcher.LoopRunIsGreedy | src/components/publisher/publisher.cpp:171-236 | after any frames, every key has had pushed its closed greedy batches, its open one being the open batch |
| Batcher.BatchingThread.HandleFrame | src/components/publisher/publisher.cpp:177-235 | the loop body, on the real map, buffer and queue, is one step of the loop's specification |
| Batcher.BatchingThread.Flush | src/components/publisher/publisher.cpp:238-248 | in any order of the map, the flush is a run of its specification that completes every key's batches and empties the map |
| Batcher.BatchingThread.BatchingLoop | src/components/publisher/publisher.cpp:166-251 | for any interleaving of keys and any frames, the queue receives for each key the greedy batches of its own frames, bytes and frame counts included; over all keys, what the loop's specification pushes and then a flush in some order |
| Batcher.ConsumerSeesEveryFrame | README.md:148-164 | reading a key's batches one after the other yields that key's frames, all and in order, each its stride-free picture unless its offsets wrap; each frame count is the number of entries |
| Batcher.KeysAreIndependent | src/components/publisher/publisher.cpp:182-191 | two inputs with the same frames of a key leave that key with the same pushed and open batches, whatever is interleaved |
| PublisherLoop.PublisherThread.LoopBody | src/components/publisher/publisher.cpp:269-333 | one turn of the loop is the publisher's pop and attempt steps of the pipeline: sent, simulated, or put back with the connection given up |
| PublisherLoop.PublisherThread.Loop | src/components/publisher/publisher.cpp:253-337 | the loop is those turns, one per outcome, until the queue has nothing more |
| PublisherLoop.TurnIsAtOnce | src/components/publisher/publisher.cpp:275-333 | the three steps of a turn together consume the front batch or put it back whole |
| PublisherLoop.SentIff | src/components/publisher/publisher.cpp:284-333 | a batch is acked exactly when the connection was valid or could be made again and the command got a reply; otherwise it goes to the back of the queue, or is dropped if that has stopped, and the connection is given up |
| PublisherLoop.TurnsConserve | src/components/publisher/publisher.cpp:284-329 | under any pattern of connection and command failures no batch is lost or duplicated, and none is dropped before the queue stops |
| PublisherLoop.TurnsDrain | src/components/publisher/publisher.cpp:269-329 | after the queue has stopped every turn shortens it by one, even if every attempt fails |
| PublisherLoop.FailuresRotate | src/components/publisher/publisher.cpp:284-295 | while Redis is away re-queuing rotates the queue; a full round restores the order |
| PipelineSafety.QueueStep | src/utils/fifo.h:41-82 | every step of any thread keeps: each queue delivers what it accepted in order, the batcher holds at most its last frame |
| PipelineSafety.BatchStep | src/components/publisher/publisher.cpp:173-248 | every step of any thread keeps, for all keys, open and built batches at the greedy batches of what was batched |
| PipelineSafety.PlaceStep | src/components/publisher/publisher.cpp:269-334 | every step of any thread keeps the number of places a batch is in at the number of times it was pushed |
| PipelineSafety.BuiltStep | src/components/publisher/publisher.cpp:229-248 | every step keeps: what was pushed is what was built, in order, each batch with its own number |
| PipelineTheorems.BatchInOnePlace | src/components/publisher/publisher.cpp:269-334 | in every reachable state a pushed batch is in exactly one place (queue, one publisher's hands, acked, simulated, dropped after stop), unchanged; before the stop never dropped |
| PipelineTheorems.AckedAtMostOnce | src/components/publisher/publisher.cpp:315-333 | no batch is acked twice on any interleaving |
| PipelineTheorems.FramesConserved | src/components/publisher/publisher.cpp:166-334 | on every interleaving, the frames accepted by the processed queue are, with multiplicity, those queued, in the batcher, in open and outgoing batches, queued, held, acked, simulated or dropped by a re-queue after stop |
| PipelineTheorems.BatchesAreGreedy | src/components/publisher/publisher.cpp:150-156 | the greedy batches hold on every interleaving; the batcher's pushes are never dropped, and after its flush they hold everything popped |
| PipelineTheorems.FinalAccount | src/core/main.cpp:132-136 | after shutdown nothing is in hand: every frame accepted for publishing is acked, simulated, dropped by a re-queue, or left in one of two queues |
| PipelineBlobs.BatcherRunsTheLoop | src/components/publisher/publisher.cpp:173-248 | on every interleaving, the flush included, the batcher's open batches and the batches it has built, in order across keys, are byte for byte those of the imperative loop on the same frames and its flush of some keys in some order; before the flush, of the loop alone |
| PipelineBlobs.KeyReadsBack | src/components/publisher/publisher.cpp:193-248 | on every interleaving, a key's blobs read in push order give an initial part of the frames popped for it, and all of them once the batcher has finished |
| PipelineBlobs.BatchReadsBack | src/components/publisher/publisher.cpp:269-334 | on every interleaving, a batch that is queued, held, acked or dropped is one that was pushed, and its bytes read back to exactly its frames |
| PipelineCache.StemmedIsFresh | src/components/worker/worker.cpp:305-347 | with fixed aspect ratios, a cache whose graphs were built for earlier frames yields for the next frame what a fresh graph would |
| PipelineCache.WorkersPutOutFresh | src/components/worker/worker.cpp:270-426 | on every interleaving, with any number of workers each using its own cache and whatever builds failed, what the workers have sent, hold and dropped is, as a multiset, what one graph per popped frame would have put out, if those frames have fixed aspect ratios |
| PipelineCache.CachedOutAllowed | src/components/worker/worker.cpp:349-418 | what a worker's graphs yield is among the outputs the pipeline lets it hold |
| PipelineCache.CachedPopPossible | src/components/worker/worker.cpp:280-418 | a waiting worker can always pop with its own cached output, so runs of such workers go on |
| PipelineCache.OneWorkerInOrder | src/components/worker/worker.cpp:280-418 | with one worker and fixed aspect ratios, until the processed queue stops, what was sent and is held is in order and without gaps what one graph per popped frame would put out |
| PipelineOrder.OrderEndToEnd | src/components/worker/worker.cpp:280-418 | with one worker and one output per input, a key's frames read in batch order are a subsequence of its decode-queue order |
| PipelineOrder.TwoWorkersCanReorder | src/components/worker/worker.cpp:217-222 | with two workers some run swaps two frames, even of one key |
| PipelineThreads.OneStreamInOrder | src/components/stream_io/stream_io_manager.cpp:456-480 | with one stream, what its graph has put out has entered the decode queue in that order without gaps, save what is still to be pushed |
| PipelineThreads.ReadsConserved | src/components/stream_io/stream_io_manager.cpp:456-480 | in every reachable state each frame put out by streams was accepted by the decode queue, dropped as that had stopped, or is still to be pushed |
| PipelineThreads.WorkerBlockedIff | src/components/worker/worker.cpp:280-284 | a worker is blocked exactly when it waits on a decode queue that is empty and running |
| PipelineThreads.BatcherBlockedIff | src/components/publisher/publisher.cpp:173-175 | the batcher is blocked exactly when it waits on a processed queue that is empty and running |
| PipelineThreads.PublisherBlockedIff | src/components/publisher/publisher.cpp:269-271 | a publisher is blocked exactly when it waits on a batch queue that is empty and running |
| PipelineThreads.ThreadsOutliveTheirQueues | src/core/main.cpp:132-136 | in every reachable state no worker, batcher or publisher has ended while its queue runs |
| PipelineControl.ControlStep | src/core/main.cpp:132-136 | every step of any thread keeps what the main thread relies on at each stage of the shutdown: queues stopped in order, and every stream, worker and publisher already passed has finished |
| PipelineThreads.LeavesWithAllDone | src/components/stream_io/stream_io_manager.cpp:278-285 | the shutdown leaves the joins of `stop_all` only by the main thread and with every stream finished |
| PipelineThreads.StreamsJoined | src/components/stream_io/stream_io_manager.cpp:278-285 | on every run that starts no stream after `stop_all`, all streams have finished from its return on |
| PipelineThreads.AskedReadsNoMore | src/components/stream_io/stream_io_manager.cpp:406 | a stream that has been asked to stop reads no more, whatever happens afterwards |
| PipelineControl.AwaitedDecreases | src/components/publisher/publisher.cpp:150-160 | every stop call and every step of the thread being joined lowers a lexicographic measure |
| PipelineControl.OthersDoNotDelay | src/core/main.cpp:132-136 | no step of any other thread, the reloader's included, raises it |
| PipelineControl.NeverBlocked | src/core/main.cpp:132-136 | until the shutdown is over the main thread or the thread it joins can step: no deadlock |
| PipelineControl.ShutdownCanFinish | src/core/main.cpp:132-138 | from every state of a shutdown some run finishes it |
| PipelineTermination.NeverRises | src/core/main.cpp:132-136 | along any infinite run of the shutdown the measure never rises, whoever moves |
| PipelineTermination.ShutdownTerminates | src/core/main.cpp:132-138 | every infinite run of the shutdown reaches its end, whatever the other threads, the reloader and Redis do, if the thread being joined keeps getting turns |
| PipelineTermination.FairRunExists | src/core/main.cpp:132-138 | from every state of the shutdown there is such an infinite run |
| ManagerLock.LockStep | src/components/stream_io/stream_io_manager.cpp:229-285 | every move keeps: the mutex has the owner it should, and a thread being joined is registered and has been asked to stop |
| ManagerLock.StopAllIsAlone | src/components/stream_io/stream_io_manager.cpp:278-285 | while `stop_all` is at its joins the reloader can start, ask and join no stream |
| ManagerLock.AllJoined | src/components/stream_io/stream_io_manager.cpp:278-285 | when `stop_all` releases the mutex every stream thread ever started has finished |
| ManagerLock.NeverDeadlocked | src/components/stream_io/stream_io_manager.cpp:229-285 | until `stop_all` returns, something it waits for can move, also while the reloader holds the mutex through its own joins |
| ManagerLock.NeededCloser | src/components/stream_io/stream_io_manager.cpp:229-285 | every move it waits for lowers a lexicographic measure |
| ManagerLock.OthersKeepAway | src/components/stream_io/stream_io_manager.cpp:229-285 | no other move raises it, save the reloader taking the free mutex once more |
| ManagerLock.StopAllReturns | src/components/stream_io/stream_io_manager.cpp:229-285 | after any moves of the reloader and the streams, `stop_all` once called is not deadlocked and can return |
| PipelineStages.ReachStage | src/core/main.cpp:132-136 | every later stage up to the stop of the batch queue can be reached while publishers stand still and nothing on its way to them is dropped |
| PipelineControl.PublishersFinish | src/components/publisher/publisher.cpp:284-329 | after the batch queue has stopped, on every run the publishers' steps are bounded in advance and the queue cannot grow, even if every command fails |
| WorkerStop.StopLosesAFrame | src/components/worker/worker.cpp:232-243 | a run from the start of a process in which stopping the workers loses a frame |
| WorkerStop.LosslessIff | src/components/worker/worker.cpp:224-245 | once the input queue has stopped, no schedule loses a frame exactly when nothing is queued for the workers and none has an output to send |
| WorkerStop.WholeCallLosslessIff | src/components/worker/worker.cpp:239-245 | at the call, if the reloader starts no stream meanwhile: no schedule loses a frame exactly when nothing is in flight and no stream thread can push |
| PipelineThreads.StopAfterJoinsLosslessIff | src/core/main.cpp:134-135 | from the start of the process, if no stream is started after `stop_all`: stopping the workers loses no frame on any schedule exactly when at the call nothing is queued for them and none has an output |
| WorkerStop.ReloaderMakesUnsafe | src/core/main.cpp:132-136 | with the reloader running no call is safe on all schedules |
| PublisherStop.StopStrandsAFrame | src/components/publisher/publisher.cpp:154-175 | a run from the start of a process in which the batcher finishes with a frame queued |
| PublisherStop.StopLosesABatch | src/components/publisher/publisher.cpp:150-160 | a run, sending or dry, in which a batch is left behind |
| PublisherStop.BatcherDrainsIff | src/components/publisher/publisher.cpp:154-175 | from the call of `stop` on, no schedule strands a frame in the processed queue exactly when it holds nothing, or one frame the waiting batcher is about to pop |
| PublisherStop.PublishersLoseNothingIff | src/components/publisher/publisher.cpp:150-160 | from the call of `stop` until the batch queue is stopped: sending publishers and batcher leave nothing behind on any schedule exactly when no frame or batch is queued, open or in hand |
| PublisherStop.DryRunDrainsIff | src/components/publisher/publisher.cpp:150-160 | in a dry run, in the same span: nothing is left behind on any schedule exactly when all frames are within the batcher's reach and each batch to come has a waiting publisher |
| Widths.Trunc32 | src/components/stream_io/stream_io_manager.h:98-99 | conversion to `int` lands in its range, keeps exactly what fits, and is congruent modulo 2^32 |
| Configs.SameStreamIff | src/utils/types.cpp:71-74 | streams compare equal exactly when they differ in the stream's own target rate at most |
| Configs.SameGlobalIff | src/utils/types.cpp:76-81 | configurations compare equal exactly when they differ in the own target rates of their streams at most |
| Reconciler.DesiredIds | src/components/stream_io/stream_io_manager.cpp:232-237 | desired entries are enabled ones of the list, under their own ids |
| Reconciler.DesiredIs | src/components/stream_io/stream_io_manager.cpp:232-237 | desired are exactly the entries that are enabled and have no later enabled entry of their id |
| Reconciler.Winner | src/components/stream_io/stream_io_manager.cpp:250-275 | of the desired ids with one key, the greatest, which is started last, ends up under it |
| Reconciler.IsReconciled | src/components/stream_io/stream_io_manager.cpp:242-275 | survival exactly of equal configurations, filling exactly of unregistered keys: these clauses leave one possible result, for ids of any width |
| Reconciler.StreamIoManager.CollectDesired | src/components/stream_io/stream_io_manager.cpp:232-237 | the loop collects exactly the last enabled entry of every id that has one |
| Reconciler.StreamIoManager.CollectToStop | src/components/stream_io/stream_io_manager.cpp:243-248 | exactly the registered ids that are gone or changed, each once, with every `.at` in range |
| Reconciler.StreamIoManager.CollectToStart | src/components/stream_io/stream_io_manager.cpp:250-254 | exactly the desired entries whose key is unregistered before any stop, in id order |
| Reconciler.StreamIoManager.StopAllOf | src/components/stream_io/stream_io_manager.cpp:256-265 | exactly those threads go; every other keeps its thread and configuration |
| Reconciler.StreamIoManager.StartAllOf | src/components/stream_io/stream_io_manager.cpp:267-275 | exactly their keys are new, each with its last configuration; every other keeps its thread and configuration |
| Reconciler.StreamIoManager.UpdateStreams | src/components/stream_io/stream_io_manager.cpp:229-276 | the exact map after a call, also in terms of the list: an unregistered key gets the last enabled entry with the greatest id converted to it, a registered one survives exactly if the last enabled entry of its id is equal; survivors keep their thread; equal key sets and one live thread per key are kept |
| Reconciler.StreamIoManager.StopAll | src/components/stream_io/stream_io_manager.cpp:278-285 | no registered stream and no live thread remains |
| Reloader.ByIdIff | src/components/stream_io/stream_io_manager.cpp:229-276 | a call is the recurrence by id (survive if equal, start if unregistered and desired) exactly when all desired ids fit an `int` |
| Reloader.ReconciledFromDesired | src/components/stream_io/stream_io_manager.h:52-56 | after any call every registered stream has the configuration desired for its own id |
| Reloader.AllCurrentIff | src/components/stream_io/stream_io_manager.cpp:243-254 | the next call keeps every stream exactly when every key just filled went to the id that equals it |
| Reloader.OneCallSufficesIff | src/components/stream_io/stream_io_manager.cpp:242-275 | one call reaches the desired set exactly when all desired ids fit and no registered stream has changed |
| Reloader.TwoCallsReachDesiredIff | src/components/stream_io/stream_io_manager.cpp:229-276 | the same list twice reaches exactly the desired set, current and a fixpoint, exactly when all desired ids fit |
| Reloader.KeyFlaps | src/components/stream_io/stream_io_manager.h:98-99 | a key that does not settle is filled by one call and emptied by the next, for ever |
| Reloader.SettlesIff | src/components/stream_io/stream_io_manager.cpp:229-276 | calls with one list come to rest after two exactly when every desired key goes to, or is already held by, the id that equals it |
| Reloader.WideIdFlaps | src/components/stream_io/stream_io_manager.h:98-99 | an id that does not fit is started by one update and stopped by the next identical one |
| Reloader.ReloaderSafety | src/components/config_manager/config_manager.cpp:164-237 | after any reload cycles and for ids of any width: the last notification is the current configuration, successive ones differ, every registered stream runs the enabled entry of its id |
| Reloader.QuietCycles | src/components/config_manager/config_manager.cpp:213-236 | cycles that fail to parse or load an equal configuration change nothing |
| Reloader.CurrentIsLastLoaded | src/components/config_manager/config_manager.cpp:213-236 | after any cycles the configuration in force equals the last one that was read |
| Reloader.UpAfterChangeIff | src/components/config_manager/config_manager.cpp:222-236 | exactly when a stream id, of any width, is up after a change and any number of quiet cycles: a changed one stays down |
| Reloader.ConfigManager.OnUpdate | src/core/main.cpp:117-122 | the callback reconciles the streams with the notified configuration |
| Reloader.ConfigManager.StartReloader | src/components/config_manager/config_manager.cpp:164-174 | the initial configuration is notified once |
| Reloader.ConfigManager.ReloadCycle | src/components/config_manager/config_manager.cpp:211-236 | one turn of the loop is one cycle of the whole-run model |
| Reloader.ConfigManager.Run | src/components/config_manager/config_manager.cpp:164-237 | a whole run of the class, start and any number of turns, is the run of the model and has its safety |
| Whitelist.SplitJoin | src/components/config_manager/config_manager.cpp:127-136 | splitting at commas undoes joining |
| Whitelist.JoinSplit | src/components/config_manager/config_manager.cpp:127-136 | every text is its pieces joined by commas, and no piece has a comma |
| Whitelist.ReadIdsIs | src/components/config_manager/config_manager.cpp:129-131 | the ids are those of the non-empty pieces; reading fails exactly when one of them does |
| Whitelist.ParseWhitelist | src/components/config_manager/config_manager.cpp:123-137 | the erasing loop reads exactly the pieces between commas; any non-empty text switches the whitelist on |
| StreamFilter.BuildReadsBack | src/components/config_manager/config_manager.cpp:404-463 | a configuration written out in full reads back: every field reaches its own place |
| StreamFilter.BuildDefaults | src/components/config_manager/config_manager.cpp:404-463 | missing fields come out as 1.0 fps, no keyframe wait, disabled, no processing, no events; a missing event name, rate or batch size as empty, 1.0 and 8 |
| StreamFilter.TakesIff | src/components/config_manager/config_manager.cpp:377-468 | an entry is taken, cap aside, exactly if it has an id, a URL that is not empty, an allowed id and an owned one |
| StreamFilter.TakenAt | src/components/config_manager/config_manager.cpp:372-470 | each taken entry comes right behind those taken before it |
| StreamFilter.TakenCap | src/components/config_manager/config_manager.cpp:398-402 | a positive cap keeps exactly that many of the first entries taken, any other keeps all |
| StreamFilter.ParseStreams | src/components/config_manager/config_manager.cpp:372-470 | the loop takes the first `max_streams` usable, whitelisted, owned entries in file order, although it tests the cap before the URL |
| StreamFilter.TakenOwned | src/components/config_manager/config_manager.cpp:386-402 | what an instance takes is its own and within the cap |
| StreamFilter.TruncModIs | src/components/config_manager/config_manager.h:93 | the remainder of C++: congruent, smaller than the divisor, with the dividend's sign |
| StreamFilter.OwnsStreamIff | src/components/config_manager/config_manager.h:91-94 | which instance owns an id: the one whose slot has its residue, and a negative id only if it is a multiple of the fleet's size |
| StreamFilter.NumberedSlots | src/components/config_manager/config_manager.h:111-113 | slots numbered from 0 and slots numbered from 1 both cover all residues |
| StreamFilter.OwnersOf | src/components/config_manager/config_manager.h:91-94 | an id has exactly one owner if it is not negative or is a multiple of the fleet's size, none otherwise |
| StreamFilter.FleetPartition | src/components/config_manager/config_manager.cpp:372-470 | without a cap the instances' lists together are the whitelisted valid list, with multiplicity, for every id that has an owner |
| StreamFilter.NeverRegisteredTwice | src/components/config_manager/config_manager.h:91-94 | instances of different residue never have one id registered, under whatever keys, whatever each loads and when |
| FilterCache.Drain | src/components/worker/worker.cpp:349-418 | the frames are those of the first pulls, one each, up to the limit, an exhausted sink, or the first pull that yields none |
| FilterCache.DrainUnique | src/components/worker/worker.cpp:349-418 | one sequence of frames has that property |
| FilterCache.FreshOutIs | src/components/worker/worker.cpp:325-418 | a fresh graph puts out what its sink yields, at most five frames; where none can be built nothing comes out |
| FilterCache.MatchesIff | src/components/worker/worker.cpp:309-312 | the reuse test compares everything a graph is built from but the aspect ratio |
| FilterCache.CachedIff | src/components/worker/worker.cpp:316-330 | a key is cached exactly when a graph could be built for some earlier frame of it, so a failed build removes nothing |
| FilterCache.CtxKeyInjective | src/components/worker/worker.cpp:290 | no two (stream, event) pairs share a cache key |
| FilterCache.CacheOrigin | src/components/worker/worker.cpp:316-330 | every cached context was built for a frame of its key, failed builds in between notwithstanding |
| FilterCache.GraphMatchesFrame | src/components/worker/worker.cpp:305-332 | a frame with output went through a graph built for its own stream and event, with its processing settings, size and pixel format |
| FilterCache.CachedIsFresh | src/components/worker/worker.cpp:305-347 | with fixed aspect ratios every frame gets what a graph built for it would put out |
| FilterCache.ConfusedFrames | src/components/worker/worker.cpp:309-312 | two frames that differ only in aspect ratio: under some library one gets the wrong graph |
| FilterCache.InvisibleIff | src/components/worker/worker.cpp:80-87 | the cache is invisible under every library exactly when aspect ratios are fixed |
| FilterCache.WorkerThread.HandleFrame | src/components/worker/worker.cpp:286-418 | the loop body is one step of the cache, a failed build leaving an older context in place |
| FilterCache.WorkerThread.WorkerLoop | src/components/worker/worker.cpp:278-424 | the loop's outputs are those of the cache model |
| FilterCache.WorkerIsFresh | src/components/worker/worker.cpp:278-424 | one worker's outputs, in order, are those of a graph per frame |
| FilterCache.PoolIsFresh | src/components/worker/worker.cpp:217-222 | any distribution over any number of workers puts out, as a multiset, what a graph per frame would |
| Decimal.ReadPrinted | src/components/worker/worker.cpp:127-132 | a printed integer reads back, whatever non-digit follows |
| Decimal.DecimalExamples | src/components/worker/worker.cpp:127-132 | the notation is the usual decimal one |
| FilterSpec.BuildSpec | src/components/worker/worker.cpp:125-138 | the piecewise string is the chain of the enabled steps, crop first, or `null` |
| FilterSpec.SpecText | src/components/worker/worker.cpp:125-138 | the string letter by letter, `crop=w:h:x:y` before `scale=w:h`, joined by a comma, or `null` |
| FilterSpec.ChainRoundTrip | src/components/worker/worker.cpp:125-138 | every chain parses back to exactly its steps |
| FilterSpec.SpecMeansSteps | src/components/worker/worker.cpp:125-138 | the string of any processing configuration means exactly its enabled steps |
| FilterSpec.ExpectedSize | src/components/worker/worker.cpp:372-383 | the expected dimensions are those the steps produce exactly when the crop, if any, lies inside the frame |
| FilterSpec.ChainSize | src/components/worker/worker.cpp:372-383 | what evaluating the steps makes of any frame size, failing crops included |
| Decimation.SourceFpsIs | src/components/stream_io/stream_io_manager.cpp:128-133 | the source rate is the average rate if known, else the raw rate if known, else one frame a second |
| Decimation.EffectiveTargetIs | src/components/stream_io/stream_io_manager.cpp:136-137 | a target that is not positive counts as one frame a second |
| Decimation.IntervalIs | src/components/stream_io/stream_io_manager.cpp:137-143 | the interval is the greatest number of source frames that last no longer than one at the target rate, at least one |
| Decimation.EventIntervals | src/components/stream_io/stream_io_manager.cpp:128-147 | the loop gives each event the interval of its own target at the stream's average, raw or default rate |
| Decimation.KeptIsMultiples | src/components/stream_io/stream_io_manager.cpp:145-147 | the frames kept in a window are the multiples of the interval in it |
| Decimation.WindowBounds | src/components/stream_io/stream_io_manager.cpp:145-147 | any window of w frames keeps between floor(w/k) and ceil(w/k) |
| Decimation.RateBounds | src/components/stream_io/stream_io_manager.cpp:128-143 | the output rate lies in [target, 2 target) when the source is at least the target, and equals the source otherwise |
| Backoff.RetryIsFailuresMod7 | src/components/stream_io/stream_io_manager.cpp:304-362 | the retry counter is the number of failed opens modulo 7 |
| Backoff.WaitsClosedForm | src/components/stream_io/stream_io_manager.cpp:345-362 | n failed opens wait 93 (n div 7) + 2^(n mod 7) - 1 seconds, each missing context one more |
| Backoff.OneWaitEach | src/components/stream_io/stream_io_manager.cpp:304-362 | one wait per attempt that did not open |
| Backoff.WaitsAtMost32 | src/components/stream_io/stream_io_manager.cpp:345-362 | no wait exceeds 32 seconds |
| Backoff.ConnectLoop | src/components/stream_io/stream_io_manager.cpp:304-364 | the loop, over any outcomes, has that counter and those waits and ends at the first open that succeeds |

## Left out

- FFmpeg: connecting, demuxing, decoding, scaling, chroma rounding of crops and JPEG encoding are foreign calls. A graph is a pure function of its build parameters and the frame fed to it, so a graph that keeps state between frames is not captured.
- hiredis and curl calls, the merge of an API response and the atomic file rename: only their outcomes appear (connected or not, null reply or not, parsed or not).
- The JSON grammar and `std::stoll`: entries come with each field present or not; the integer reader is a parameter of the whitelist parser.
- Disk saving of frames, the logger, rate limiting of warnings, thread names: diagnostics only.
- The supervisor's fork, wait and kill loop: operating system semantics.
- Real time: sleeps are no steps; the waits of the connect loop are numbers.
- Fairness: that the thread being joined keeps getting turns is a hypothesis of `PipelineTermination.ShutdownTerminates`; nothing is said about a scheduler. An unfair mutex could go to the reloader again and again; `ManagerLock.OthersKeepAway` names that move.
- A publisher without a Redis host starts no threads; the pipeline model has it enabled.
- In the pipeline the reloader can start a stream or request its stop at any time except while `stop_all` joins; the mutex and the joins of `update_streams` behind that are in `ManagerLock`, with the stream threads but without the queues.
- The end of the process: the model ends when `publisher->stop()` has returned (src/core/main.cpp:136). The destructors that run at the end of the scope (a second stop of every component, then the join of the reloader, whose callback refers to a stream manager destroyed before it) are not modelled.
- Streams with two events of one name: the map of sinks keeps only the last, which is not modelled.
- `convert_frame_to_i420`, `MAX_FRAME_BYTES` and a batch's own width and height: unused on the live path. The null-context branch of the publisher loop cannot follow the validity test and is not modelled.
- Widths: queue counters are unbounded; frame rates are reals, and the conversion of a huge rate quotient to `int` is not modelled.
- The order in which maps are iterated: any order is allowed, which includes the source's.
- Memory: a plane is total around its pointer, so a read outside the allocation, which a wrapped or negative offset of the live loop can make, gives some byte instead of undefined behaviour. Negative frame dimensions, which FFmpeg does not produce, are excluded.
- Blob.RoundTrip: bytes are little-endian, as on the x86 targets; the source writes the header in host order.
- Batcher.BatchingThread.BatchingLoop: runs on the frames popped before the queue ends or a stop is requested; interleaving with the other threads is in the pipeline modules.
- PublisherLoop.PublisherThread.Loop: one publisher alone on the queue; several, with the batcher, are in the pipeline modules.
- Reconciler.StreamIoManager.StartOne: when two desired ids share a key, the source starts the second thread just before it joins the first; the model has only the outcome.
- Backoff.ConnectLoop: a stop request is the end of the list of outcomes.
- FilterSpec.ExpectedSize: the source only logs a mismatch; a frame is passed on either way.
