/**
 * The running process as a step system. A step is one mutex section of a queue or one purely local
 * move of a thread; any interleaving of the threads' steps is a run. Waiting on a queue is a state in
 * which the thread can move once the queue is ready, which the `Monitor` module justifies.
 */
module Pipeline {
  import opened Chunking
  import opened Queues

  /** The payload stands for the picture. */
  type Frame = Item<nat>

  /** `no` numbers batches in the order the batcher builds them. */
  datatype Batch = Batch(no: nat, key: Key, frames: seq<Frame>)

  datatype StreamPhase = Reading | Emitting(out: seq<Frame>) | StreamDone

  datatype Stream = Stream(stop: bool, phase: StreamPhase)

  /** The loop shape of workers and publishers. */
  datatype Phase<+H> = LoopHead | Waiting | Holding(held: H) | Done

  datatype Worker = Worker(stop: bool, phase: Phase<seq<Frame>>)

  /** `conn` is whether the publisher's Redis connection is valid. */
  datatype Publisher = Publisher(stop: bool, conn: bool, phase: Phase<Batch>)

  datatype BatcherPhase = BatcherHead | BatcherWaiting | Adding(f: Frame) | Pushing(b: Batch) | Flushing | BatcherDone

  datatype BatcherThread = BatcherThread(stop: bool, phase: BatcherPhase, open: map<Key, seq<Frame>>)

  /** Where the shutdown sequence is. `asked`: the thread's stop has been requested and it is being joined. */
  datatype Ctl =
    | Running
    | JoinStreams(i: nat, asked: bool)
    | StopDecode
    | StopProcessed
    | JoinWorkers(i: nat, asked: bool)
    | StopProcessedAgain
    | JoinBatcher(asked: bool)
    | StopBatches
    | JoinPublishers(i: nat, asked: bool)
    | Finished

  /** Everything that has happened to frames and batches, in order. */
  datatype Log = Log(
    read: seq<Frame>,          // put out by the streams' own graphs
    decodeLost: seq<Frame>,    // of these, dropped because the decode queue had stopped
    decodeIn: seq<Frame>,      // of these, accepted by the decode queue
    decodeOut: seq<Frame>,     // popped by workers
    procIn: seq<Frame>,        // accepted by the processed queue
    procLost: seq<Frame>,      // worker outputs dropped because it had stopped
    procOut: seq<Frame>,       // popped by the batcher
    batched: seq<Frame>,       // serialized into a batch
    built: seq<Batch>,         // batches taken out of the map to be pushed
    pushed: seq<Batch>,        // of these, accepted by the batch queue
    pushLost: seq<Batch>,      // of these, dropped because it had stopped
    acked: seq<Batch>,         // answered by Redis with a non-null reply
    simulated: seq<Batch>,     // consumed in dry-run mode
    requeueLost: seq<Batch>)   // dropped when re-queued after the batch queue stopped

  datatype State = State(
    dryRun: bool,
    streams: seq<Stream>, decode: Queue<Frame>, workers: seq<Worker>, processed: Queue<Frame>,
    batcher: BatcherThread, batches: Queue<Batch>, publishers: seq<Publisher>,
    ctl: Ctl, log: Log)

  // ---------- Steps ----------

  datatype StreamAct = Read(out: seq<Frame>) | Emit | Leave
  datatype WorkerAct = WorkerLoop | WorkerPop(out: seq<Frame>) | WorkerEnd | Send
  datatype BatcherAct = BatcherLoop | BatcherPop | BatcherEnd | AddFrame | PushFull | FlushOne(k: Key) | FlushEnd
  datatype PublisherAct = PublisherLoop | PublisherPop | PublisherEnd | Attempt(reconnected: bool, replied: bool)

  datatype Action =
    | OfStream(i: nat, sa: StreamAct)
    | OfWorker(i: nat, wa: WorkerAct)
    | OfBatcher(ba: BatcherAct)
    | OfPublisher(i: nat, pa: PublisherAct)
    | Control
    | SpawnStream            // the reloader starts a stream thread
    | AskStream(i: nat)      // the reloader requests a stream thread's stop

  /** A graph emits at most five frames per input, each with the input's configuration. */
  predicate OutputsOf(out: seq<Frame>, f: Frame) {
    |out| <= 5 && forall o | o in out :: o.key == f.key && o.batchSize == f.batchSize
  }

  predicate StreamEnabled(s: State, i: nat, sa: StreamAct) {
    && i < |s.streams|
    && match sa
       case Read(_) => s.streams[i].phase == Reading && !s.streams[i].stop
       case Emit => s.streams[i].phase.Emitting?
       case Leave => s.streams[i].phase == Reading
  }

  function StreamApply(s: State, i: nat, sa: StreamAct): State
    requires StreamEnabled(s, i, sa)
  {
    var t := s.streams[i];
    match sa
    case Read(out) =>
      s.(streams := s.streams[i := t.(phase := Emitting(out))], log := s.log.(read := s.log.read + out))
    case Leave => s.(streams := s.streams[i := t.(phase := StreamDone)])
    case Emit =>
      if t.phase.out == [] then s.(streams := s.streams[i := t.(phase := Reading)])
      else
        var f := t.phase.out[0];
        s.(streams := s.streams[i := t.(phase := Emitting(t.phase.out[1..]))],
           decode := PushTo(s.decode, f),
           log := if s.decode.stopped then s.log.(decodeLost := s.log.decodeLost + [f])
                  else s.log.(decodeIn := s.log.decodeIn + [f]))
  }

  predicate WorkerEnabled(s: State, i: nat, wa: WorkerAct) {
    && i < |s.workers|
    && var phase := s.workers[i].phase;
       match wa
       case WorkerLoop => phase == LoopHead
       case WorkerPop(out) => phase == Waiting && s.decode.items != [] && OutputsOf(out, s.decode.items[0])
       case WorkerEnd => phase == Waiting && s.decode.items == [] && s.decode.stopped
       case Send => phase.Holding?
  }

  function WorkerApply(s: State, i: nat, wa: WorkerAct): State
    requires WorkerEnabled(s, i, wa)
  {
    var t := s.workers[i];
    match wa
    case WorkerLoop => s.(workers := s.workers[i := t.(phase := if t.stop then Done else Waiting)])
    case WorkerEnd => s.(workers := s.workers[i := t.(phase := Done)])
    case WorkerPop(out) =>
      s.(workers := s.workers[i := t.(phase := Holding(out))],
         decode := PopFrom(s.decode),
         log := s.log.(decodeOut := s.log.decodeOut + [s.decode.items[0]]))
    case Send =>
      if t.phase.held == [] then s.(workers := s.workers[i := t.(phase := LoopHead)])
      else
        var f := t.phase.held[0];
        s.(workers := s.workers[i := t.(phase := Holding(t.phase.held[1..]))],
           processed := PushTo(s.processed, f),
           log := if s.processed.stopped then s.log.(procLost := s.log.procLost + [f])
                  else s.log.(procIn := s.log.procIn + [f]))
  }

  predicate BatcherEnabled(s: State, ba: BatcherAct) {
    var phase := s.batcher.phase;
    match ba
    case BatcherLoop => phase == BatcherHead
    case BatcherPop => phase == BatcherWaiting && s.processed.items != []
    case BatcherEnd => phase == BatcherWaiting && s.processed.items == [] && s.processed.stopped
    case AddFrame => phase.Adding?
    case PushFull => phase.Pushing?
    case FlushOne(k) => phase == Flushing && k in s.batcher.open
    case FlushEnd => phase == Flushing && s.batcher.open == map[]
  }

  function OpenChunk(open: map<Key, seq<Frame>>, k: Key): seq<Frame> {
    if k in open then open[k] else []
  }

  /** The batcher hands a batch to the batch queue. */
  function PushBatch(s: State, b: Batch): State {
    s.(batches := PushTo(s.batches, b),
       log := if s.batches.stopped then s.log.(pushLost := s.log.pushLost + [b])
              else s.log.(pushed := s.log.pushed + [b]))
  }

  function BatcherApply(s: State, ba: BatcherAct): State
    requires BatcherEnabled(s, ba)
  {
    var t := s.batcher;
    match ba
    case BatcherLoop => s.(batcher := t.(phase := if t.stop then Flushing else BatcherWaiting))
    case BatcherEnd => s.(batcher := t.(phase := Flushing))
    case FlushEnd => s.(batcher := t.(phase := BatcherDone))
    case BatcherPop =>
      s.(batcher := t.(phase := Adding(s.processed.items[0])),
         processed := PopFrom(s.processed),
         log := s.log.(procOut := s.log.procOut + [s.processed.items[0]]))
    case AddFrame =>
      var f := t.phase.f;
      var chunk := OpenChunk(t.open, f.key) + [f];
      var log := s.log.(batched := s.log.batched + [f]);
      if |chunk| >= f.batchSize then
        var b := Batch(|s.log.built|, f.key, chunk);
        s.(batcher := t.(phase := Pushing(b), open := t.open - {f.key}), log := log.(built := log.built + [b]))
      else
        s.(batcher := t.(phase := BatcherHead, open := t.open[f.key := chunk]), log := log)
    case PushFull => PushBatch(s.(batcher := t.(phase := BatcherHead)), t.phase.b)
    case FlushOne(k) =>
      var b := Batch(|s.log.built|, k, t.open[k]);
      PushBatch(s.(batcher := t.(open := t.open - {k}), log := s.log.(built := s.log.built + [b])), b)
  }

  predicate PublisherEnabled(s: State, i: nat, pa: PublisherAct) {
    && i < |s.publishers|
    && var phase := s.publishers[i].phase;
       match pa
       case PublisherLoop => phase == LoopHead
       case PublisherPop => phase == Waiting && s.batches.items != []
       case PublisherEnd => phase == Waiting && s.batches.items == [] && s.batches.stopped
       case Attempt(_, _) => phase.Holding?
  }

  /** A publisher puts its batch back after a failure. */
  function Requeue(s: State, b: Batch): State {
    s.(batches := PushTo(s.batches, b),
       log := if s.batches.stopped then s.log.(requeueLost := s.log.requeueLost + [b]) else s.log)
  }

  function PublisherApply(s: State, i: nat, pa: PublisherAct): State
    requires PublisherEnabled(s, i, pa)
  {
    var t := s.publishers[i];
    match pa
    case PublisherLoop => s.(publishers := s.publishers[i := t.(phase := if t.stop then Done else Waiting)])
    case PublisherEnd => s.(publishers := s.publishers[i := t.(phase := Done)])
    case PublisherPop =>
      s.(publishers := s.publishers[i := t.(phase := Holding(s.batches.items[0]))], batches := PopFrom(s.batches))
    case Attempt(reconnected, replied) =>
      var b := t.phase.held;
      var idle := t.(phase := LoopHead);
      if s.dryRun then
        s.(publishers := s.publishers[i := idle], log := s.log.(simulated := s.log.simulated + [b]))
      else if !t.conn && !reconnected then
        Requeue(s.(publishers := s.publishers[i := idle.(conn := false)]), b)
      else if !replied then
        Requeue(s.(publishers := s.publishers[i := idle.(conn := false)]), b)
      else
        s.(publishers := s.publishers[i := idle.(conn := true)], log := s.log.(acked := s.log.acked + [b]))
  }

  /** The main thread: waits for a join to return, otherwise takes its next stop call. */
  predicate ControlEnabled(s: State) {
    match s.ctl
    case JoinStreams(i, asked) => i <= |s.streams| && (asked ==> i < |s.streams| && s.streams[i].phase == StreamDone)
    case JoinWorkers(i, asked) => i <= |s.workers| && (asked ==> i < |s.workers| && s.workers[i].phase == Done)
    case JoinBatcher(asked) => asked ==> s.batcher.phase == BatcherDone
    case JoinPublishers(i, asked) =>
      i <= |s.publishers| && (asked ==> i < |s.publishers| && s.publishers[i].phase == Done)
    case Finished => false
    case _ => true
  }

  function ControlApply(s: State): State
    requires ControlEnabled(s)
  {
    match s.ctl
    case Running => s.(ctl := JoinStreams(0, false))
    case JoinStreams(i, asked) =>
      if asked then s.(ctl := JoinStreams(i + 1, false))
      else if i == |s.streams| then s.(ctl := StopDecode)
      else s.(streams := s.streams[i := s.streams[i].(stop := true)], ctl := JoinStreams(i, true))
    case StopDecode => s.(decode := StopQueue(s.decode), ctl := StopProcessed)
    case StopProcessed => s.(processed := StopQueue(s.processed), ctl := JoinWorkers(0, false))
    case JoinWorkers(i, asked) =>
      if asked then s.(ctl := JoinWorkers(i + 1, false))
      else if i == |s.workers| then s.(ctl := StopProcessedAgain)
      else s.(workers := s.workers[i := s.workers[i].(stop := true)], ctl := JoinWorkers(i, true))
    case StopProcessedAgain => s.(processed := StopQueue(s.processed), ctl := JoinBatcher(false))
    case JoinBatcher(asked) =>
      if asked then s.(ctl := StopBatches)
      else s.(batcher := s.batcher.(stop := true), ctl := JoinBatcher(true))
    case StopBatches => s.(batches := StopQueue(s.batches), ctl := JoinPublishers(0, false))
    case JoinPublishers(i, asked) =>
      if asked then s.(ctl := JoinPublishers(i + 1, false))
      else if i == |s.publishers| then s.(ctl := Finished)
      else s.(publishers := s.publishers[i := s.publishers[i].(stop := true)], ctl := JoinPublishers(i, true))
  }

  predicate Enabled(s: State, a: Action) {
    match a
    case OfStream(i, sa) => StreamEnabled(s, i, sa)
    case OfWorker(i, wa) => WorkerEnabled(s, i, wa)
    case OfBatcher(ba) => BatcherEnabled(s, ba)
    case OfPublisher(i, pa) => PublisherEnabled(s, i, pa)
    case Control => ControlEnabled(s)
    case SpawnStream => !s.ctl.JoinStreams?   // `stop_all` holds the manager's mutex
    case AskStream(i) => !s.ctl.JoinStreams? && i < |s.streams|
  }

  function Apply(s: State, a: Action): State
    requires Enabled(s, a)
  {
    match a
    case OfStream(i, sa) => StreamApply(s, i, sa)
    case OfWorker(i, wa) => WorkerApply(s, i, wa)
    case OfBatcher(ba) => BatcherApply(s, ba)
    case OfPublisher(i, pa) => PublisherApply(s, i, pa)
    case Control => ControlApply(s)
    case SpawnStream => s.(streams := s.streams + [Stream(false, Reading)])
    case AskStream(i) => s.(streams := s.streams[i := s.streams[i].(stop := true)])
  }

  // ---------- Runs ----------

  predicate Possible(s: State, run: seq<Action>)
    decreases |run|
  {
    run == [] || (Enabled(s, run[0]) && Possible(Apply(s, run[0]), run[1..]))
  }

  function After(s: State, run: seq<Action>): State
    requires Possible(s, run)
    decreases |run|
  {
    if run == [] then s else After(Apply(s, run[0]), run[1..])
  }

  /** Some run leads from `s` to `t`. */
  ghost predicate Reaches(s: State, t: State) {
    exists run :: Possible(s, run) && After(s, run) == t
  }

  lemma ReachesSelf(s: State)
    ensures Reaches(s, s)
  {
    assert Possible(s, []) && After(s, []) == s;
  }

  lemma ReachesStep(s: State, a: Action, t: State)
    requires Enabled(s, a) && Reaches(Apply(s, a), t)
    ensures Reaches(s, t)
  {
    var run :| Possible(Apply(s, a), run) && After(Apply(s, a), run) == t;
    assert ([a] + run)[1..] == run;
    assert Possible(s, [a] + run) && After(s, [a] + run) == t;
  }

  lemma StreamThen(s: State, i: nat, sa: StreamAct, t: State, u: State)
    requires StreamEnabled(s, i, sa) && StreamApply(s, i, sa) == t && Reaches(t, u)
    ensures Reaches(s, u)
  {
    ReachesStep(s, OfStream(i, sa), u);
  }

  lemma WorkerThen(s: State, i: nat, wa: WorkerAct, t: State, u: State)
    requires WorkerEnabled(s, i, wa) && WorkerApply(s, i, wa) == t && Reaches(t, u)
    ensures Reaches(s, u)
  {
    ReachesStep(s, OfWorker(i, wa), u);
  }

  lemma BatcherThen(s: State, ba: BatcherAct, t: State, u: State)
    requires BatcherEnabled(s, ba) && BatcherApply(s, ba) == t && Reaches(t, u)
    ensures Reaches(s, u)
  {
    ReachesStep(s, OfBatcher(ba), u);
  }

  lemma {:induction false} RunThenReach(s: State, run: seq<Action>, u: State)
    requires Possible(s, run) && Reaches(After(s, run), u)
    ensures Reaches(s, u)
    decreases |run|
  {
    if run != [] {
      RunThenReach(Apply(s, run[0]), run[1..], u);
      ReachesStep(s, run[0], u);
    }
  }

  lemma ReachesTrans(s: State, t: State, u: State)
    requires Reaches(s, t) && Reaches(t, u)
    ensures Reaches(s, u)
  {
    var run :| Possible(s, run) && After(s, run) == t;
    RunThenReach(s, run, u);
  }

  /** A run in which the reloader starts no stream. */
  predicate NoSpawn(run: seq<Action>) {
    forall a | a in run :: !a.SpawnStream?
  }

  ghost predicate ReachesWithoutSpawn(s: State, t: State) {
    exists run :: NoSpawn(run) && Possible(s, run) && After(s, run) == t
  }

  lemma WithoutSpawnSelf(s: State)
    ensures ReachesWithoutSpawn(s, s)
  {
    assert NoSpawn([]) && Possible(s, []) && After(s, []) == s;
  }

  lemma WithoutSpawnStep(s: State, a: Action, t: State)
    requires Enabled(s, a) && !a.SpawnStream? && ReachesWithoutSpawn(Apply(s, a), t)
    ensures ReachesWithoutSpawn(s, t)
  {
    var run :| NoSpawn(run) && Possible(Apply(s, a), run) && After(Apply(s, a), run) == t;
    assert ([a] + run)[1..] == run;
    assert NoSpawn([a] + run) && Possible(s, [a] + run) && After(s, [a] + run) == t;
  }

  lemma WithoutSpawnReaches(s: State, t: State)
    requires ReachesWithoutSpawn(s, t)
    ensures Reaches(s, t)
  {
  }

  function EmptyLog(): Log {
    Log([], [], [], [], [], [], [], [], [], [], [], [], [], [])
  }

  /** Threads just started, queues empty. */
  predicate Initial(s: State) {
    && s.decode == Queue([], false) && s.processed == Queue([], false) && s.batches == Queue([], false)
    && s.ctl == Running && s.log == EmptyLog()
    && s.batcher == BatcherThread(false, BatcherHead, map[])
    && (forall i | 0 <= i < |s.streams| :: s.streams[i] == Stream(false, Reading))
    && (forall i | 0 <= i < |s.workers| :: s.workers[i] == Worker(false, LoopHead))
    && (forall i | 0 <= i < |s.publishers| :: !s.publishers[i].stop && s.publishers[i].phase == LoopHead)
  }
}
