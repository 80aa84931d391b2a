/** The shutdown sequence: what each stage guarantees, and why every join returns. */
module PipelineControl {
  import opened Chunking
  import opened Pipeline

  function Stage(ctl: Ctl): nat {
    match ctl
    case Running => 0
    case JoinStreams(_, _) => 1
    case StopDecode => 2
    case StopProcessed => 3
    case JoinWorkers(_, _) => 4
    case StopProcessedAgain => 5
    case JoinBatcher(_) => 6
    case StopBatches => 7
    case JoinPublishers(_, _) => 8
    case Finished => 9
  }

  predicate StreamsInv(s: State) {
    s.ctl.JoinStreams? ==>
      && s.ctl.i <= |s.streams| && (s.ctl.asked ==> s.ctl.i < |s.streams| && s.streams[s.ctl.i].stop)
      && forall j | 0 <= j < s.ctl.i :: s.streams[j].phase == StreamDone
  }

  predicate WorkersInv(s: State) {
    && s.decode.stopped == (Stage(s.ctl) >= 3)
    && (Stage(s.ctl) < 4 ==> forall j | 0 <= j < |s.workers| :: !s.workers[j].stop)
    && (s.ctl.JoinWorkers? ==>
          && s.ctl.i <= |s.workers| && (s.ctl.asked ==> s.ctl.i < |s.workers| && s.workers[s.ctl.i].stop)
          && forall j | 0 <= j < s.ctl.i :: s.workers[j].phase == Done)
    && (Stage(s.ctl) >= 5 ==> forall j | 0 <= j < |s.workers| :: s.workers[j].phase == Done)
  }

  predicate BatcherInv(s: State) {
    && s.processed.stopped == (Stage(s.ctl) >= 4)
    && (s.ctl.JoinBatcher? && s.ctl.asked ==> s.batcher.stop)
    && (Stage(s.ctl) >= 7 ==> s.batcher.phase == BatcherDone)
    && s.log.pushLost == []
  }

  predicate PublishersInv(s: State) {
    && s.batches.stopped == (Stage(s.ctl) >= 8)
    && (s.ctl.JoinPublishers? ==>
          && s.ctl.i <= |s.publishers| && (s.ctl.asked ==> s.ctl.i < |s.publishers| && s.publishers[s.ctl.i].stop)
          && forall j | 0 <= j < s.ctl.i :: s.publishers[j].phase == Done)
    && (Stage(s.ctl) >= 9 ==> forall j | 0 <= j < |s.publishers| :: s.publishers[j].phase == Done)
  }

  /** What the main thread may rely on at each stage. */
  predicate ControlInv(s: State) {
    StreamsInv(s) && WorkersInv(s) && BatcherInv(s) && PublishersInv(s)
  }

  lemma ControlByStream(s: State, i: nat, sa: StreamAct)
    requires ControlInv(s) && StreamEnabled(s, i, sa)
    ensures ControlInv(StreamApply(s, i, sa))
  {
  }

  lemma ControlByWorker(s: State, i: nat, wa: WorkerAct)
    requires ControlInv(s) && WorkerEnabled(s, i, wa)
    ensures ControlInv(WorkerApply(s, i, wa))
  {
  }

  lemma ControlByBatcher(s: State, ba: BatcherAct)
    requires ControlInv(s) && BatcherEnabled(s, ba)
    ensures ControlInv(BatcherApply(s, ba))
  {
  }

  lemma ControlByPublisher(s: State, i: nat, pa: PublisherAct)
    requires ControlInv(s) && PublisherEnabled(s, i, pa)
    ensures ControlInv(PublisherApply(s, i, pa))
  {
  }

  lemma MainWorkers(s: State)
    requires WorkersInv(s) && ControlEnabled(s)
    ensures WorkersInv(ControlApply(s))
  {
  }

  lemma MainBatcher(s: State)
    requires BatcherInv(s) && ControlEnabled(s)
    ensures BatcherInv(ControlApply(s))
  {
  }

  lemma MainPublishers(s: State)
    requires PublishersInv(s) && ControlEnabled(s)
    ensures PublishersInv(ControlApply(s))
  {
  }

  lemma ControlByMain(s: State)
    requires ControlInv(s) && ControlEnabled(s)
    ensures ControlInv(ControlApply(s))
  {
    MainWorkers(s);
    MainBatcher(s);
    MainPublishers(s);
    assert StreamsInv(ControlApply(s));
  }

  lemma ControlStep(s: State, a: Action)
    requires ControlInv(s) && Enabled(s, a)
    ensures ControlInv(Apply(s, a))
  {
    match a
    case OfStream(i, sa) => ControlByStream(s, i, sa);
    case OfWorker(i, wa) => ControlByWorker(s, i, wa);
    case OfBatcher(ba) => ControlByBatcher(s, ba);
    case OfPublisher(i, pa) => ControlByPublisher(s, i, pa);
    case Control => ControlByMain(s);
    case _ =>
  }

  // ---------- Joins return ----------

  /** The thread the main thread is joining has finished. */
  predicate AwaitedDone(s: State) {
    match s.ctl
    case JoinStreams(i, true) => i < |s.streams| && s.streams[i].phase == StreamDone
    case JoinWorkers(i, true) => i < |s.workers| && s.workers[i].phase == Done
    case JoinBatcher(true) => s.batcher.phase == BatcherDone
    case JoinPublishers(i, true) => i < |s.publishers| && s.publishers[i].phase == Done
    case _ => true
  }

  /** The next stop call, or a step of the thread being joined. */
  predicate Awaited(s: State, a: Action) {
    match a
    case Control => s.ctl != Running
    case OfStream(i, _) => s.ctl == JoinStreams(i, true)
    case OfWorker(i, _) => s.ctl == JoinWorkers(i, true)
    case OfBatcher(_) => s.ctl == JoinBatcher(true)
    case OfPublisher(i, _) => s.ctl == JoinPublishers(i, true)
    case _ => false
  }

  /** Joins and stop calls still ahead. */
  function CallsLeft(s: State): nat {
    var n := if s.ctl.JoinStreams? || s.ctl.Running? then |s.streams| else 0;
    match s.ctl
    case Running => Left(n) + Left(|s.workers|) + Left(|s.publishers|) + 12
    case JoinStreams(i, asked) => Remaining(n, i, asked) + Left(|s.workers|) + Left(|s.publishers|) + 10
    case StopDecode => Left(|s.workers|) + Left(|s.publishers|) + 9
    case StopProcessed => Left(|s.workers|) + Left(|s.publishers|) + 8
    case JoinWorkers(i, asked) => Remaining(|s.workers|, i, asked) + Left(|s.publishers|) + 7
    case StopProcessedAgain => Left(|s.publishers|) + 6
    case JoinBatcher(asked) => Left(|s.publishers|) + (if asked then 4 else 5)
    case StopBatches => Left(|s.publishers|) + 3
    case JoinPublishers(i, asked) => Remaining(|s.publishers|, i, asked) + 1
    case Finished => 0
  }

  function Left(n: nat): nat {
    2 * n + 1
  }

  function Remaining(n: nat, i: nat, asked: bool): nat {
    if i > n then 0 else 2 * (n - i) + (if asked then 0 else 1)
  }

  function StreamRank(t: Stream): nat {
    match t.phase
    case Reading => 1
    case Emitting(out) => |out| + 2
    case StreamDone => 0
  }

  function WorkerRank(t: Worker): nat {
    match t.phase
    case LoopHead => 1
    case Waiting => 8
    case Holding(out) => |out| + 2
    case Done => 0
  }

  function BatcherRank(t: BatcherThread): nat {
    match t.phase
    case BatcherDone => 0
    case Flushing => |t.open| + 1
    case BatcherHead => |t.open| + 2
    case Pushing(_) => |t.open| + 3
    case Adding(_) => |t.open| + 5
    case BatcherWaiting => |t.open| + 6
  }

  function PublisherRank(t: Publisher): nat {
    match t.phase
    case Done => 0
    case LoopHead => 1
    case Holding(_) => 2
    case Waiting => 3
  }

  /** How many steps the thread being joined can still make. */
  function StepsLeft(s: State): nat {
    match s.ctl
    case JoinStreams(i, true) => if i < |s.streams| then StreamRank(s.streams[i]) else 0
    case JoinWorkers(i, true) => if i < |s.workers| then WorkerRank(s.workers[i]) else 0
    case JoinBatcher(true) => BatcherRank(s.batcher)
    case JoinPublishers(i, true) => if i < |s.publishers| then PublisherRank(s.publishers[i]) else 0
    case _ => 0
  }

  /** The lexicographic measure of the shutdown. */
  predicate RankDecreases(s: State, t: State) {
    CallsLeft(t) < CallsLeft(s) || (CallsLeft(t) == CallsLeft(s) && StepsLeft(t) < StepsLeft(s))
  }

  lemma CallDecreases(s: State)
    requires ControlInv(s) && s.ctl != Running && ControlEnabled(s)
    ensures CallsLeft(ControlApply(s)) < CallsLeft(s)
  {
  }

  lemma MapShrinks<K, V>(m: map<K, V>, k: K)
    requires k in m
    ensures |m - {k}| < |m|
  {
    assert (m - {k}).Keys == m.Keys - {k};
    assert |m.Keys| == |m| && |(m - {k}).Keys| == |m - {k}|;
  }

  lemma MapGrows<K, V>(m: map<K, V>, k: K, v: V)
    ensures |m[k := v]| <= |m| + 1
    ensures |m - {k}| <= |m|
  {
    assert m[k := v].Keys == m.Keys + {k};
    assert (m - {k}).Keys == m.Keys - {k};
    assert |m.Keys| == |m| && |(m - {k}).Keys| == |m - {k}| && |m[k := v].Keys| == |m[k := v]|;
    if k in m {
      assert m.Keys + {k} == m.Keys;
    }
  }

  lemma StreamSteps(s: State, i: nat, sa: StreamAct)
    requires StreamEnabled(s, i, sa) && s.streams[i].stop
    ensures StreamRank(StreamApply(s, i, sa).streams[i]) < StreamRank(s.streams[i])
  {
  }

  lemma WorkerSteps(s: State, i: nat, wa: WorkerAct)
    requires WorkerEnabled(s, i, wa) && s.workers[i].stop
    ensures WorkerRank(WorkerApply(s, i, wa).workers[i]) < WorkerRank(s.workers[i])
  {
  }

  lemma AddSteps(s: State)
    requires s.batcher.phase.Adding?
    ensures BatcherRank(BatcherApply(s, AddFrame).batcher) < BatcherRank(s.batcher)
  {
    var f := s.batcher.phase.f;
    var chunk := OpenChunk(s.batcher.open, f.key) + [f];
    MapGrows(s.batcher.open, f.key, chunk);
    var t := BatcherApply(s, AddFrame).batcher;
    if |chunk| >= f.batchSize {
      assert t.open == s.batcher.open - {f.key} && t.phase.Pushing?;
    } else {
      assert t.open == s.batcher.open[f.key := chunk] && t.phase == BatcherHead;
    }
  }

  lemma FlushSteps(s: State, k: Key)
    requires s.batcher.phase == Flushing && k in s.batcher.open
    ensures BatcherRank(BatcherApply(s, FlushOne(k)).batcher) < BatcherRank(s.batcher)
  {
    MapShrinks(s.batcher.open, k);
    assert BatcherApply(s, FlushOne(k)).batcher == s.batcher.(open := s.batcher.open - {k});
  }

  lemma BatcherSteps(s: State, ba: BatcherAct)
    requires BatcherEnabled(s, ba) && s.batcher.stop
    ensures BatcherRank(BatcherApply(s, ba).batcher) < BatcherRank(s.batcher)
  {
    match ba
    case AddFrame => AddSteps(s);
    case FlushOne(k) => FlushSteps(s, k);
    case _ =>
  }

  lemma PublisherSteps(s: State, i: nat, pa: PublisherAct)
    requires PublisherEnabled(s, i, pa) && s.publishers[i].stop
    ensures PublisherRank(PublisherApply(s, i, pa).publishers[i]) < PublisherRank(s.publishers[i])
  {
  }

  lemma AwaitedStream(s: State, i: nat, sa: StreamAct)
    requires ControlInv(s) && s.ctl == JoinStreams(i, true) && StreamEnabled(s, i, sa)
    ensures RankDecreases(s, StreamApply(s, i, sa))
  {
    StreamSteps(s, i, sa);
  }

  lemma AwaitedWorker(s: State, i: nat, wa: WorkerAct)
    requires ControlInv(s) && s.ctl == JoinWorkers(i, true) && WorkerEnabled(s, i, wa)
    ensures RankDecreases(s, WorkerApply(s, i, wa))
  {
    WorkerSteps(s, i, wa);
  }

  lemma AwaitedBatcher(s: State, ba: BatcherAct)
    requires ControlInv(s) && s.ctl == JoinBatcher(true) && BatcherEnabled(s, ba)
    ensures RankDecreases(s, BatcherApply(s, ba))
  {
    BatcherSteps(s, ba);
  }

  lemma AwaitedPublisher(s: State, i: nat, pa: PublisherAct)
    requires ControlInv(s) && s.ctl == JoinPublishers(i, true) && PublisherEnabled(s, i, pa)
    ensures RankDecreases(s, PublisherApply(s, i, pa))
  {
    PublisherSteps(s, i, pa);
  }

  /** Every step of the awaited thread, and every stop call, brings the end of the shutdown closer. */
  lemma AwaitedDecreases(s: State, a: Action)
    requires ControlInv(s) && Enabled(s, a) && Awaited(s, a)
    ensures RankDecreases(s, Apply(s, a))
  {
    match a
    case Control => CallDecreases(s);
    case OfStream(i, sa) => AwaitedStream(s, i, sa);
    case OfWorker(i, wa) => AwaitedWorker(s, i, wa);
    case OfBatcher(ba) => AwaitedBatcher(s, ba);
    case OfPublisher(i, pa) => AwaitedPublisher(s, i, pa);
  }

  /** What the measure depends on. */
  predicate SameRank(s: State, t: State) {
    && t.ctl == s.ctl && |t.workers| == |s.workers| && |t.publishers| == |s.publishers|
    && (s.ctl.JoinStreams? ==> |t.streams| == |s.streams|)
    && StepsLeft(t) == StepsLeft(s)
  }

  lemma OtherThread(s: State, a: Action)
    requires s.ctl != Running && Enabled(s, a) && !Awaited(s, a)
    ensures SameRank(s, Apply(s, a))
  {
    match a
    case OfStream(i, sa) => OtherStream(s, i, sa);
    case OfWorker(i, wa) => OtherWorker(s, i, wa);
    case OfBatcher(ba) => OtherBatcher(s, ba);
    case OfPublisher(i, pa) => OtherPublisher(s, i, pa);
    case _ =>
  }

  lemma OtherStream(s: State, i: nat, sa: StreamAct)
    requires s.ctl != JoinStreams(i, true) && StreamEnabled(s, i, sa)
    ensures SameRank(s, StreamApply(s, i, sa))
  {
  }

  lemma OtherWorker(s: State, i: nat, wa: WorkerAct)
    requires s.ctl != JoinWorkers(i, true) && WorkerEnabled(s, i, wa)
    ensures SameRank(s, WorkerApply(s, i, wa))
  {
  }

  lemma OtherPublisher(s: State, i: nat, pa: PublisherAct)
    requires s.ctl != JoinPublishers(i, true) && PublisherEnabled(s, i, pa)
    ensures SameRank(s, PublisherApply(s, i, pa))
  {
  }

  lemma OtherBatcher(s: State, ba: BatcherAct)
    requires s.ctl != JoinBatcher(true) && BatcherEnabled(s, ba)
    ensures SameRank(s, BatcherApply(s, ba))
  {
  }

  /** No other thread can postpone it, whatever it does. */
  lemma OthersDoNotDelay(s: State, a: Action)
    requires s.ctl != Running && Enabled(s, a) && !Awaited(s, a)
    ensures CallsLeft(Apply(s, a)) == CallsLeft(s) && StepsLeft(Apply(s, a)) == StepsLeft(s)
  {
    OtherThread(s, a);
  }

  lemma StreamCanStep(s: State, i: nat)
    requires i < |s.streams| && s.streams[i].phase != StreamDone
    ensures exists sa :: StreamEnabled(s, i, sa)
  {
    assert StreamEnabled(s, i, if s.streams[i].phase == Reading then Leave else Emit);
  }

  lemma WorkerCanStep(s: State, i: nat)
    requires i < |s.workers| && s.workers[i].phase != Done && s.decode.stopped
    ensures exists wa :: WorkerEnabled(s, i, wa)
  {
    assert WorkerEnabled(s, i, match s.workers[i].phase
                               case LoopHead => WorkerLoop
                               case Waiting => if s.decode.items == [] then WorkerEnd else WorkerPop([])
                               case _ => Send);
  }

  lemma BatcherCanStep(s: State)
    requires s.batcher.phase != BatcherDone && s.processed.stopped
    ensures exists ba :: BatcherEnabled(s, ba)
  {
    match s.batcher.phase
    case BatcherHead => assert BatcherEnabled(s, BatcherLoop);
    case BatcherWaiting => assert BatcherEnabled(s, if s.processed.items == [] then BatcherEnd else BatcherPop);
    case Adding(_) => assert BatcherEnabled(s, AddFrame);
    case Pushing(_) => assert BatcherEnabled(s, PushFull);
    case Flushing =>
      if s.batcher.open == map[] {
        assert BatcherEnabled(s, FlushEnd);
      } else {
        var k :| k in s.batcher.open;
        assert BatcherEnabled(s, FlushOne(k));
      }
  }

  lemma PublisherCanStep(s: State, i: nat)
    requires i < |s.publishers| && s.publishers[i].phase != Done && s.batches.stopped
    ensures exists pa :: PublisherEnabled(s, i, pa)
  {
    assert PublisherEnabled(s, i, match s.publishers[i].phase
                                  case LoopHead => PublisherLoop
                                  case Waiting => if s.batches.items == [] then PublisherEnd else PublisherPop
                                  case _ => Attempt(false, false));
  }

  /**
   * No deadlock: until the shutdown is over, the main thread or the thread it joins can always step.
   * Queues are stopped before their consumers are joined, so none of them can block there.
   */
  lemma NeverBlocked(s: State)
    requires ControlInv(s) && s.ctl != Running && s.ctl != Finished
    ensures exists a :: Awaited(s, a) && Enabled(s, a)
  {
    if AwaitedDone(s) {
      assert Awaited(s, Control) && Enabled(s, Control);
    } else {
      match s.ctl
      case JoinStreams(i, _) =>
        StreamCanStep(s, i);
        var sa :| StreamEnabled(s, i, sa);
        assert Awaited(s, OfStream(i, sa)) && Enabled(s, OfStream(i, sa));
      case JoinWorkers(i, _) =>
        WorkerCanStep(s, i);
        var wa :| WorkerEnabled(s, i, wa);
        assert Awaited(s, OfWorker(i, wa)) && Enabled(s, OfWorker(i, wa));
      case JoinBatcher(_) =>
        BatcherCanStep(s);
        var ba :| BatcherEnabled(s, ba);
        assert Awaited(s, OfBatcher(ba)) && Enabled(s, OfBatcher(ba));
      case JoinPublishers(i, _) =>
        PublisherCanStep(s, i);
        var pa :| PublisherEnabled(s, i, pa);
        assert Awaited(s, OfPublisher(i, pa)) && Enabled(s, OfPublisher(i, pa));
    }
  }

  lemma StillStopping(s: State, a: Action)
    requires s.ctl != Running && Enabled(s, a)
    ensures Apply(s, a).ctl != Running
  {
    match a
    case OfStream(i, sa) => assert Apply(s, a) == StreamApply(s, i, sa);
    case OfWorker(i, wa) => assert Apply(s, a) == WorkerApply(s, i, wa);
    case OfBatcher(ba) => assert Apply(s, a) == BatcherApply(s, ba);
    case OfPublisher(i, pa) => assert Apply(s, a) == PublisherApply(s, i, pa);
    case Control => assert Apply(s, a) == ControlApply(s);
    case _ =>
  }

  /** Some step that brings the end closer. */
  lemma AwaitedNext(s: State) returns (a: Action)
    requires ControlInv(s) && s.ctl != Running && s.ctl != Finished
    ensures Awaited(s, a) && Enabled(s, a)
    ensures ControlInv(Apply(s, a)) && Apply(s, a).ctl != Running && RankDecreases(s, Apply(s, a))
  {
    NeverBlocked(s);
    a :| Awaited(s, a) && Enabled(s, a);
    AwaitedDecreases(s, a);
    ControlStep(s, a);
    StillStopping(s, a);
  }

  /** From every state of a shutdown the process can still finish. */
  lemma {:induction false} ShutdownCanFinish(s: State)
    requires ControlInv(s) && s.ctl != Running
    ensures exists t :: Reaches(s, t) && t.ctl == Finished
    decreases CallsLeft(s), StepsLeft(s)
  {
    if s.ctl == Finished {
      ReachesSelf(s);
    } else {
      var a := AwaitedNext(s);
      ShutdownCanFinish(Apply(s, a));
      var t :| Reaches(Apply(s, a), t) && t.ctl == Finished;
      ReachesStep(s, a, t);
    }
  }

  // ---------- Publishers after the batch queue has stopped ----------

  function PublisherWeight(t: Publisher): nat {
    match t.phase
    case Done => 0
    case Waiting => 1
    case LoopHead => 2
    case Holding(_) => 3
  }

  function TotalWeight(ps: seq<Publisher>): nat {
    if ps == [] then 0 else PublisherWeight(ps[0]) + TotalWeight(ps[1..])
  }

  lemma {:induction false} TotalWeightUpdate(ps: seq<Publisher>, i: nat, t: Publisher)
    requires i < |ps|
    ensures TotalWeight(ps[i := t]) + PublisherWeight(ps[i]) == TotalWeight(ps) + PublisherWeight(t)
  {
    if i > 0 {
      assert ps[i := t][1..] == ps[1..][i - 1 := t];
      TotalWeightUpdate(ps[1..], i - 1, t);
    }
  }

  /** A bound on all steps the publishers can still make. */
  function PublisherWork(s: State): nat {
    3 * |s.batches.items| + TotalWeight(s.publishers)
  }

  lemma PublisherWorks(s: State, i: nat, pa: PublisherAct)
    requires s.batches.stopped && PublisherEnabled(s, i, pa)
    ensures PublisherWork(PublisherApply(s, i, pa)) < PublisherWork(s)
  {
    TotalWeightUpdate(s.publishers, i, PublisherApply(s, i, pa).publishers[i]);
  }

  lemma OthersAddNoWork(s: State, a: Action)
    requires s.batches.stopped && Enabled(s, a) && !a.OfPublisher?
    ensures PublisherWork(Apply(s, a)) == PublisherWork(s)
  {
    match a
    case Control =>
      if s.ctl.JoinPublishers? && s.ctl.i < |s.publishers| {
        TotalWeightUpdate(s.publishers, s.ctl.i, s.publishers[s.ctl.i].(stop := true));
      }
    case OfStream(i, sa) => assert Apply(s, a) == StreamApply(s, i, sa);
    case OfWorker(i, wa) => assert Apply(s, a) == WorkerApply(s, i, wa);
    case OfBatcher(ba) => assert Apply(s, a) == BatcherApply(s, ba);
    case _ =>
  }

  function PublisherStepsIn(run: seq<Action>): nat {
    if run == [] then 0 else (if run[0].OfPublisher? then 1 else 0) + PublisherStepsIn(run[1..])
  }

  /**
   * Once the batch queue has stopped, the publishers finish within a bound known in advance, even if every XADD
   * fails.
   */
  lemma {:induction false} PublishersFinish(s: State, run: seq<Action>)
    requires s.batches.stopped && Possible(s, run)
    ensures After(s, run).batches.stopped
    ensures PublisherStepsIn(run) + PublisherWork(After(s, run)) <= PublisherWork(s)
    ensures |After(s, run).batches.items| <= |s.batches.items|
    decreases |run|
  {
    if run != [] {
      var a := run[0];
      if a.OfPublisher? {
        PublisherWorks(s, a.i, a.pa);
      } else {
        OthersAddNoWork(s, a);
      }
      StoppedStays(s, a);
      PublishersFinish(Apply(s, a), run[1..]);
    }
  }

  lemma StoppedStays(s: State, a: Action)
    requires s.batches.stopped && Enabled(s, a)
    ensures Apply(s, a).batches.stopped && |Apply(s, a).batches.items| <= |s.batches.items|
  {
    match a
    case OfPublisher(i, pa) => assert Apply(s, a) == PublisherApply(s, i, pa);
    case OfBatcher(ba) => assert Apply(s, a) == BatcherApply(s, ba);
    case Control => assert Apply(s, a) == ControlApply(s);
    case _ =>
  }
}
