/**
 * Shutdown is documented to flush the queues. `Publisher::stop` asks the batcher and the publishers to stop while
 * their queues may hold items: runs that leave some behind, and when none does, exactly, from the call on until
 * the batch queue is stopped.
 */
module PublisherStop {
  import opened Chunking
  import opened Pipeline
  import opened PipelineControl
  import opened PipelineTheorems
  import opened PipelineStages

  // ---------- The batcher ----------

  /** The batcher has finished with frames still queued for it. */
  predicate Strands(t: State) {
    t.batcher.phase == BatcherDone && t.processed.items != []
  }

  /** What a stop request lets the batcher still take: the one frame a batcher waiting on the queue pops. */
  predicate WithinReach(s: State) {
    |s.processed.items| <= if s.batcher.phase == BatcherWaiting then 1 else 0
  }

  lemma ReachKept(s: State, a: Action)
    requires s.processed.stopped && WithinReach(s) && Enabled(s, a)
    ensures Apply(s, a).processed.stopped && WithinReach(Apply(s, a))
  {
    match a
    case OfWorker(i, wa) => assert Apply(s, a) == WorkerApply(s, i, wa);
    case OfStream(i, sa) => assert Apply(s, a) == StreamApply(s, i, sa);
    case OfBatcher(ba) => assert Apply(s, a) == BatcherApply(s, ba);
    case OfPublisher(i, pa) => assert Apply(s, a) == PublisherApply(s, i, pa);
    case Control => assert Apply(s, a) == ControlApply(s);
    case _ =>
  }

  lemma {:induction false} ReachKeptRun(s: State, run: seq<Action>)
    requires s.processed.stopped && WithinReach(s) && Possible(s, run)
    ensures WithinReach(After(s, run))
    decreases |run|
  {
    if run != [] {
      ReachKept(s, run[0]);
      ReachKeptRun(Apply(s, run[0]), run[1..]);
    }
  }

  /** Asked to stop, with frames out of reach, the batcher can run to its end and leave some. */
  lemma {:induction false} BatcherLeavesSome(s: State)
    requires s.batcher.stop && s.processed.stopped && !WithinReach(s)
    ensures exists t :: Reaches(s, t) && Strands(t)
    decreases BatcherRank(s.batcher)
  {
    if s.batcher.phase == BatcherDone {
      ReachesSelf(s);
    } else {
      BatcherCanStep(s);
      var ba :| BatcherEnabled(s, ba);
      BatcherSteps(s, ba);
      var next := Apply(s, OfBatcher(ba));
      assert next == BatcherApply(s, ba);
      BatcherLeavesSome(next);
      var t :| Reaches(next, t) && Strands(t);
      ReachesStep(s, OfBatcher(ba), t);
    }
  }

  lemma CanStrandStep(s: State, t: State)
    requires ControlEnabled(s) && t == ControlApply(s) && exists u :: Reaches(t, u) && Strands(u)
    ensures exists u :: Reaches(s, u) && Strands(u)
  {
    var u :| Reaches(t, u) && Strands(u);
    assert t == Apply(s, Control);
    ReachesStep(s, Control, u);
  }

  lemma OutOfReachStrands(s: State)
    requires ControlInv(s) && 5 <= Stage(s.ctl) <= 7 && !WithinReach(s)
    ensures exists t :: Reaches(s, t) && Strands(t)
  {
    match s.ctl
    case StopProcessedAgain =>
      var joining := ControlApply(s);
      var asked := ControlApply(joining);
      BatcherLeavesSome(asked);
      CanStrandStep(joining, asked);
      CanStrandStep(s, joining);
    case JoinBatcher(asked) =>
      if asked {
        BatcherLeavesSome(s);
      } else {
        BatcherLeavesSome(ControlApply(s));
        CanStrandStep(s, ControlApply(s));
      }
    case StopBatches => ReachesSelf(s);
  }

  /**
   * While `Publisher::stop` is at the batcher: no schedule strands a frame in the processed queue exactly when all of
   * it is within the batcher's reach.
   */
  lemma BatcherDrainsIff(s: State)
    requires ControlInv(s) && 5 <= Stage(s.ctl) <= 7
    ensures (forall t | Reaches(s, t) :: !Strands(t)) <==> WithinReach(s)
  {
    if WithinReach(s) {
      forall t | Reaches(s, t) ensures !Strands(t) {
        var run :| Possible(s, run) && After(s, run) == t;
        ReachKeptRun(s, run);
      }
    } else {
      OutOfReachStrands(s);
    }
  }

  // ---------- Publishers sending to Redis ----------

  predicate PublishersDone(ps: seq<Publisher>) {
    forall j | 0 <= j < |ps| :: ps[j].phase == Done
  }

  /** A re-queue since `s` was dropped, or the publishers have finished with batches still queued. */
  predicate Loses(s: State, t: State) {
    |t.log.requeueLost| > |s.log.requeueLost| || (PublishersDone(t.publishers) && t.batches.items != [])
  }

  /** Something accepted for publishing was left behind, by the batcher or by the publishers. */
  predicate LeavesSome(s: State, t: State) {
    Strands(t) || Loses(s, t)
  }

  predicate NobodyHolding(s: State) {
    forall j | 0 <= j < |s.publishers| :: !s.publishers[j].phase.Holding?
  }

  /** Publishers are asked to stop only after the batch queue has been. */
  predicate NobodyAsked(s: State) {
    Stage(s.ctl) < 8 ==> forall j | 0 <= j < |s.publishers| :: !s.publishers[j].stop
  }

  lemma AskedStep(s: State, a: Action)
    requires NobodyAsked(s) && Enabled(s, a)
    ensures NobodyAsked(Apply(s, a))
  {
    match a
    case OfWorker(i, wa) => assert Apply(s, a) == WorkerApply(s, i, wa);
    case OfStream(i, sa) => assert Apply(s, a) == StreamApply(s, i, sa);
    case OfBatcher(ba) => assert Apply(s, a) == BatcherApply(s, ba);
    case OfPublisher(i, pa) => assert Apply(s, a) == PublisherApply(s, i, pa);
    case Control => assert Apply(s, a) == ControlApply(s);
    case _ =>
  }

  lemma {:induction false} AskedRun(s: State, run: seq<Action>)
    requires NobodyAsked(s) && Possible(s, run)
    ensures NobodyAsked(After(s, run))
    decreases |run|
  {
    if run != [] {
      AskedStep(s, run[0]);
      AskedRun(Apply(s, run[0]), run[1..]);
    }
  }

  lemma ReachableAsked(s: State)
    requires Reachable(s)
    ensures NobodyAsked(s)
  {
    var s0 :| Initial(s0) && Reaches(s0, s);
    var run :| Possible(s0, run) && After(s0, run) == s;
    AskedRun(s0, run);
  }

  /** Nothing is on its way to Redis any more. */
  predicate Idle(s: State) {
    !Busy(s) && NobodyHolding(s)
  }

  lemma IdleWorker(s: State, i: nat, wa: WorkerAct)
    requires s.processed.stopped && Idle(s) && WorkerEnabled(s, i, wa)
    ensures var t := WorkerApply(s, i, wa);
            t.processed.stopped && Idle(t) && t.log.requeueLost == s.log.requeueLost
  {
  }

  lemma IdleBatcher(s: State, ba: BatcherAct)
    requires s.processed.stopped && Idle(s) && BatcherEnabled(s, ba)
    ensures var t := BatcherApply(s, ba);
            t.processed.stopped && Idle(t) && t.log.requeueLost == s.log.requeueLost
  {
  }

  lemma IdlePublisher(s: State, i: nat, pa: PublisherAct)
    requires s.processed.stopped && Idle(s) && PublisherEnabled(s, i, pa)
    ensures var t := PublisherApply(s, i, pa);
            t.processed.stopped && Idle(t) && t.log.requeueLost == s.log.requeueLost
  {
  }

  lemma IdleControl(s: State)
    requires s.processed.stopped && Idle(s) && ControlEnabled(s)
    ensures var t := ControlApply(s);
            t.processed.stopped && Idle(t) && t.log.requeueLost == s.log.requeueLost
  {
  }

  lemma IdleStep(s: State, a: Action)
    requires s.processed.stopped && Idle(s) && Enabled(s, a)
    ensures var t := Apply(s, a); t.processed.stopped && Idle(t) && t.log.requeueLost == s.log.requeueLost
  {
    match a
    case OfWorker(i, wa) => IdleWorker(s, i, wa);
    case OfStream(i, sa) => assert Apply(s, a) == StreamApply(s, i, sa);
    case OfBatcher(ba) => IdleBatcher(s, ba);
    case OfPublisher(i, pa) => IdlePublisher(s, i, pa);
    case Control => IdleControl(s);
    case _ =>
  }

  lemma {:induction false} IdleRun(s: State, run: seq<Action>)
    requires s.processed.stopped && Idle(s) && Possible(s, run)
    ensures Idle(After(s, run)) && After(s, run).log.requeueLost == s.log.requeueLost
    decreases |run|
  {
    if run != [] {
      IdleStep(s, run[0]);
      IdleRun(Apply(s, run[0]), run[1..]);
    }
  }

  /** Some schedule from `s` on drops a re-queue. */
  ghost predicate CanDropBatch(s: State, lost: nat) {
    exists t :: Reaches(s, t) && |t.log.requeueLost| > lost
  }

  lemma CanDropBatchStep(s: State, a: Action, lost: nat)
    requires Enabled(s, a) && CanDropBatch(Apply(s, a), lost)
    ensures CanDropBatch(s, lost)
  {
    var t :| Reaches(Apply(s, a), t) && |t.log.requeueLost| > lost;
    ReachesStep(s, a, t);
  }

  lemma DropFromHolding(s: State, j: nat)
    requires s.batches.stopped && !s.dryRun && j < |s.publishers| && s.publishers[j].phase.Holding?
    ensures CanDropBatch(s, |s.log.requeueLost|)
  {
    var a := OfPublisher(j, Attempt(false, false));
    ReachesSelf(Apply(s, a));
    CanDropBatchStep(s, a, |s.log.requeueLost|);
  }

  lemma DropFromWaiting(s: State, j: nat)
    requires s.batches.stopped && !s.dryRun && j < |s.publishers|
    requires s.publishers[j].phase == Waiting && s.batches.items != []
    ensures CanDropBatch(s, |s.log.requeueLost|)
  {
    var a := OfPublisher(j, PublisherPop);
    DropFromHolding(Apply(s, a), j);
    CanDropBatchStep(s, a, |s.log.requeueLost|);
  }

  lemma DropFromIdle(s: State, j: nat)
    requires s.batches.stopped && !s.dryRun && j < |s.publishers| && s.batches.items != []
    requires !s.publishers[j].stop && s.publishers[j].phase != Done
    ensures CanDropBatch(s, |s.log.requeueLost|)
  {
    match s.publishers[j].phase
    case Holding(_) => DropFromHolding(s, j);
    case Waiting => DropFromWaiting(s, j);
    case LoopHead =>
      var a := OfPublisher(j, PublisherLoop);
      DropFromWaiting(Apply(s, a), j);
      CanDropBatchStep(s, a, |s.log.requeueLost|);
  }

  lemma SomeScheduleLoses(s: State)
    requires NobodyAsked(s) && s.ctl == StopBatches && !s.dryRun && !(s.batches.items == [] && NobodyHolding(s))
    ensures exists t :: Reaches(s, t) && Loses(s, t)
  {
    var u := Apply(s, Control);
    if j :| 0 <= j < |s.publishers| && s.publishers[j].phase.Holding? {
      DropFromHolding(u, j);
      CanDropBatchStep(s, Control, |s.log.requeueLost|);
    } else if PublishersDone(s.publishers) {
      ReachesSelf(s);
      assert Loses(s, s);
    } else {
      var j :| 0 <= j < |s.publishers| && s.publishers[j].phase != Done;
      DropFromIdle(u, j);
      CanDropBatchStep(s, Control, |s.log.requeueLost|);
    }
  }

  /** Whatever is not idle gets to the stop of the batch queue, and from there some schedule leaves it behind. */
  lemma NotIdleLeavesSome(s: State)
    requires Reachable(s) && 5 <= Stage(s.ctl) <= 7 && !s.dryRun && !Idle(s)
    ensures exists t :: Reaches(s, t) && LeavesSome(s, t)
  {
    ReachableInv(s);
    ReachStage(s, 7);
    var u :| Reaches(s, u) && Stage(u.ctl) == 7 && Onward(s, u);
    ReachableOn(s, u);
    ReachableInv(u);
    ReachableAsked(u);
    if u.processed.items != [] {
      assert LeavesSome(s, u);
    } else {
      assert u.ctl == StopBatches;
      SomeScheduleLoses(u);
      var t :| Reaches(u, t) && Loses(u, t);
      ReachesTrans(s, u, t);
      assert LeavesSome(s, t);
    }
  }

  /**
   * From the call of `Publisher::stop` until it stops the batch queue: publishers sending to Redis leave nothing behind
   * on any schedule exactly when no frame or batch is queued, open or in anyone's hands.
   */
  lemma PublishersLoseNothingIff(s: State)
    requires Reachable(s) && 5 <= Stage(s.ctl) <= 7 && !s.dryRun
    ensures (forall t | Reaches(s, t) :: !LeavesSome(s, t)) <==> Idle(s)
  {
    ReachableInv(s);
    if Idle(s) {
      forall t | Reaches(s, t) ensures !LeavesSome(s, t) {
        var run :| Possible(s, run) && After(s, run) == t;
        IdleRun(s, run);
      }
    } else {
      NotIdleLeavesSome(s);
    }
  }

  // ---------- A dry run ----------

  function WaitingCount(ps: seq<Publisher>): nat {
    if ps == [] then 0 else (if ps[0].phase == Waiting then 1 else 0) + WaitingCount(ps[1..])
  }

  lemma {:induction false} WaitingUpdate(ps: seq<Publisher>, i: nat, t: Publisher)
    requires i < |ps|
    ensures WaitingCount(ps[i := t]) + (if ps[i].phase == Waiting then 1 else 0)
         == WaitingCount(ps) + (if t.phase == Waiting then 1 else 0)
  {
    if i > 0 {
      assert ps[i := t][1..] == ps[1..][i - 1 := t];
      WaitingUpdate(ps[1..], i - 1, t);
    }
  }

  lemma {:induction false} NobodyWaits(ps: seq<Publisher>)
    requires PublishersDone(ps)
    ensures WaitingCount(ps) == 0
  {
    if ps != [] {
      NobodyWaits(ps[1..]);
    }
  }

  /** Whether the frame the batcher has, or is about to pop, opens a batch. */
  function Opens(b: BatcherThread, queued: seq<Frame>): nat {
    match b.phase
    case Pushing(_) => 1
    case Adding(f) => if f.key in b.open then 0 else 1
    case BatcherWaiting => if queued == [] || queued[0].key in b.open then 0 else 1
    case _ => 0
  }

  /** Batches that publishers will still be offered. */
  function BatchesToCome(s: State): nat {
    |s.batches.items| + |s.batcher.open| + Opens(s.batcher, s.processed.items)
  }

  /** All frames are within the batcher's reach, and every batch to come has a publisher waiting for it. */
  predicate Covered(s: State) {
    WithinReach(s) && BatchesToCome(s) <= WaitingCount(s.publishers)
  }

  lemma SizeSet<V>(m: map<Key, V>, k: Key, v: V)
    ensures |m[k := v]| == if k in m then |m| else |m| + 1
  {
    assert m[k := v].Keys == m.Keys + {k};
    assert |m.Keys| == |m| && |m[k := v].Keys| == |m[k := v]|;
    if k in m {
      assert m.Keys + {k} == m.Keys;
    }
  }

  lemma SizeDropped<V>(m: map<Key, V>, k: Key)
    ensures |m - {k}| == if k in m then |m| - 1 else |m|
  {
    assert (m - {k}).Keys == m.Keys - {k};
    assert |m.Keys| == |m| && |(m - {k}).Keys| == |m - {k}|;
    if k !in m {
      assert m.Keys - {k} == m.Keys;
    }
  }

  lemma DryAdd(s: State)
    requires WithinReach(s) && s.batcher.phase.Adding?
    ensures WithinReach(BatcherApply(s, AddFrame)) && BatchesToCome(BatcherApply(s, AddFrame)) == BatchesToCome(s)
  {
    var f, open := s.batcher.phase.f, s.batcher.open;
    SizeSet(open, f.key, OpenChunk(open, f.key) + [f]);
    SizeDropped(open, f.key);
  }

  lemma DryFlush(s: State, k: Key)
    requires WithinReach(s) && !s.batches.stopped && s.batcher.phase == Flushing && k in s.batcher.open
    ensures WithinReach(BatcherApply(s, FlushOne(k)))
    ensures BatchesToCome(BatcherApply(s, FlushOne(k))) == BatchesToCome(s)
  {
    SizeDropped(s.batcher.open, k);
  }

  lemma DryBatcher(s: State, ba: BatcherAct)
    requires WithinReach(s) && s.processed.stopped && !s.batches.stopped && BatcherEnabled(s, ba)
    ensures var t := BatcherApply(s, ba);
            && t.dryRun == s.dryRun && t.log.requeueLost == s.log.requeueLost && t.publishers == s.publishers
            && WithinReach(t) && BatchesToCome(t) == BatchesToCome(s)
  {
    match ba
    case AddFrame => DryAdd(s);
    case FlushOne(k) => DryFlush(s, k);
    case _ =>
  }

  lemma DryPublisher(s: State, i: nat, pa: PublisherAct)
    requires s.dryRun && PublisherEnabled(s, i, pa) && WithinReach(s)
    requires s.batches.stopped ==> BatchesToCome(s) == |s.batches.items|
    ensures var t := PublisherApply(s, i, pa);
            && t.dryRun && t.log.requeueLost == s.log.requeueLost
            && (Covered(s) ==> Covered(t))
            && (!Covered(s) && s.publishers[i].stop ==> !Covered(t))
  {
    WaitingUpdate(s.publishers, i, PublisherApply(s, i, pa).publishers[i]);
  }

  lemma DryControl(s: State)
    requires ControlEnabled(s)
    ensures var t := ControlApply(s);
            && t.dryRun == s.dryRun && t.log == s.log && (WithinReach(s) <==> WithinReach(t))
            && BatchesToCome(t) == BatchesToCome(s) && WaitingCount(t.publishers) == WaitingCount(s.publishers)
  {
    if s.ctl.JoinPublishers? && s.ctl.i < |s.publishers| {
      WaitingUpdate(s.publishers, s.ctl.i, s.publishers[s.ctl.i].(stop := true));
    }
  }

  /** The parts of the invariants that the dry run needs. */
  predicate PastWorkers(s: State) {
    && s.dryRun && s.processed.stopped
    && (s.batches.stopped ==> s.batcher.phase == BatcherDone)
    && (s.batcher.phase == BatcherDone ==> s.batcher.open == map[])
  }

  lemma InvPastWorkers(s: State)
    requires Inv(s) && s.dryRun && Stage(s.ctl) >= 5
    ensures PastWorkers(s)
  {
  }

  lemma CoveredStep(s: State, a: Action)
    requires PastWorkers(s) && Covered(s) && Enabled(s, a)
    ensures Covered(Apply(s, a)) && Apply(s, a).log.requeueLost == s.log.requeueLost && Apply(s, a).dryRun
  {
    match a
    case OfPublisher(i, pa) => DryPublisher(s, i, pa);
    case Control => DryControl(s);
    case OfBatcher(ba) => DryBatcher(s, ba);
    case OfWorker(i, wa) => assert Apply(s, a) == WorkerApply(s, i, wa);
    case OfStream(i, sa) => assert Apply(s, a) == StreamApply(s, i, sa);
    case _ =>
  }

  lemma StageStays(s: State, a: Action)
    requires Enabled(s, a)
    ensures Stage(Apply(s, a).ctl) >= Stage(s.ctl)
  {
    match a
    case OfWorker(i, wa) => assert Apply(s, a) == WorkerApply(s, i, wa);
    case OfStream(i, sa) => assert Apply(s, a) == StreamApply(s, i, sa);
    case OfBatcher(ba) => assert Apply(s, a) == BatcherApply(s, ba);
    case OfPublisher(i, pa) => assert Apply(s, a) == PublisherApply(s, i, pa);
    case Control => assert Apply(s, a) == ControlApply(s);
    case _ =>
  }

  lemma {:induction false} CoveredRun(s: State, run: seq<Action>)
    requires Inv(s) && s.dryRun && Stage(s.ctl) >= 5 && Covered(s) && Possible(s, run)
    ensures Covered(After(s, run)) && After(s, run).log.requeueLost == s.log.requeueLost
    decreases |run|
  {
    if run != [] {
      InvPastWorkers(s);
      CoveredStep(s, run[0]);
      InvStep(s, run[0]);
      StageStays(s, run[0]);
      CoveredRun(Apply(s, run[0]), run[1..]);
    }
  }

  lemma UncoveredStep(s: State, a: Action)
    requires PastWorkers(s) && ControlInv(s) && Stage(s.ctl) >= 5
    requires WithinReach(s) && !Covered(s) && Enabled(s, a) && Awaited(s, a)
    ensures Apply(s, a).dryRun && WithinReach(Apply(s, a)) && !Covered(Apply(s, a))
  {
    ReachKept(s, a);
    match a
    case OfPublisher(i, pa) =>
      DryPublisher(s, i, pa);
      assert Apply(s, a) == PublisherApply(s, i, pa);
    case OfBatcher(ba) => DryBatcher(s, ba);
    case Control => DryControl(s);
  }

  /** Joined one by one, with too few of them waiting, the publishers leave batches behind. */
  lemma {:induction false} DryRunLeavesSome(s: State)
    requires Inv(s) && s.dryRun && Stage(s.ctl) >= 5 && WithinReach(s) && !Covered(s)
    ensures exists t :: Reaches(s, t) && PublishersDone(t.publishers) && t.batches.items != []
    decreases CallsLeft(s), StepsLeft(s)
  {
    InvPastWorkers(s);
    if s.ctl == Finished {
      ReachesSelf(s);
    } else {
      var a := AwaitedNext(s);
      InvStep(s, a);
      UncoveredStep(s, a);
      StageStays(s, a);
      DryRunLeavesSome(Apply(s, a));
      var t :| Reaches(Apply(s, a), t) && PublishersDone(t.publishers) && t.batches.items != [];
      ReachesStep(s, a, t);
    }
  }

  lemma CoveredLeavesNothing(s: State, t: State)
    requires PastWorkers(t) && Covered(t) && t.log.requeueLost == s.log.requeueLost
    ensures !LeavesSome(s, t)
  {
    if PublishersDone(t.publishers) {
      NobodyWaits(t.publishers);
    }
  }

  /**
   * From the call of `Publisher::stop` until it stops the batch queue: a dry run leaves nothing behind on any schedule
   * exactly when all frames are within the batcher's reach and each batch to come has a publisher waiting for it.
   */
  lemma DryRunDrainsIff(s: State)
    requires Reachable(s) && 5 <= Stage(s.ctl) <= 7 && s.dryRun
    ensures (forall t | Reaches(s, t) :: !LeavesSome(s, t)) <==> Covered(s)
  {
    ReachableInv(s);
    if Covered(s) {
      forall t | Reaches(s, t) ensures !LeavesSome(s, t) {
        DryRunStays(s, t);
        CoveredLeavesNothing(s, t);
      }
    } else if WithinReach(s) {
      DryRunLeavesSome(s);
      var t :| Reaches(s, t) && PublishersDone(t.publishers) && t.batches.items != [];
      assert LeavesSome(s, t);
    } else {
      OutOfReachStrands(s);
      var t :| Reaches(s, t) && Strands(t);
      assert LeavesSome(s, t);
    }
  }

  lemma DryRunStays(s: State, t: State)
    requires Inv(s) && s.dryRun && Stage(s.ctl) >= 5 && Covered(s) && Reaches(s, t)
    ensures PastWorkers(t) && Covered(t) && t.log.requeueLost == s.log.requeueLost
  {
    var run :| Possible(s, run) && After(s, run) == t;
    CoveredRun(s, run);
    LateRun(s, run);
    InvRun(s, run);
    InvPastWorkers(t);
  }

  lemma {:induction false} LateRun(s: State, run: seq<Action>)
    requires Inv(s) && s.dryRun && Stage(s.ctl) >= 5 && Covered(s) && Possible(s, run)
    ensures After(s, run).dryRun && Stage(After(s, run).ctl) >= 5
    decreases |run|
  {
    if run != [] {
      InvPastWorkers(s);
      CoveredStep(s, run[0]);
      InvStep(s, run[0]);
      StageStays(s, run[0]);
      LateRun(Apply(s, run[0]), run[1..]);
    }
  }

  // ---------- Runs that leave something behind ----------

  /** One processed frame, and a batcher that is asked to stop before it looks at the queue again. */
  lemma StopStrandsAFrame()
    ensures exists s0, s, t ::
              Initial(s0) && Reaches(s0, s) && s.ctl == StopProcessedAgain && Reaches(s, t) && Strands(t)
  {
    ExamplesReachable(false, SomeFrame());
    var s, t := StopStrandsFrom(Fresh(false), Processed(false, SomeFrame()));
  }

  lemma StopStrandsFrom(s0: State, s1: State) returns (s: State, t: State)
    requires Initial(s0) && Reaches(s0, s1) && s1.ctl == Running && !WithinReach(s1)
    ensures Reaches(s0, s) && s.ctl == StopProcessedAgain && Reaches(s, t) && Strands(t)
  {
    ExampleAtStage(s0, s1, 5);
    s :| Reaches(s0, s) && Stage(s.ctl) == 5 && Onward(s1, s);
    ReachableInv(s);
    OutOfReachStrands(s);
    t :| Reaches(s, t) && Strands(t);
  }

  /** One batch queued when the batch queue stops: to be sent to Redis or simulated, it can be left behind. */
  lemma StopLosesABatch(dryRun: bool)
    ensures exists s0, s, t ::
              && Initial(s0) && s0.dryRun == dryRun && Reaches(s0, s) && s.ctl == StopBatches
              && Reaches(s, t) && Loses(s, t)
  {
    var s0, s1 := Fresh(dryRun), Batched(dryRun, SomeFrame());
    ExamplesReachable(dryRun, SomeFrame());
    BatchedFacts(dryRun, SomeFrame());
    var s, t := StopLosesFrom(s0, s1);
    assert s0.dryRun == dryRun;
  }

  lemma BatchedFacts(dryRun: bool, f: Frame)
    ensures var s := Batched(dryRun, f);
            s.ctl == Running && Busy(s) && s.processed.items == [] && WaitingCount(s.publishers) == 0
  {
    assert Batched(dryRun, f).publishers[1..] == [];
  }

  lemma StopLosesFrom(s0: State, s1: State) returns (s: State, t: State)
    requires Initial(s0) && Reaches(s0, s1) && s1.ctl == Running
    requires Busy(s1) && s1.processed.items == [] && WaitingCount(s1.publishers) == 0
    ensures Reaches(s0, s) && s.ctl == StopBatches && Reaches(s, t) && Loses(s, t)
  {
    ExampleAtStage(s0, s1, 7);
    s :| Reaches(s0, s) && Stage(s.ctl) == 7 && Onward(s1, s);
    LosesAtStop(s);
    t :| Reaches(s, t) && Loses(s, t);
  }

  lemma LosesAtStop(s: State)
    requires Reachable(s) && s.ctl == StopBatches && Busy(s) && s.processed.items == []
    requires WaitingCount(s.publishers) == 0
    ensures exists t :: Reaches(s, t) && Loses(s, t)
  {
    ReachableInv(s);
    ReachableAsked(s);
    assert s.batches.items != [];
    if s.dryRun {
      DryRunLeavesSome(s);
      var t :| Reaches(s, t) && PublishersDone(t.publishers) && t.batches.items != [];
      assert Loses(s, t);
    } else {
      SomeScheduleLoses(s);
    }
  }
}
