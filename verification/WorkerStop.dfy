/**
 * `Worker::stop` is documented to lose no frame. It stops the processed queue before it joins the workers, so it
 * can: a run that does, and exactly when, for the moment of the call and for the moment it has stopped its input
 * queue.
 */
module WorkerStop {
  import opened Pipeline
  import opened PipelineControl
  import opened PipelineTheorems
  import opened PipelineStages

  predicate WorkersDone(ws: seq<Worker>) {
    forall j | 0 <= j < |ws| :: ws[j].phase == Done
  }

  /** Between `s` and `t` a worker's output was dropped, or the workers left input behind. */
  predicate Loses(s: State, t: State) {
    |t.log.procLost| > |s.log.procLost| || (WorkersDone(t.workers) && t.decode.items != [])
  }

  predicate HasOutput(t: Worker) {
    t.phase.Holding? && t.phase.held != []
  }

  /** No frame is waiting for a worker, and no worker has one to send. */
  predicate NothingInFlight(s: State) {
    s.decode.items == [] && forall j | 0 <= j < |s.workers| :: !HasOutput(s.workers[j])
  }

  // ---------- Nothing in flight: nothing is lost ----------

  lemma CalmStep(s: State, a: Action)
    requires s.decode.stopped && NothingInFlight(s) && Enabled(s, a)
    ensures var t := Apply(s, a); t.decode.stopped && NothingInFlight(t) && t.log.procLost == s.log.procLost
  {
    match a
    case OfWorker(i, wa) => assert Apply(s, a) == WorkerApply(s, i, wa);
    case OfStream(i, sa) => assert Apply(s, a) == StreamApply(s, i, sa);
    case OfBatcher(ba) => assert Apply(s, a) == BatcherApply(s, ba);
    case OfPublisher(i, pa) => assert Apply(s, a) == PublisherApply(s, i, pa);
    case Control => assert Apply(s, a) == ControlApply(s);
    case _ =>
  }

  lemma {:induction false} CalmRun(s: State, run: seq<Action>)
    requires s.decode.stopped && NothingInFlight(s) && Possible(s, run)
    ensures !Loses(s, After(s, run))
    ensures NothingInFlight(After(s, run)) && After(s, run).log.procLost == s.log.procLost
    decreases |run|
  {
    if run != [] {
      CalmStep(s, run[0]);
      CalmRun(Apply(s, run[0]), run[1..]);
    }
  }

  // ---------- Something in flight: some schedule loses it ----------

  /** A schedule from `s` on drops an output, without the reloader starting a stream. */
  ghost predicate CanDropOutput(s: State, lost: nat) {
    exists t :: ReachesWithoutSpawn(s, t) && |t.log.procLost| > lost
  }

  lemma CanDropOutputStep(s: State, a: Action, lost: nat)
    requires Enabled(s, a) && !a.SpawnStream? && CanDropOutput(Apply(s, a), lost)
    ensures CanDropOutput(s, lost)
  {
    var t :| ReachesWithoutSpawn(Apply(s, a), t) && |t.log.procLost| > lost;
    WithoutSpawnStep(s, a, t);
  }

  lemma DropFromHolding(s: State, j: nat)
    requires s.processed.stopped && j < |s.workers| && HasOutput(s.workers[j])
    ensures CanDropOutput(s, |s.log.procLost|)
  {
    var t := Apply(s, OfWorker(j, Send));
    WithoutSpawnSelf(t);
    assert CanDropOutput(t, |s.log.procLost|);
    CanDropOutputStep(s, OfWorker(j, Send), |s.log.procLost|);
  }

  lemma DropFromWaiting(s: State, j: nat)
    requires s.processed.stopped && j < |s.workers| && s.decode.items != [] && s.workers[j].phase == Waiting
    ensures CanDropOutput(s, |s.log.procLost|)
  {
    var a := OfWorker(j, WorkerPop([s.decode.items[0]]));
    DropFromHolding(Apply(s, a), j);
    CanDropOutputStep(s, a, |s.log.procLost|);
  }

  lemma DropFromHead(s: State, j: nat)
    requires s.processed.stopped && j < |s.workers| && s.decode.items != []
    requires !s.workers[j].stop && s.workers[j].phase == LoopHead
    ensures CanDropOutput(s, |s.log.procLost|)
  {
    DropFromWaiting(Apply(s, OfWorker(j, WorkerLoop)), j);
    CanDropOutputStep(s, OfWorker(j, WorkerLoop), |s.log.procLost|);
  }

  lemma DropFromIdle(s: State, j: nat)
    requires s.processed.stopped && j < |s.workers| && s.decode.items != []
    requires !s.workers[j].stop && s.workers[j].phase != Done
    ensures CanDropOutput(s, |s.log.procLost|)
  {
    match s.workers[j].phase
    case Waiting => DropFromWaiting(s, j);
    case LoopHead => DropFromHead(s, j);
    case Holding(out) =>
      if out != [] {
        DropFromHolding(s, j);
      } else {
        DropFromHead(Apply(s, OfWorker(j, Send)), j);
        CanDropOutputStep(s, OfWorker(j, Send), |s.log.procLost|);
      }
  }

  ghost predicate CanLose(s: State) {
    exists t :: ReachesWithoutSpawn(s, t) && Loses(s, t)
  }

  lemma SomeScheduleLoses(s: State)
    requires ControlInv(s) && s.ctl == StopProcessed && !NothingInFlight(s)
    ensures CanLose(s)
  {
    var u := Apply(s, Control);
    if j :| 0 <= j < |s.workers| && HasOutput(s.workers[j]) {
      DropFromHolding(u, j);
      CanDropOutputStep(s, Control, |s.log.procLost|);
    } else if WorkersDone(s.workers) {
      WithoutSpawnSelf(s);
      assert Loses(s, s);
    } else {
      var j :| 0 <= j < |s.workers| && s.workers[j].phase != Done;
      DropFromIdle(u, j);
      CanDropOutputStep(s, Control, |s.log.procLost|);
    }
  }

  /**
   * Once the input queue has stopped, no schedule loses a frame exactly when none is queued and no worker has one
   * to send.
   */
  lemma LosslessIff(s: State)
    requires ControlInv(s) && s.ctl == StopProcessed
    ensures (forall t | Reaches(s, t) :: !Loses(s, t)) <==> NothingInFlight(s)
  {
    if NothingInFlight(s) {
      forall t | Reaches(s, t) ensures !Loses(s, t) {
        var run :| Possible(s, run) && After(s, run) == t;
        CalmRun(s, run);
      }
    } else {
      SomeScheduleLoses(s);
      var t :| ReachesWithoutSpawn(s, t) && Loses(s, t);
      WithoutSpawnReaches(s, t);
    }
  }

  // ---------- The whole call ----------

  /** The stream thread can still push a frame. */
  predicate CanEmit(t: Stream) {
    match t.phase
    case Reading => !t.stop
    case Emitting(out) => out != [] || !t.stop
    case StreamDone => false
  }

  predicate NobodyEmits(s: State) {
    forall i | 0 <= i < |s.streams| :: !CanEmit(s.streams[i])
  }

  lemma NobodyEmitsStep(s: State, a: Action)
    requires NobodyEmits(s) && Enabled(s, a) && !a.SpawnStream?
    ensures NobodyEmits(Apply(s, a))
    ensures a.OfStream? && a.sa.Emit? ==> s.streams[a.i].phase.out == []
  {
    match a
    case OfWorker(i, wa) => assert Apply(s, a) == WorkerApply(s, i, wa);
    case OfStream(i, sa) => assert Apply(s, a) == StreamApply(s, i, sa);
    case OfBatcher(ba) => assert Apply(s, a) == BatcherApply(s, ba);
    case OfPublisher(i, pa) => assert Apply(s, a) == PublisherApply(s, i, pa);
    case Control => assert Apply(s, a) == ControlApply(s);
    case AskStream(i) =>
  }

  lemma SilentStep(s: State, a: Action)
    requires NothingInFlight(s) && NobodyEmits(s) && Enabled(s, a) && !a.SpawnStream?
    ensures var t := Apply(s, a); NothingInFlight(t) && t.log.procLost == s.log.procLost
  {
    NobodyEmitsStep(s, a);
    match a
    case OfWorker(i, wa) => assert Apply(s, a) == WorkerApply(s, i, wa);
    case OfStream(i, sa) => assert Apply(s, a) == StreamApply(s, i, sa);
    case OfBatcher(ba) => assert Apply(s, a) == BatcherApply(s, ba);
    case OfPublisher(i, pa) => assert Apply(s, a) == PublisherApply(s, i, pa);
    case Control => assert Apply(s, a) == ControlApply(s);
    case AskStream(i) =>
  }

  lemma {:induction false} SilentRun(s: State, run: seq<Action>)
    requires NothingInFlight(s) && NobodyEmits(s) && NoSpawn(run) && Possible(s, run)
    ensures NothingInFlight(After(s, run)) && After(s, run).log.procLost == s.log.procLost
    decreases |run|
  {
    if run != [] {
      assert run[0] in run;
      SilentStep(s, run[0]);
      NobodyEmitsStep(s, run[0]);
      SilentRun(Apply(s, run[0]), run[1..]);
    }
  }

  lemma LoseStep(s: State, a: Action)
    requires Enabled(s, a) && !a.SpawnStream? && CanLose(Apply(s, a))
    requires Apply(s, a).log.procLost == s.log.procLost
    ensures CanLose(s)
  {
    var t :| ReachesWithoutSpawn(Apply(s, a), t) && Loses(Apply(s, a), t);
    WithoutSpawnStep(s, a, t);
    assert Loses(s, t);
  }

  lemma LoseInFlight(s: State)
    requires ControlInv(s) && s.ctl == StopDecode && !NothingInFlight(s)
    ensures CanLose(s)
  {
    ControlStep(s, Control);
    SomeScheduleLoses(Apply(s, Control));
    LoseStep(s, Control);
  }

  lemma LoseByEmit(s: State, i: nat)
    requires ControlInv(s) && s.ctl == StopDecode && i < |s.streams|
    requires s.streams[i].phase.Emitting? && s.streams[i].phase.out != []
    ensures CanLose(s)
  {
    var a := OfStream(i, Emit);
    ControlStep(s, a);
    LoseInFlight(Apply(s, a));
    LoseStep(s, a);
  }

  lemma LoseByRead(s: State, i: nat, f: Frame)
    requires ControlInv(s) && s.ctl == StopDecode && i < |s.streams|
    requires s.streams[i].phase == Reading && !s.streams[i].stop
    ensures CanLose(s)
  {
    var a := OfStream(i, Read([f]));
    ControlStep(s, a);
    LoseByEmit(Apply(s, a), i);
    LoseStep(s, a);
  }

  lemma LoseByStream(s: State, i: nat, f: Frame)
    requires ControlInv(s) && s.ctl == StopDecode && i < |s.streams| && CanEmit(s.streams[i])
    ensures CanLose(s)
  {
    match s.streams[i].phase
    case Reading => LoseByRead(s, i, f);
    case Emitting(out) =>
      if out != [] {
        LoseByEmit(s, i);
      } else {
        var a := OfStream(i, Emit);
        ControlStep(s, a);
        LoseByRead(Apply(s, a), i, f);
        LoseStep(s, a);
      }
  }

  /**
   * When `Worker::stop` is called: if the reloader starts no stream meanwhile, no schedule loses a frame exactly when
   * nothing is in flight and no stream thread can push any more.
   */
  lemma WholeCallLosslessIff(s: State)
    requires ControlInv(s) && s.ctl == StopDecode
    ensures (forall t | ReachesWithoutSpawn(s, t) :: !Loses(s, t)) <==> NothingInFlight(s) && NobodyEmits(s)
  {
    if NothingInFlight(s) && NobodyEmits(s) {
      forall t | ReachesWithoutSpawn(s, t) ensures !Loses(s, t) {
        var run :| NoSpawn(run) && Possible(s, run) && After(s, run) == t;
        SilentRun(s, run);
      }
    } else if NobodyEmits(s) {
      LoseInFlight(s);
    } else {
      var i :| 0 <= i < |s.streams| && CanEmit(s.streams[i]);
      LoseByStream(s, i, SomeFrame());
    }
  }

  /** The reloader is not stopped before: it can start a stream just then, so no call is safe on all schedules. */
  lemma ReloaderMakesUnsafe(s: State)
    requires ControlInv(s) && s.ctl == StopDecode
    ensures exists t :: Reaches(s, t) && Loses(s, t)
  {
    var u := Apply(s, SpawnStream);
    ControlStep(s, SpawnStream);
    LoseByStream(u, |s.streams|, SomeFrame());
    var t :| ReachesWithoutSpawn(u, t) && Loses(u, t);
    WithoutSpawnReaches(u, t);
    ReachesStep(s, SpawnStream, t);
  }

  /** A process that loses a frame, without the reloader: one stream, one worker, one frame still queued for it. */
  lemma StopLosesAFrame()
    ensures exists s0, s, t ::
              Initial(s0) && Reaches(s0, s) && s.ctl == StopProcessed && ReachesWithoutSpawn(s, t) && Loses(s, t)
  {
    ExamplesReachable(false, SomeFrame());
    var s, t := StopLosesFrom(Fresh(false), Decoded(false, SomeFrame()));
  }

  lemma StopLosesFrom(s0: State, s1: State) returns (s: State, t: State)
    requires Initial(s0) && Reaches(s0, s1) && s1.ctl == Running && s1.decode.items != []
    ensures Reaches(s0, s) && s.ctl == StopProcessed && ReachesWithoutSpawn(s, t) && Loses(s, t)
  {
    ExampleAtStage(s0, s1, 3);
    s :| Reaches(s0, s) && Stage(s.ctl) == 3 && Onward(s1, s);
    ReachableInv(s);
    SomeScheduleLoses(s);
    t :| ReachesWithoutSpawn(s, t) && Loses(s, t);
  }
}
