/** Runs of the shutdown: the main thread can always get to a later stage, and small processes for examples. */
module PipelineStages {
  import opened Queues
  import opened Chunking
  import opened Pipeline
  import opened PipelineControl
  import opened PipelineTheorems

  /** Something is on its way through the batcher to the publishers. */
  predicate Busy(s: State) {
    || s.processed.items != [] || s.batches.items != [] || s.batcher.open != map[]
    || s.batcher.phase.Adding? || s.batcher.phase.Pushing?
  }

  /**
   * What the shutdown keeps up to the stop of the batch queue, if only the main thread and the threads it joins
   * move.
   */
  predicate Onward(s: State, t: State) {
    && Stage(s.ctl) <= Stage(t.ctl)
    && t.publishers == s.publishers && t.dryRun == s.dryRun && t.log.requeueLost == s.log.requeueLost
    && (Busy(s) ==> Busy(t)) && (s.processed.items == [] ==> t.processed.items == [])
    && (Stage(t.ctl) <= 5 ==>
          t.batcher == s.batcher && t.processed.items == s.processed.items && t.batches == s.batches)
    && (Stage(t.ctl) <= 3 ==> t.workers == s.workers && (s.decode.items != [] ==> t.decode.items != []))
  }

  lemma OnwardStream(s: State, i: nat, sa: StreamAct)
    requires ControlInv(s) && StreamEnabled(s, i, sa)
    ensures Onward(s, StreamApply(s, i, sa))
  {
  }

  lemma OnwardWorker(s: State, i: nat, wa: WorkerAct)
    requires ControlInv(s) && Stage(s.ctl) == 4 && WorkerEnabled(s, i, wa)
    ensures Onward(s, WorkerApply(s, i, wa))
  {
  }

  lemma OnwardBatcher(s: State, ba: BatcherAct)
    requires ControlInv(s) && Stage(s.ctl) == 6 && BatcherEnabled(s, ba)
    ensures Onward(s, BatcherApply(s, ba))
  {
    match ba
    case AddFrame =>
      var f := s.batcher.phase.f;
      assert f.key in s.batcher.open[f.key := OpenChunk(s.batcher.open, f.key) + [f]];
    case _ =>
  }

  lemma OnwardControl(s: State)
    requires ControlInv(s) && 1 <= Stage(s.ctl) <= 6 && ControlEnabled(s)
    ensures Onward(s, ControlApply(s)) && Stage(ControlApply(s).ctl) <= Stage(s.ctl) + 1
  {
  }

  lemma OnwardStep(s: State, a: Action)
    requires ControlInv(s) && 1 <= Stage(s.ctl) <= 6 && Enabled(s, a) && Awaited(s, a)
    ensures Onward(s, Apply(s, a)) && Stage(Apply(s, a).ctl) <= Stage(s.ctl) + 1
  {
    match a
    case OfStream(i, sa) => OnwardStream(s, i, sa);
    case OfWorker(i, wa) => OnwardWorker(s, i, wa);
    case OfBatcher(ba) => OnwardBatcher(s, ba);
    case Control => OnwardControl(s);
  }

  /** Every stage up to the stop of the batch queue can be reached, keeping those things. */
  lemma {:induction false} ReachStage(s: State, n: nat)
    requires ControlInv(s) && 1 <= Stage(s.ctl) <= n <= 7
    ensures exists t :: Reaches(s, t) && Stage(t.ctl) == n && Onward(s, t)
    decreases CallsLeft(s), StepsLeft(s)
  {
    if Stage(s.ctl) == n {
      ReachesSelf(s);
      assert Onward(s, s);
    } else {
      var a := AwaitedNext(s);
      OnwardStep(s, a);
      var next := Apply(s, a);
      ReachStage(next, n);
      var t :| Reaches(next, t) && Stage(t.ctl) == n && Onward(next, t);
      ReachesStep(s, a, t);
      assert Onward(s, t);
    }
  }

  lemma ReachableOn(s: State, t: State)
    requires Reachable(s) && Reaches(s, t)
    ensures Reachable(t)
  {
    var s0 :| Initial(s0) && Reaches(s0, s);
    ReachesTrans(s0, s, t);
  }

  // ---------- A process of one thread each ----------

  function SomeFrame(): Frame {
    Item(Key(0, ""), 1, 0)
  }

  function Fresh(dryRun: bool): State {
    State(dryRun, [Stream(false, Reading)], Queue([], false), [Worker(false, LoopHead)], Queue([], false),
          BatcherThread(false, BatcherHead, map[]), Queue([], false), [Publisher(false, true, LoopHead)], Running,
          EmptyLog())
  }

  /** The stream has decoded frame `f`. */
  function Decoded(dryRun: bool, f: Frame): State {
    Fresh(dryRun).(streams := [Stream(false, Emitting([]))], decode := Queue([f], false),
                   log := EmptyLog().(read := [f], decodeIn := [f]))
  }

  /** The worker has processed it. */
  function Processed(dryRun: bool, f: Frame): State {
    Decoded(dryRun, f).(decode := Queue([], false), workers := [Worker(false, Holding([]))],
                        processed := Queue([f], false),
                        log := EmptyLog().(read := [f], decodeIn := [f], decodeOut := [f], procIn := [f]))
  }

  /** The batcher has made a batch of it. */
  function Batched(dryRun: bool, f: Frame): State {
    var b := Batch(0, f.key, [f]);
    Processed(dryRun, f).(processed := Queue([], false), batches := Queue([b], false),
                          log := Processed(dryRun, f).log.(procOut := [f], batched := [f], built := [b], pushed := [b]))
  }

  lemma Single<T>(x: T)
    ensures [x][1..] == [] && [] + [x] == [x]
  {
  }

  lemma ToDecoded(dryRun: bool, f: Frame)
    ensures Reaches(Fresh(dryRun), Decoded(dryRun, f))
  {
    var s0, s2 := Fresh(dryRun), Decoded(dryRun, f);
    var s1 := s0.(streams := [Stream(false, Emitting([f]))], log := EmptyLog().(read := [f]));
    Single(f);
    ReachesSelf(s2);
    StreamThen(s1, 0, Emit, s2, s2);
    StreamThen(s0, 0, Read([f]), s1, s2);
  }

  /** The worker holds the frame's output. */
  function Taken(dryRun: bool, f: Frame): State {
    Decoded(dryRun, f).(workers := [Worker(false, Holding([f]))], decode := Queue([], false),
                        log := EmptyLog().(read := [f], decodeIn := [f], decodeOut := [f]))
  }

  lemma ToTaken(dryRun: bool, f: Frame)
    ensures Reaches(Decoded(dryRun, f), Taken(dryRun, f))
  {
    var s0, s2 := Decoded(dryRun, f), Taken(dryRun, f);
    var s1 := s0.(workers := [Worker(false, Waiting)]);
    Single(f);
    ReachesSelf(s2);
    WorkerThen(s1, 0, WorkerPop([f]), s2, s2);
    WorkerThen(s0, 0, WorkerLoop, s1, s2);
  }

  lemma ToProcessed(dryRun: bool, f: Frame)
    ensures Reaches(Decoded(dryRun, f), Processed(dryRun, f))
  {
    Single(f);
    ReachesSelf(Processed(dryRun, f));
    WorkerThen(Taken(dryRun, f), 0, Send, Processed(dryRun, f), Processed(dryRun, f));
    ToTaken(dryRun, f);
    ReachesTrans(Decoded(dryRun, f), Taken(dryRun, f), Processed(dryRun, f));
  }

  /** The batcher has popped it. */
  function Popped(dryRun: bool, f: Frame): State {
    Processed(dryRun, f).(batcher := BatcherThread(false, Adding(f), map[]), processed := Queue([], false),
                          log := Processed(dryRun, f).log.(procOut := [f]))
  }

  lemma ToPopped(dryRun: bool, f: Frame)
    ensures Reaches(Processed(dryRun, f), Popped(dryRun, f))
  {
    var s0, s2 := Processed(dryRun, f), Popped(dryRun, f);
    var s1 := s0.(batcher := BatcherThread(false, BatcherWaiting, map[]));
    Single(f);
    ReachesSelf(s2);
    BatcherThen(s1, BatcherPop, s2, s2);
    BatcherThen(s0, BatcherLoop, s1, s2);
  }

  lemma ToBatched(dryRun: bool, f: Frame)
    requires f.batchSize <= 1
    ensures Reaches(Processed(dryRun, f), Batched(dryRun, f))
  {
    var s2, s4 := Popped(dryRun, f), Batched(dryRun, f);
    var b := Batch(0, f.key, [f]);
    var s3 := s2.(batcher := BatcherThread(false, Pushing(b), map[]), log := s2.log.(batched := [f], built := [b]));
    Single(f);
    Single(b);
    ReachesSelf(s4);
    BatcherThen(s3, PushFull, s4, s4);
    AddsFirst(s2, f, b, s3);
    BatcherThen(s2, AddFrame, s3, s4);
    ToPopped(dryRun, f);
    ReachesTrans(Processed(dryRun, f), s2, s4);
  }

  /** A batcher without open batches makes a batch of a frame whose batch size is at most one. */
  lemma AddsFirst(s: State, f: Frame, b: Batch, t: State)
    requires s.batcher == BatcherThread(false, Adding(f), map[]) && s.log.batched == [] && s.log.built == []
    requires f.batchSize <= 1 && b == Batch(0, f.key, [f])
    requires t == s.(batcher := BatcherThread(false, Pushing(b), map[]), log := s.log.(batched := [f], built := [b]))
    ensures BatcherApply(s, AddFrame) == t
  {
    var none: map<Key, seq<Frame>> := map[];
    assert none - {f.key} == none;
    Single(f);
    Single(b);
  }

  /** The example states occur. */
  lemma ExamplesReachable(dryRun: bool, f: Frame)
    requires f.batchSize <= 1
    ensures Initial(Fresh(dryRun)) && Reaches(Fresh(dryRun), Decoded(dryRun, f))
    ensures Reaches(Fresh(dryRun), Processed(dryRun, f)) && Reaches(Fresh(dryRun), Batched(dryRun, f))
  {
    ToDecoded(dryRun, f);
    ToProcessed(dryRun, f);
    ToBatched(dryRun, f);
    ReachesTrans(Fresh(dryRun), Decoded(dryRun, f), Processed(dryRun, f));
    ReachesTrans(Fresh(dryRun), Processed(dryRun, f), Batched(dryRun, f));
  }

  /** From an example state with the process still running, the shutdown can get to stage `n`. */
  lemma ExampleAtStage(s0: State, s: State, n: nat)
    requires Initial(s0) && Reaches(s0, s) && s.ctl == Running && 1 <= n <= 7
    ensures exists t :: Reaches(s0, t) && Stage(t.ctl) == n && Onward(s, t)
  {
    var u := Apply(s, Control);
    ReachesSelf(u);
    ReachesStep(s, Control, u);
    ReachesTrans(s0, s, u);
    ReachableInv(u);
    ReachStage(u, n);
    var t :| Reaches(u, t) && Stage(t.ctl) == n && Onward(u, t);
    ReachesTrans(s0, u, t);
    assert Onward(s, t);
  }
}
