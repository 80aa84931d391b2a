/**
 * When the pipeline's threads move, wait and end: every stream is joined before the workers are stopped, a thread is
 * blocked exactly on an empty running queue, none ends before it is told to, and what streams put out is not lost.
 */
module PipelineThreads {
  import opened Sequences
  import opened Pipeline
  import opened PipelineControl
  import opened PipelineTheorems
  import WorkerStop

  // ---------- All streams are joined ----------

  predicate AllStreamsDone(s: State) {
    forall i | 0 <= i < |s.streams| :: s.streams[i].phase == StreamDone
  }

  /** Only the main thread moves the shutdown on. */
  lemma OnlyMainMovesOn(s: State, a: Action)
    requires Enabled(s, a) && a != Control
    ensures Apply(s, a).ctl == s.ctl
  {
    match a
    case OfWorker(i, wa) => assert Apply(s, a) == WorkerApply(s, i, wa);
    case OfStream(i, sa) => assert Apply(s, a) == StreamApply(s, i, sa);
    case OfBatcher(ba) => assert Apply(s, a) == BatcherApply(s, ba);
    case OfPublisher(i, pa) => assert Apply(s, a) == PublisherApply(s, i, pa);
    case _ =>
  }

  lemma MainLeavesWithAllDone(s: State)
    requires ControlInv(s) && s.ctl.JoinStreams? && ControlEnabled(s) && !ControlApply(s).ctl.JoinStreams?
    ensures ControlApply(s).ctl == StopDecode && AllStreamsDone(ControlApply(s))
  {
  }

  /** Whatever step leaves the joins of `stop_all` is the main thread's, and leaves them with every stream finished. */
  lemma LeavesWithAllDone(s: State, a: Action)
    requires ControlInv(s) && s.ctl.JoinStreams? && Enabled(s, a) && !Apply(s, a).ctl.JoinStreams?
    ensures a == Control && Apply(s, a).ctl == StopDecode && AllStreamsDone(Apply(s, a))
  {
    if a != Control {
      OnlyMainMovesOn(s, a);
    } else {
      MainLeavesWithAllDone(s);
    }
  }

  /** The reloader starts no stream once `stop_all` has returned. */
  predicate NoLateSpawn(s: State, run: seq<Action>)
    requires Possible(s, run)
    decreases |run|
  {
    run != [] ==> (run[0].SpawnStream? ==> Stage(s.ctl) < 2) && NoLateSpawn(Apply(s, run[0]), run[1..])
  }

  predicate StreamsPast(s: State) {
    Stage(s.ctl) >= 2 ==> AllStreamsDone(s)
  }

  /** The stages follow one another, so none is skipped. */
  lemma OneStageAtATime(s: State, a: Action)
    requires Enabled(s, a)
    ensures Stage(s.ctl) <= Stage(Apply(s, a).ctl) <= Stage(s.ctl) + 1
  {
    if a != Control {
      OnlyMainMovesOn(s, a);
    }
  }

  lemma DoneStays(s: State, a: Action)
    requires AllStreamsDone(s) && Enabled(s, a) && !a.SpawnStream?
    ensures AllStreamsDone(Apply(s, a))
  {
    match a
    case OfWorker(i, wa) => assert Apply(s, a) == WorkerApply(s, i, wa);
    case OfStream(_, _) =>
    case OfBatcher(ba) => assert Apply(s, a) == BatcherApply(s, ba);
    case OfPublisher(i, pa) => assert Apply(s, a) == PublisherApply(s, i, pa);
    case Control => assert Apply(s, a) == ControlApply(s);
    case AskStream(i) =>
  }

  lemma StreamsPastStep(s: State, a: Action)
    requires ControlInv(s) && StreamsPast(s) && Enabled(s, a) && (a.SpawnStream? ==> Stage(s.ctl) < 2)
    ensures StreamsPast(Apply(s, a))
  {
    OneStageAtATime(s, a);
    if Stage(s.ctl) >= 2 {
      DoneStays(s, a);
    } else if Stage(Apply(s, a).ctl) >= 2 {
      LeavesWithAllDone(s, a);
    }
  }

  /** If no stream is started after `stop_all`, all have finished from its return on. */
  lemma {:induction false} StreamsJoined(s: State, run: seq<Action>)
    requires ControlInv(s) && StreamsPast(s) && Possible(s, run) && NoLateSpawn(s, run)
    ensures ControlInv(After(s, run)) && StreamsPast(After(s, run))
    decreases |run|
  {
    if run != [] {
      ControlStep(s, run[0]);
      StreamsPastStep(s, run[0]);
      StreamsJoined(Apply(s, run[0]), run[1..]);
    }
  }

  /**
   * From the start of the process: if no stream is started after `stop_all`, stopping the workers loses no frame on any
   * schedule exactly when, at the call, nothing is queued for them and none has an output to send.
   */
  lemma StopAfterJoinsLosslessIff(s0: State, run: seq<Action>)
    requires Initial(s0) && Possible(s0, run) && NoLateSpawn(s0, run) && After(s0, run).ctl == StopDecode
    ensures (forall t | ReachesWithoutSpawn(After(s0, run), t) :: !WorkerStop.Loses(After(s0, run), t))
       <==> WorkerStop.NothingInFlight(After(s0, run))
  {
    InitialInv(s0);
    StreamsJoined(s0, run);
    WorkerStop.WholeCallLosslessIff(After(s0, run));
  }

  /** Runs in which the reloader starts no stream at all are among these. */
  lemma {:induction false} NoSpawnIsNoLateSpawn(s: State, run: seq<Action>)
    requires Possible(s, run) && NoSpawn(run)
    ensures NoLateSpawn(s, run)
    decreases |run|
  {
    if run != [] {
      assert run[0] in run;
      NoSpawnIsNoLateSpawn(Apply(s, run[0]), run[1..]);
    }
  }

  /** A stream that has been asked to stop reads no more, and stays asked, whatever happens. */
  lemma AskedReadsNoMore(s: State, a: Action, i: nat, out: seq<Frame>)
    requires i < |s.streams| && Enabled(s, a) && (s.streams[i].stop || a == AskStream(i))
    ensures i < |Apply(s, a).streams| && Apply(s, a).streams[i].stop
    ensures !StreamEnabled(Apply(s, a), i, Read(out))
  {
    match a
    case OfWorker(j, wa) => assert Apply(s, a) == WorkerApply(s, j, wa);
    case OfStream(j, sa) => assert Apply(s, a) == StreamApply(s, j, sa);
    case OfBatcher(ba) => assert Apply(s, a) == BatcherApply(s, ba);
    case OfPublisher(j, pa) => assert Apply(s, a) == PublisherApply(s, j, pa);
    case Control => assert Apply(s, a) == ControlApply(s);
    case _ =>
  }

  /** A stream just started is one more, and can read anything. */
  lemma SpawnedCanRead(s: State, out: seq<Frame>)
    requires Enabled(s, SpawnStream)
    ensures Apply(s, SpawnStream).streams[..|s.streams|] == s.streams
    ensures |Apply(s, SpawnStream).streams| == |s.streams| + 1
    ensures StreamEnabled(Apply(s, SpawnStream), |s.streams|, Read(out))
  {
  }

  // ---------- Who can move ----------

  /** A worker that has not ended is blocked exactly when it waits on a decode queue that is empty and running. */
  lemma WorkerBlockedIff(s: State, i: nat)
    requires i < |s.workers| && s.workers[i].phase != Done
    ensures !(exists wa :: WorkerEnabled(s, i, wa))
       <==> s.workers[i].phase == Waiting && s.decode.items == [] && !s.decode.stopped
  {
    match s.workers[i].phase
    case LoopHead => assert WorkerEnabled(s, i, WorkerLoop);
    case Holding(_) => assert WorkerEnabled(s, i, Send);
    case Waiting =>
      if s.decode.items != [] {
        assert WorkerEnabled(s, i, WorkerPop([]));
      } else if s.decode.stopped {
        assert WorkerEnabled(s, i, WorkerEnd);
      }
  }

  /** ... the batcher exactly on the processed queue, while it has not ended. */
  lemma BatcherBlockedIff(s: State)
    requires s.batcher.phase != BatcherDone
    ensures !(exists ba :: BatcherEnabled(s, ba))
       <==> s.batcher.phase == BatcherWaiting && s.processed.items == [] && !s.processed.stopped
  {
    match s.batcher.phase
    case BatcherHead => assert BatcherEnabled(s, BatcherLoop);
    case Adding(_) => assert BatcherEnabled(s, AddFrame);
    case Pushing(_) => assert BatcherEnabled(s, PushFull);
    case Flushing => FlushingCanMove(s);
    case BatcherWaiting =>
      if s.processed.items != [] {
        assert BatcherEnabled(s, BatcherPop);
      } else if s.processed.stopped {
        assert BatcherEnabled(s, BatcherEnd);
      }
  }

  lemma FlushingCanMove(s: State)
    requires s.batcher.phase == Flushing
    ensures exists ba :: BatcherEnabled(s, ba)
  {
    if k :| k in s.batcher.open {
      assert BatcherEnabled(s, FlushOne(k));
    } else {
      assert BatcherEnabled(s, FlushEnd);
    }
  }

  /** ... a publisher exactly on the batch queue. */
  lemma PublisherBlockedIff(s: State, i: nat)
    requires i < |s.publishers| && s.publishers[i].phase != Done
    ensures !(exists pa :: PublisherEnabled(s, i, pa))
       <==> s.publishers[i].phase == Waiting && s.batches.items == [] && !s.batches.stopped
  {
    match s.publishers[i].phase
    case LoopHead => assert PublisherEnabled(s, i, PublisherLoop);
    case Holding(_) => assert PublisherEnabled(s, i, Attempt(false, false));
    case Waiting =>
      if s.batches.items != [] {
        assert PublisherEnabled(s, i, PublisherPop);
      } else if s.batches.stopped {
        assert PublisherEnabled(s, i, PublisherEnd);
      }
  }

  // ---------- Nobody ends early ----------

  predicate WorkersStay(s: State) {
    Stage(s.ctl) < 3 ==> forall i | 0 <= i < |s.workers| :: s.workers[i].phase != Done
  }

  predicate BatcherStays(s: State) {
    && (Stage(s.ctl) < 6 ==> !s.batcher.stop)
    && (Stage(s.ctl) < 4 ==> s.batcher.phase != Flushing && s.batcher.phase != BatcherDone)
  }

  predicate PublishersStay(s: State) {
    Stage(s.ctl) < 8 ==> forall i | 0 <= i < |s.publishers| :: !s.publishers[i].stop && s.publishers[i].phase != Done
  }

  /** No worker, nor the batcher, nor a publisher ends before its queue has been stopped. */
  predicate NobodyEndsEarly(s: State) {
    WorkersStay(s) && BatcherStays(s) && PublishersStay(s)
  }

  lemma WorkersStayStep(s: State, a: Action)
    requires ControlInv(s) && WorkersStay(s) && Enabled(s, a)
    ensures WorkersStay(Apply(s, a))
  {
    OneStageAtATime(s, a);
    match a
    case OfWorker(i, wa) => assert Apply(s, a) == WorkerApply(s, i, wa);
    case OfStream(i, sa) => assert Apply(s, a) == StreamApply(s, i, sa);
    case OfBatcher(ba) => assert Apply(s, a) == BatcherApply(s, ba);
    case OfPublisher(i, pa) => assert Apply(s, a) == PublisherApply(s, i, pa);
    case Control => assert Apply(s, a) == ControlApply(s);
    case _ =>
  }

  lemma BatcherStaysStep(s: State, a: Action)
    requires ControlInv(s) && BatcherStays(s) && Enabled(s, a)
    ensures BatcherStays(Apply(s, a))
  {
    OneStageAtATime(s, a);
    match a
    case OfWorker(i, wa) => assert Apply(s, a) == WorkerApply(s, i, wa);
    case OfStream(i, sa) => assert Apply(s, a) == StreamApply(s, i, sa);
    case OfBatcher(ba) => assert Apply(s, a) == BatcherApply(s, ba);
    case OfPublisher(i, pa) => assert Apply(s, a) == PublisherApply(s, i, pa);
    case Control => assert Apply(s, a) == ControlApply(s);
    case _ =>
  }

  lemma PublishersStayStep(s: State, a: Action)
    requires ControlInv(s) && PublishersStay(s) && Enabled(s, a)
    ensures PublishersStay(Apply(s, a))
  {
    OneStageAtATime(s, a);
    match a
    case OfWorker(i, wa) => assert Apply(s, a) == WorkerApply(s, i, wa);
    case OfStream(i, sa) => assert Apply(s, a) == StreamApply(s, i, sa);
    case OfBatcher(ba) => assert Apply(s, a) == BatcherApply(s, ba);
    case OfPublisher(i, pa) => assert Apply(s, a) == PublisherApply(s, i, pa);
    case Control => assert Apply(s, a) == ControlApply(s);
    case _ =>
  }

  lemma {:induction false} NobodyEndsEarlyRun(s: State, run: seq<Action>)
    requires ControlInv(s) && NobodyEndsEarly(s) && Possible(s, run)
    ensures NobodyEndsEarly(After(s, run))
    decreases |run|
  {
    if run != [] {
      WorkersStayStep(s, run[0]);
      BatcherStaysStep(s, run[0]);
      PublishersStayStep(s, run[0]);
      ControlStep(s, run[0]);
      NobodyEndsEarlyRun(Apply(s, run[0]), run[1..]);
    }
  }

  /** In every reachable state: while its queue runs, no worker, nor the batcher, nor a publisher has ended. */
  lemma ThreadsOutliveTheirQueues(s: State)
    requires Reachable(s)
    ensures !s.decode.stopped ==> forall i | 0 <= i < |s.workers| :: s.workers[i].phase != Done
    ensures !s.processed.stopped ==> s.batcher.phase != Flushing && s.batcher.phase != BatcherDone
    ensures !s.batches.stopped ==> forall i | 0 <= i < |s.publishers| :: s.publishers[i].phase != Done
  {
    ReachableInv(s);
    var s0 :| Initial(s0) && Reaches(s0, s);
    var run :| Possible(s0, run) && After(s0, run) == s;
    InitialInv(s0);
    NobodyEndsEarlyRun(s0, run);
  }

  // ---------- What streams put out ----------

  function OutOf(t: Stream): seq<Frame> {
    if t.phase.Emitting? then t.phase.out else []
  }

  /** How often `f` is among the outputs that streams still have to push. */
  function CountEmitting(ts: seq<Stream>, f: Frame): nat {
    if ts == [] then 0 else CountEmitting(Init(ts), f) + Count(OutOf(Last(ts)), f)
  }

  lemma {:induction false} CountEmittingUpdate(ts: seq<Stream>, i: nat, t: Stream, f: Frame)
    requires i < |ts|
    ensures CountEmitting(ts[i := t], f) + Count(OutOf(ts[i]), f) == CountEmitting(ts, f) + Count(OutOf(t), f)
  {
    var us := ts[i := t];
    if i == |ts| - 1 {
      assert Init(us) == Init(ts);
    } else {
      assert Init(us) == Init(ts)[i := t] && Last(us) == Last(ts);
      CountEmittingUpdate(Init(ts), i, t, f);
    }
  }

  lemma {:induction false} NobodyEmitting(ts: seq<Stream>, f: Frame)
    requires forall i | 0 <= i < |ts| :: ts[i].phase == Reading
    ensures CountEmitting(ts, f) == 0
  {
    if ts != [] {
      NobodyEmitting(Init(ts), f);
    }
  }

  predicate ReadInv(s: State, f: Frame) {
    Count(s.log.read, f) == Count(s.log.decodeIn, f) + Count(s.log.decodeLost, f) + CountEmitting(s.streams, f)
  }

  lemma ReadRead(s: State, i: nat, out: seq<Frame>, f: Frame)
    requires ReadInv(s, f) && StreamEnabled(s, i, Read(out))
    ensures ReadInv(StreamApply(s, i, Read(out)), f)
  {
    CountEmittingUpdate(s.streams, i, s.streams[i].(phase := Emitting(out)), f);
    CountAppend(s.log.read, out, f);
  }

  lemma ReadEmit(s: State, i: nat, f: Frame)
    requires ReadInv(s, f) && StreamEnabled(s, i, Emit)
    ensures ReadInv(StreamApply(s, i, Emit), f)
  {
    var out := s.streams[i].phase.out;
    if out == [] {
      CountEmittingUpdate(s.streams, i, s.streams[i].(phase := Reading), f);
    } else {
      CountEmittingUpdate(s.streams, i, s.streams[i].(phase := Emitting(out[1..])), f);
      CountFront(out, f);
      if s.decode.stopped {
        CountSnoc(s.log.decodeLost, out[0], f);
      } else {
        CountSnoc(s.log.decodeIn, out[0], f);
      }
    }
  }

  lemma ReadLeave(s: State, i: nat, f: Frame)
    requires ReadInv(s, f) && StreamEnabled(s, i, Leave)
    ensures ReadInv(StreamApply(s, i, Leave), f)
  {
    CountEmittingUpdate(s.streams, i, s.streams[i].(phase := StreamDone), f);
  }

  lemma ReadStream(s: State, i: nat, sa: StreamAct, f: Frame)
    requires ReadInv(s, f) && StreamEnabled(s, i, sa)
    ensures ReadInv(StreamApply(s, i, sa), f)
  {
    match sa
    case Read(out) => ReadRead(s, i, out, f);
    case Leave => ReadLeave(s, i, f);
    case Emit => ReadEmit(s, i, f);
  }

  /** Nobody but streams touches what they have put out, nor the streams, save to ask and start them. */
  predicate SameReads(s: State, t: State) {
    && t.streams == s.streams && t.log.read == s.log.read && t.decode.stopped == s.decode.stopped
    && t.log.decodeIn == s.log.decodeIn && t.log.decodeLost == s.log.decodeLost
  }

  lemma OthersKeepReads(s: State, a: Action)
    requires Enabled(s, a) && (a.OfWorker? || a.OfBatcher? || a.OfPublisher?)
    ensures SameReads(s, Apply(s, a))
  {
    match a
    case OfWorker(i, wa) => assert Apply(s, a) == WorkerApply(s, i, wa);
    case OfBatcher(ba) => assert Apply(s, a) == BatcherApply(s, ba);
    case OfPublisher(i, pa) => assert Apply(s, a) == PublisherApply(s, i, pa);
  }

  lemma ReadControl(s: State, f: Frame)
    requires ReadInv(s, f) && ControlEnabled(s)
    ensures ReadInv(ControlApply(s), f)
  {
    if s.ctl.JoinStreams? && s.ctl.i < |s.streams| {
      CountEmittingUpdate(s.streams, s.ctl.i, s.streams[s.ctl.i].(stop := true), f);
    }
  }

  lemma ReadReloader(s: State, a: Action, f: Frame)
    requires ReadInv(s, f) && Enabled(s, a) && (a.SpawnStream? || a.AskStream?)
    ensures ReadInv(Apply(s, a), f)
  {
    if a.AskStream? {
      CountEmittingUpdate(s.streams, a.i, s.streams[a.i].(stop := true), f);
    } else {
      assert Init(s.streams + [Stream(false, Reading)]) == s.streams;
    }
  }

  lemma ReadStep(s: State, a: Action, f: Frame)
    requires ReadInv(s, f) && Enabled(s, a)
    ensures ReadInv(Apply(s, a), f)
  {
    match a
    case OfStream(i, sa) =>
      ReadStream(s, i, sa, f);
      assert Apply(s, a) == StreamApply(s, i, sa);
    case Control => ReadControl(s, f);
    case SpawnStream => ReadReloader(s, a, f);
    case AskStream(_) => ReadReloader(s, a, f);
    case _ => OthersKeepReads(s, a);
  }

  lemma {:induction false} ReadRun(s: State, run: seq<Action>, f: Frame)
    requires ReadInv(s, f) && Possible(s, run)
    ensures ReadInv(After(s, run), f)
    decreases |run|
  {
    if run != [] {
      ReadStep(s, run[0], f);
      ReadRun(Apply(s, run[0]), run[1..], f);
    }
  }

  /**
   * Every frame that streams have put out has been accepted by the decode queue, dropped as it had stopped, or is still
   * to be pushed.
   */
  lemma ReadsConserved(s: State, f: Frame)
    requires Reachable(s)
    ensures Count(s.log.read, f)
         == Count(s.log.decodeIn, f) + Count(s.log.decodeLost, f) + CountEmitting(s.streams, f)
    ensures !s.decode.stopped ==> s.log.decodeLost == []
  {
    var s0 :| Initial(s0) && Reaches(s0, s);
    var run :| Possible(s0, run) && After(s0, run) == s;
    NobodyEmitting(s0.streams, f);
    ReadRun(s0, run, f);
    SingleRun(s0, run);
  }

  /** With at most one stream, its outputs are queued in their order; before the stop nothing is dropped. */
  predicate SingleInv(s: State) {
    && (!s.decode.stopped ==> s.log.decodeLost == [])
    && (|s.streams| == 0 && !s.decode.stopped ==> s.log.read == s.log.decodeIn)
    && (|s.streams| == 1 && !s.decode.stopped ==> s.log.read == s.log.decodeIn + OutOf(s.streams[0]))
  }

  lemma SingleStream(s: State, i: nat, sa: StreamAct)
    requires SingleInv(s) && StreamEnabled(s, i, sa)
    ensures SingleInv(StreamApply(s, i, sa))
  {
    match sa
    case Emit =>
      var out := s.streams[i].phase.out;
      if out != [] {
        assert s.log.decodeIn + out == (s.log.decodeIn + [out[0]]) + out[1..];
      }
    case Read(out) => assert s.log.decodeIn + [] == s.log.decodeIn;
    case Leave =>
  }

  lemma SingleControl(s: State)
    requires SingleInv(s) && ControlEnabled(s)
    ensures SingleInv(ControlApply(s))
  {
  }

  lemma SingleStep(s: State, a: Action)
    requires SingleInv(s) && Enabled(s, a)
    ensures SingleInv(Apply(s, a))
  {
    match a
    case OfStream(i, sa) =>
      SingleStream(s, i, sa);
      assert Apply(s, a) == StreamApply(s, i, sa);
    case Control => SingleControl(s);
    case SpawnStream => assert s.log.decodeIn + [] == s.log.decodeIn;
    case AskStream(_) =>
    case _ => OthersKeepReads(s, a);
  }

  lemma {:induction false} SingleRun(s: State, run: seq<Action>)
    requires SingleInv(s) && Possible(s, run)
    ensures SingleInv(After(s, run))
    decreases |run|
  {
    if run != [] {
      SingleStep(s, run[0]);
      SingleRun(Apply(s, run[0]), run[1..]);
    }
  }

  /** One stream's frames enter the decode queue in the order in which its graph put them out, none missing. */
  lemma OneStreamInOrder(s: State)
    requires Reachable(s) && |s.streams| == 1 && !s.decode.stopped
    ensures s.log.read == s.log.decodeIn + OutOf(s.streams[0])
  {
    var s0 :| Initial(s0) && Reaches(s0, s);
    var run :| Possible(s0, run) && After(s0, run) == s;
    SingleRun(s0, run);
  }
}
