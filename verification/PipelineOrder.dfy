/** Per-key order from the decode queue to the published batches. */
module PipelineOrder {
  import opened Sequences
  import opened Chunking
  import opened Queues
  import opened Pipeline
  import opened PipelineSafety
  import opened PipelineTheorems

  /** The graph puts out the frame's own picture, or nothing when it fails. */
  predicate OneInOneOut(s: State, a: Action)
    requires Enabled(s, a)
  {
    a.OfWorker? && a.wa.WorkerPop? ==> a.wa.out == [] || a.wa.out == [s.decode.items[0]]
  }

  predicate OneInOneOutRun(s: State, run: seq<Action>)
    requires Possible(s, run)
    decreases |run|
  {
    run != [] ==> OneInOneOut(s, run[0]) && OneInOneOutRun(Apply(s, run[0]), run[1..])
  }

  /** The worker may put out the frame's own picture, or nothing, and every other step is allowed. */
  lemma OneInOneOutAllows(s: State, a: Action)
    requires Enabled(s, a)
    ensures OneInOneOutRun(s, [a]) <==> OneInOneOut(s, a)
    ensures a.OfWorker? && a.wa.WorkerPop? ==>
              (OneInOneOut(s, a) <==> a.wa.out == [] || a.wa.out == [s.decode.items[0]])
    ensures !(a.OfWorker? && a.wa.WorkerPop?) ==> OneInOneOut(s, a)
  {
    assert [a][1..] == [];
  }

  function Pending(s: State): seq<Frame> {
    if |s.workers| == 1 && s.workers[0].phase.Holding? then s.workers[0].phase.held else []
  }

  ghost predicate OrderInv(s: State) {
    && |s.workers| == 1 && |Pending(s)| <= 1
    && IsSubseq(s.log.procIn + Pending(s), s.log.decodeOut)
  }

  lemma OrderWorker(s: State, i: nat, wa: WorkerAct)
    requires OrderInv(s) && WorkerEnabled(s, i, wa) && OneInOneOut(s, OfWorker(i, wa))
    ensures OrderInv(WorkerApply(s, i, wa))
  {
    var t := WorkerApply(s, i, wa);
    match wa
    case WorkerPop(out) =>
      var f := s.decode.items[0];
      assert s.log.procIn + [] == s.log.procIn;
      if out == [] {
        SubseqSnocRight(s.log.procIn, s.log.decodeOut, f);
      } else {
        SubseqSnocBoth(s.log.procIn, s.log.decodeOut, f);
      }
    case Send =>
      var out := s.workers[0].phase.held;
      if out != [] {
        assert out == [out[0]] && out[1..] == [];
        assert Init(s.log.procIn + out) == s.log.procIn;
        SubseqDropLast(s.log.procIn + out, s.log.decodeOut);
        assert t.log.procIn + Pending(t) == if s.processed.stopped then s.log.procIn else s.log.procIn + out;
      }
    case _ =>
      assert t.log.procIn + Pending(t) == s.log.procIn + Pending(s);
  }

  lemma OrderStep(s: State, a: Action)
    requires OrderInv(s) && Enabled(s, a) && OneInOneOut(s, a)
    ensures OrderInv(Apply(s, a))
  {
    match a
    case OfWorker(i, wa) => OrderWorker(s, i, wa);
    case OfStream(i, sa) => assert Apply(s, a) == StreamApply(s, i, sa);
    case OfBatcher(ba) => assert Apply(s, a) == BatcherApply(s, ba);
    case OfPublisher(i, pa) => assert Apply(s, a) == PublisherApply(s, i, pa);
    case Control => assert Apply(s, a) == ControlApply(s);
    case _ =>
  }

  lemma {:induction false} OrderRun(s: State, run: seq<Action>)
    requires OrderInv(s) && Possible(s, run) && OneInOneOutRun(s, run)
    ensures OrderInv(After(s, run))
    decreases |run|
  {
    if run != [] {
      OrderStep(s, run[0]);
      OrderRun(Apply(s, run[0]), run[1..]);
    }
  }

  /** What is in batches of a key is an initial part of what was batched of it. */
  lemma BuiltIsPrefix(s: State, k: Key)
    requires BatchInv(s)
    ensures exists rest :: OfKey(s.log.batched, k) == Flatten(ChunksFor(s.log.built, k)) + rest
  {
    assert KeyInv(s.log.batched, s.log.built, s.batcher.open, IsFlushing(s), k);
    var sub := OfKey(s.log.batched, k);
    GreedyIsGreedy(sub);
    ChunkedCoversAll(sub);
    if k in s.batcher.open {
      assert sub == Flatten(ChunksFor(s.log.built, k)) + Greedy(sub).open;
    } else {
      assert sub == Flatten(ChunksFor(s.log.built, k)) + [];
    }
  }

  lemma PrefixOfKey(a: seq<Frame>, b: seq<Frame>, k: Key)
    ensures IsSubseq(OfKey(a, k), OfKey(a + b, k))
  {
    SubseqPrefix(a, b);
    OfKeySubseq(a, a + b, k);
  }

  /**
   * With one worker and a one-in-one-out graph, the frames of a key, read batch by batch in the order the
   * batcher builds (and pushes) them, are a subsequence of that key's frames in the order the decode queue
   * accepted them. Re-queues do not matter: they move whole batches.
   */
  lemma OrderEndToEnd(s0: State, run: seq<Action>, k: Key)
    requires Initial(s0) && |s0.workers| == 1 && Possible(s0, run) && OneInOneOutRun(s0, run)
    ensures var s := After(s0, run); IsSubseq(Flatten(ChunksFor(s.log.built, k)), OfKey(s.log.decodeIn, k))
  {
    var s := After(s0, run);
    InitialInv(s0);
    InvRun(s0, run);
    assert OrderInv(s0);
    OrderRun(s0, run);
    BuiltIsPrefix(s, k);
    var rest :| OfKey(s.log.batched, k) == Flatten(ChunksFor(s.log.built, k)) + rest;
    var built := Flatten(ChunksFor(s.log.built, k));
    SubseqPrefix(built, rest);
    PrefixOfKey(s.log.batched, InHand(s.batcher.phase), k);
    PrefixOfKey(s.log.procOut, s.processed.items, k);
    SubseqPrefix(s.log.procIn, Pending(s));
    SubseqTrans(s.log.procIn, s.log.procIn + Pending(s), s.log.decodeOut);
    OfKeySubseq(s.log.procIn, s.log.decodeOut, k);
    PrefixOfKey(s.log.decodeOut, s.decode.items, k);
    SubseqTrans(built, OfKey(s.log.batched, k), OfKey(s.log.procOut, k));
    SubseqTrans(built, OfKey(s.log.procOut, k), OfKey(s.log.procIn, k));
    SubseqTrans(built, OfKey(s.log.procIn, k), OfKey(s.log.decodeOut, k));
    SubseqTrans(built, OfKey(s.log.decodeOut, k), OfKey(s.log.decodeIn, k));
  }

  // ---------- Why one worker ----------

  /** Two workers, one stream with `out` to emit, frames `queue` decoded so far, `done` processed so far. */
  function TwoWorkers(out: seq<Frame>, queue: seq<Frame>, taken: seq<Frame>,
                      w0: Phase<seq<Frame>>, w1: Phase<seq<Frame>>, done: seq<Frame>): State
  {
    State(false, [Stream(false, Emitting(out))], Queue(queue, false),
          [Worker(false, w0), Worker(false, w1)], Queue(done, false),
          BatcherThread(false, BatcherHead, map[]), Queue([], false), [], Running,
          EmptyLog().(read := taken + queue + out, decodeIn := taken + queue, decodeOut := taken, procIn := done))
  }

  lemma Feed(s0: State, a: Frame, b: Frame, t: State)
    requires s0 == TwoWorkers([], [], [], LoopHead, LoopHead, []).(streams := [Stream(false, Reading)])
    requires Reaches(TwoWorkers([], [a, b], [], LoopHead, LoopHead, []), t)
    ensures Reaches(s0, t)
  {
    var s1 := TwoWorkers([a, b], [], [], LoopHead, LoopHead, []);
    var s2 := TwoWorkers([b], [a], [], LoopHead, LoopHead, []);
    var s3 := TwoWorkers([], [a, b], [], LoopHead, LoopHead, []);
    Pair(a, b);
    StreamThen(s2, 0, Emit, s3, t);
    StreamThen(s1, 0, Emit, s2, t);
    StreamThen(s0, 0, Read([a, b]), s1, t);
  }

  lemma Pair(a: Frame, b: Frame)
    ensures [a, b][1..] == [b] && [a][1..] == [] && [b][1..] == []
    ensures [] + ([a] + [b]) == [a, b] && [a] + [b] == [a, b] && [b] + [a] == [b, a] && [] + [b] == [b]
  {
  }

  lemma WaitBoth(queue: seq<Frame>, t: State)
    requires Reaches(TwoWorkers([], queue, [], Waiting, Waiting, []), t)
    ensures Reaches(TwoWorkers([], queue, [], LoopHead, LoopHead, []), t)
  {
    var s3 := TwoWorkers([], queue, [], LoopHead, LoopHead, []);
    var s4 := TwoWorkers([], queue, [], Waiting, LoopHead, []);
    WorkerThen(s4, 1, WorkerLoop, TwoWorkers([], queue, [], Waiting, Waiting, []), t);
    WorkerThen(s3, 0, WorkerLoop, s4, t);
  }

  lemma TakeBoth(a: Frame, b: Frame, t: State)
    requires Reaches(TwoWorkers([], [], [a, b], Holding([a]), Holding([b]), []), t)
    ensures Reaches(TwoWorkers([], [a, b], [], Waiting, Waiting, []), t)
  {
    var s5 := TwoWorkers([], [a, b], [], Waiting, Waiting, []);
    var s6 := TwoWorkers([], [b], [a], Holding([a]), Waiting, []);
    var s7 := TwoWorkers([], [], [a, b], Holding([a]), Holding([b]), []);
    Pair(a, b);
    WorkerThen(s6, 1, WorkerPop([b]), s7, t);
    WorkerThen(s5, 0, WorkerPop([a]), s6, t);
  }

  lemma SendBoth(a: Frame, b: Frame)
    ensures Reaches(TwoWorkers([], [], [a, b], Holding([a]), Holding([b]), []),
                    TwoWorkers([], [], [a, b], Holding([]), Holding([]), [b, a]))
  {
    var s7 := TwoWorkers([], [], [a, b], Holding([a]), Holding([b]), []);
    var s8 := TwoWorkers([], [], [a, b], Holding([a]), Holding([]), [b]);
    var s9 := TwoWorkers([], [], [a, b], Holding([]), Holding([]), [b, a]);
    Pair(a, b);
    ReachesSelf(s9);
    WorkerThen(s8, 0, Send, s9, s9);
    WorkerThen(s7, 1, Send, s8, s9);
  }

  /**
   * Two workers can overtake each other: the second of two frames, even of one key, reaches the processed queue
   * first.
   */
  lemma TwoWorkersCanReorder(a: Frame, b: Frame)
    ensures exists s0, s :: Initial(s0) && |s0.workers| == 2 && Reaches(s0, s)
                            && s.log.decodeIn == [a, b] && s.log.procIn == [b, a]
  {
    var s0, t := Reordering(a, b);
  }

  lemma Reordering(a: Frame, b: Frame) returns (s0: State, t: State)
    ensures Initial(s0) && |s0.workers| == 2 && Reaches(s0, t)
    ensures t.log.decodeIn == [a, b] && t.log.procIn == [b, a]
  {
    s0 := TwoWorkers([], [], [], LoopHead, LoopHead, []).(streams := [Stream(false, Reading)]);
    t := TwoWorkers([], [], [a, b], Holding([]), Holding([]), [b, a]);
    SendBoth(a, b);
    TakeBoth(a, b, t);
    WaitBoth([a, b], t);
    Feed(s0, a, b, t);
    TwoWorkersStart(s0);
    TwoWorkersEnd([a, b], [b, a], t);
  }

  lemma TwoWorkersStart(s0: State)
    requires s0 == TwoWorkers([], [], [], LoopHead, LoopHead, []).(streams := [Stream(false, Reading)])
    ensures Initial(s0) && |s0.workers| == 2
  {
  }

  lemma TwoWorkersEnd(taken: seq<Frame>, done: seq<Frame>, t: State)
    requires t == TwoWorkers([], [], taken, Holding([]), Holding([]), done)
    ensures t.log.decodeIn == taken && t.log.procIn == done
  {
  }
}
