/**
 * The filter cache inside the pipeline: when every worker of a run puts out what its own cached graphs yield, the
 * workers together put out, on every interleaving, what a graph per frame would.
 */
module PipelineCache {
  import opened Sequences
  import opened Queues
  import opened FilterCache
  import P = Pipeline

  /** What a worker sees of a frame. */
  type Reading = P.Frame -> Input

  function Inputs(read: Reading, fs: seq<P.Frame>): (r: seq<Input>)
    ensures |r| == |fs|
  {
    seq(|fs|, i requires 0 <= i < |fs| => read(fs[i]))
  }

  lemma InputsSnoc(read: Reading, fs: seq<P.Frame>, f: P.Frame)
    ensures Inputs(read, fs + [f]) == Inputs(read, fs) + [read(f)]
  {
  }

  // ---------- Runs with caches ----------

  /** Of the steps, only a worker's pop concerns its cache. */
  predicate Pops(a: P.Action) {
    a.OfWorker? && a.wa.WorkerPop?
  }

  /** A worker that pops puts out what its cached graph, or one it builds, yields for the frame. */
  predicate OutputIsCached(lib: Library<P.Frame>, read: Reading, s: P.State, caches: seq<Cache>, a: P.Action)
    requires P.Enabled(s, a) && |caches| == |s.workers|
  {
    Pops(a) ==> a.wa.out == CachedOut(lib, caches[a.i], read(s.decode.items[0]))
  }

  function NextCaches(lib: Library<P.Frame>, read: Reading, s: P.State, caches: seq<Cache>, a: P.Action): seq<Cache>
    requires P.Enabled(s, a) && |caches| == |s.workers|
  {
    if Pops(a) then caches[a.i := CacheStep(lib, caches[a.i], read(s.decode.items[0]))] else caches
  }

  lemma SameWorkers(s: P.State, a: P.Action)
    requires P.Enabled(s, a)
    ensures |P.Apply(s, a).workers| == |s.workers|
  {
    match a
    case OfStream(i, sa) => assert P.Apply(s, a) == P.StreamApply(s, i, sa);
    case OfWorker(i, wa) => assert P.Apply(s, a) == P.WorkerApply(s, i, wa);
    case OfBatcher(ba) => assert P.Apply(s, a) == P.BatcherApply(s, ba);
    case OfPublisher(i, pa) => assert P.Apply(s, a) == P.PublisherApply(s, i, pa);
    case Control => assert P.Apply(s, a) == P.ControlApply(s);
    case _ =>
  }

  /** Every worker's every output in the run is that of its own cache. */
  predicate RunIsCached(lib: Library<P.Frame>, read: Reading, s: P.State, caches: seq<Cache>, run: seq<P.Action>)
    requires P.Possible(s, run) && |caches| == |s.workers|
    decreases |run|
  {
    if run == [] then true
    else
      SameWorkers(s, run[0]);
      && OutputIsCached(lib, read, s, caches, run[0])
      && RunIsCached(lib, read, P.Apply(s, run[0]), NextCaches(lib, read, s, caches, run[0]), run[1..])
  }

  /** What a worker's graphs yield is among the outputs the pipeline allows, if they keep a frame's stream and event. */
  lemma CachedOutAllowed(lib: Library<P.Frame>, cache: Cache, i: Input, f: P.Frame)
    requires forall q, k | 0 <= k < |lib.pulls(q, i)| && lib.pulls(q, i)[k].Got? ::
               lib.pulls(q, i)[k].frame.key == f.key && lib.pulls(q, i)[k].frame.batchSize == f.batchSize
    ensures P.OutputsOf(CachedOut(lib, cache, i), f)
  {
    var out := CachedOut(lib, cache, i);
    var q := if Hits(cache, i) then cache[CtxKey(i)] else i.params;
    DrainedIs(lib.pulls(q, i), 5);
    forall o | o in out ensures o.key == f.key && o.batchSize == f.batchSize {
      var k :| 0 <= k < |out| && out[k] == o;
      assert lib.pulls(q, i)[k] == Got(o);
    }
  }

  /** Such a worker can always pop: its cached output is one it may hold, and the run goes on from there. */
  lemma CachedPopPossible(lib: Library<P.Frame>, read: Reading, s: P.State, caches: seq<Cache>, i: nat)
    requires i < |s.workers| == |caches| && s.workers[i].phase == P.Waiting && s.decode.items != []
    requires P.OutputsOf(CachedOut(lib, caches[i], read(s.decode.items[0])), s.decode.items[0])
    ensures var run := [P.OfWorker(i, P.WorkerPop(CachedOut(lib, caches[i], read(s.decode.items[0]))))];
            P.Possible(s, run) && RunIsCached(lib, read, s, caches, run)
  {
    var a := P.OfWorker(i, P.WorkerPop(CachedOut(lib, caches[i], read(s.decode.items[0]))));
    assert [a][1..] == [];
    SameWorkers(s, a);
  }

  // ---------- The caches stem from frames popped ----------

  /** Every cached graph was built for an input of `ins` with its key. */
  ghost predicate StemsFrom<O>(lib: Library<O>, cache: Cache, ins: seq<Input>) {
    forall k | k in cache :: lib.builds(cache[k]) && HasInput(ins, k, cache[k])
  }

  predicate HasInput(ins: seq<Input>, k: string, p: Params) {
    exists i | i in ins :: CtxKey(i) == k && i.params == p
  }

  lemma StemsMore<O>(lib: Library<O>, cache: Cache, ins: seq<Input>, x: Input)
    requires StemsFrom(lib, cache, ins)
    ensures StemsFrom(lib, cache, ins + [x])
  {
    forall k | k in cache ensures HasInput(ins + [x], k, cache[k]) {
      assert HasInput(ins, k, cache[k]);
      var i :| i in ins && CtxKey(i) == k && i.params == cache[k];
      assert i in ins + [x];
    }
  }

  lemma StemsStep<O>(lib: Library<O>, cache: Cache, ins: seq<Input>, x: Input)
    requires StemsFrom(lib, cache, ins)
    ensures StemsFrom(lib, CacheStep(lib, cache, x), ins + [x])
  {
    StemsMore(lib, cache, ins, x);
    assert x in ins + [x];
    assert HasInput(ins + [x], CtxKey(x), x.params);
  }

  /** With fixed aspect ratios, a cache that stems from earlier frames yields what a fresh graph would. */
  lemma StemmedIsFresh<O>(lib: Library<O>, cache: Cache, ins: seq<Input>, x: Input)
    requires StemsFrom(lib, cache, ins) && AspectFixed(ins + [x])
    ensures CachedOut(lib, cache, x) == FreshOut(lib, x)
  {
    if Hits(cache, x) {
      var k := CtxKey(x);
      assert HasInput(ins, k, cache[k]);
      var i :| i in ins && CtxKey(i) == k && i.params == cache[k];
      assert i in ins + [x] && x in ins + [x];
      assert i.params == x.params;
    }
  }

  ghost predicate AllStem(lib: Library<P.Frame>, caches: seq<Cache>, ins: seq<Input>) {
    forall w | 0 <= w < |caches| :: StemsFrom(lib, caches[w], ins)
  }

  lemma AllStemStep(lib: Library<P.Frame>, caches: seq<Cache>, ins: seq<Input>, i: nat, x: Input)
    requires AllStem(lib, caches, ins) && i < |caches|
    ensures AllStem(lib, caches[i := CacheStep(lib, caches[i], x)], ins + [x])
  {
    var next := caches[i := CacheStep(lib, caches[i], x)];
    forall w | 0 <= w < |next| ensures StemsFrom(lib, next[w], ins + [x]) {
      if w == i {
        StemsStep(lib, caches[w], ins, x);
      } else {
        StemsMore(lib, caches[w], ins, x);
      }
    }
  }

  // ---------- The account of outputs ----------

  function HeldBy(t: P.Worker): seq<P.Frame> {
    if t.phase.Holding? then t.phase.held else []
  }

  /** How often `f` is among the outputs that workers hold. */
  function CountHeld(ws: seq<P.Worker>, f: P.Frame): nat {
    if ws == [] then 0 else CountHeld(Init(ws), f) + Count(HeldBy(Last(ws)), f)
  }

  lemma {:induction false} CountHeldUpdate(ws: seq<P.Worker>, i: nat, t: P.Worker, f: P.Frame)
    requires i < |ws|
    ensures CountHeld(ws[i := t], f) + Count(HeldBy(ws[i]), f) == CountHeld(ws, f) + Count(HeldBy(t), f)
  {
    var us := ws[i := t];
    if i == |ws| - 1 {
      assert Init(us) == Init(ws);
    } else {
      assert Init(us) == Init(ws)[i := t] && Last(us) == Last(ws);
      CountHeldUpdate(Init(ws), i, t, f);
    }
  }

  lemma {:induction false} NobodyHolds(ws: seq<P.Worker>, f: P.Frame)
    requires forall i | 0 <= i < |ws| :: !ws[i].phase.Holding?
    ensures CountHeld(ws, f) == 0
  {
    if ws != [] {
      NobodyHolds(Init(ws), f);
    }
  }

  /** How often workers have put out `f`: accepted by the processed queue, dropped as it had stopped, or still held. */
  function CountOut(s: P.State, f: P.Frame): nat {
    Count(s.log.procIn, f) + Count(s.log.procLost, f) + CountHeld(s.workers, f)
  }

  lemma PopCount(s: P.State, i: nat, out: seq<P.Frame>, f: P.Frame)
    requires P.WorkerEnabled(s, i, P.WorkerPop(out))
    ensures CountOut(P.WorkerApply(s, i, P.WorkerPop(out)), f) == CountOut(s, f) + Count(out, f)
  {
    CountHeldUpdate(s.workers, i, P.WorkerApply(s, i, P.WorkerPop(out)).workers[i], f);
  }

  lemma SendCount(s: P.State, i: nat, f: P.Frame)
    requires P.WorkerEnabled(s, i, P.Send)
    ensures CountOut(P.WorkerApply(s, i, P.Send), f) == CountOut(s, f)
  {
    var held := s.workers[i].phase.held;
    CountHeldUpdate(s.workers, i, P.WorkerApply(s, i, P.Send).workers[i], f);
    if held != [] {
      CountFront(held, f);
      CountSnoc(s.log.procIn, held[0], f);
      CountSnoc(s.log.procLost, held[0], f);
    }
  }

  lemma WorkerCount(s: P.State, i: nat, wa: P.WorkerAct, f: P.Frame)
    requires P.WorkerEnabled(s, i, wa)
    ensures CountOut(P.WorkerApply(s, i, wa), f) == CountOut(s, f) + (if wa.WorkerPop? then Count(wa.out, f) else 0)
  {
    match wa
    case WorkerPop(out) => PopCount(s, i, out, f);
    case Send => SendCount(s, i, f);
    case _ => CountHeldUpdate(s.workers, i, P.WorkerApply(s, i, wa).workers[i], f);
  }

  lemma ControlCount(s: P.State, f: P.Frame)
    requires P.ControlEnabled(s)
    ensures CountOut(P.ControlApply(s), f) == CountOut(s, f) && P.ControlApply(s).log == s.log
  {
    if s.ctl.JoinWorkers? && s.ctl.i < |s.workers| {
      CountHeldUpdate(s.workers, s.ctl.i, s.workers[s.ctl.i].(stop := true), f);
    }
  }

  lemma OthersCount(s: P.State, a: P.Action, f: P.Frame)
    requires P.Enabled(s, a) && !a.OfWorker?
    ensures CountOut(P.Apply(s, a), f) == CountOut(s, f) && P.Apply(s, a).log.decodeOut == s.log.decodeOut
  {
    match a
    case OfStream(i, sa) => assert P.Apply(s, a) == P.StreamApply(s, i, sa);
    case OfBatcher(ba) => assert P.Apply(s, a) == P.BatcherApply(s, ba);
    case OfPublisher(i, pa) => assert P.Apply(s, a) == P.PublisherApply(s, i, pa);
    case Control => ControlCount(s, f);
    case _ =>
  }

  /** While the frames popped have fixed aspect ratios, the workers have put out what a graph per frame would. */
  ghost predicate CacheInv(lib: Library<P.Frame>, read: Reading, s: P.State, caches: seq<Cache>, f: P.Frame) {
    var ins := Inputs(read, s.log.decodeOut);
    && |caches| == |s.workers| && AllStem(lib, caches, ins)
    && (AspectFixed(ins) ==> CountOut(s, f) == Count(AllFresh(lib, ins), f))
  }

  lemma AspectFixedEarlier(ins: seq<Input>, x: Input)
    requires AspectFixed(ins + [x])
    ensures AspectFixed(ins)
  {
    assert forall i | i in ins :: i in ins + [x];
  }

  lemma CacheInvPop(lib: Library<P.Frame>, read: Reading, s: P.State, caches: seq<Cache>,
                    i: nat, out: seq<P.Frame>, f: P.Frame)
    requires CacheInv(lib, read, s, caches, f) && P.WorkerEnabled(s, i, P.WorkerPop(out))
    requires out == CachedOut(lib, caches[i], read(s.decode.items[0]))
    ensures CacheInv(lib, read, P.WorkerApply(s, i, P.WorkerPop(out)),
                     caches[i := CacheStep(lib, caches[i], read(s.decode.items[0]))], f)
  {
    var x, ins := read(s.decode.items[0]), Inputs(read, s.log.decodeOut);
    InputsSnoc(read, s.log.decodeOut, s.decode.items[0]);
    AllStemStep(lib, caches, ins, i, x);
    PopCount(s, i, out, f);
    if AspectFixed(ins + [x]) {
      AspectFixedEarlier(ins, x);
      StemmedIsFresh(lib, caches[i], ins, x);
      FreshGrows(lib, ins, x, f);
    }
  }

  /** Steps that pop nothing for a worker. */
  lemma QuietStep(s: P.State, a: P.Action, f: P.Frame)
    requires P.Enabled(s, a) && !Pops(a)
    ensures |P.Apply(s, a).workers| == |s.workers| && P.Apply(s, a).log.decodeOut == s.log.decodeOut
    ensures CountOut(P.Apply(s, a), f) == CountOut(s, f)
  {
    SameWorkers(s, a);
    if a.OfWorker? {
      WorkerCount(s, a.i, a.wa, f);
      assert P.Apply(s, a) == P.WorkerApply(s, a.i, a.wa);
    } else {
      OthersCount(s, a, f);
    }
  }

  lemma CacheInvStep(lib: Library<P.Frame>, read: Reading, s: P.State, caches: seq<Cache>, a: P.Action, f: P.Frame)
    requires CacheInv(lib, read, s, caches, f) && P.Enabled(s, a) && OutputIsCached(lib, read, s, caches, a)
    ensures CacheInv(lib, read, P.Apply(s, a), NextCaches(lib, read, s, caches, a), f)
  {
    if Pops(a) {
      CacheInvPop(lib, read, s, caches, a.i, a.wa.out, f);
      assert P.Apply(s, a) == P.WorkerApply(s, a.i, a.wa);
    } else {
      QuietStep(s, a, f);
    }
  }

  lemma {:induction false} CacheInvRun(lib: Library<P.Frame>, read: Reading, s: P.State, caches: seq<Cache>,
                                       run: seq<P.Action>, f: P.Frame) returns (after: seq<Cache>)
    requires CacheInv(lib, read, s, caches, f) && P.Possible(s, run) && RunIsCached(lib, read, s, caches, run)
    ensures CacheInv(lib, read, P.After(s, run), after, f)
    decreases |run|
  {
    after := caches;
    if run != [] {
      CacheInvStep(lib, read, s, caches, run[0], f);
      after := CacheInvRun(lib, read, P.Apply(s, run[0]), NextCaches(lib, read, s, caches, run[0]), run[1..], f);
    }
  }

  /**
   * On every interleaving of all threads, with any number of workers, each with its own cache, and whatever builds
   * failed: if the frames popped from the decode queue have fixed aspect ratios, what the workers have sent, hold and
   * dropped is, as a multiset, what one graph per popped frame would have put out.
   */
  lemma WorkersPutOutFresh(lib: Library<P.Frame>, read: Reading, s0: P.State, run: seq<P.Action>, f: P.Frame)
    requires P.Initial(s0) && P.Possible(s0, run)
    requires RunIsCached(lib, read, s0, seq(|s0.workers|, w => map[]), run)
    requires AspectFixed(Inputs(read, P.After(s0, run).log.decodeOut))
    ensures CountOut(P.After(s0, run), f)
         == Count(AllFresh(lib, Inputs(read, P.After(s0, run).log.decodeOut)), f)
  {
    NobodyHolds(s0.workers, f);
    assert CacheInv(lib, read, s0, seq(|s0.workers|, w => map[]), f);
    var after := CacheInvRun(lib, read, s0, seq(|s0.workers|, w => map[]), run, f);
  }

  // ---------- One worker ----------

  /** A single worker's outputs, sent and held, are in the order of its inputs, until the processed queue stops. */
  ghost predicate OrderedInv(lib: Library<P.Frame>, read: Reading, s: P.State, caches: seq<Cache>) {
    var ins := Inputs(read, s.log.decodeOut);
    && |caches| == |s.workers| && AllStem(lib, caches, ins)
    && (|s.workers| == 1 && !s.processed.stopped && AspectFixed(ins) ==>
          s.log.procIn + HeldBy(s.workers[0]) == AllFresh(lib, ins))
  }

  lemma OrderedPop(lib: Library<P.Frame>, read: Reading, s: P.State, caches: seq<Cache>, i: nat, out: seq<P.Frame>)
    requires OrderedInv(lib, read, s, caches) && P.WorkerEnabled(s, i, P.WorkerPop(out))
    requires out == CachedOut(lib, caches[i], read(s.decode.items[0]))
    ensures OrderedInv(lib, read, P.WorkerApply(s, i, P.WorkerPop(out)),
                       caches[i := CacheStep(lib, caches[i], read(s.decode.items[0]))])
  {
    var x, ins := read(s.decode.items[0]), Inputs(read, s.log.decodeOut);
    InputsSnoc(read, s.log.decodeOut, s.decode.items[0]);
    AllStemStep(lib, caches, ins, i, x);
    if AspectFixed(ins + [x]) {
      AspectFixedEarlier(ins, x);
      StemmedIsFresh(lib, caches[i], ins, x);
      assert Init(ins + [x]) == ins;
      assert s.log.procIn + [] == s.log.procIn;
    }
  }

  lemma OrderedSend(s: P.State, i: nat)
    requires P.WorkerEnabled(s, i, P.Send) && |s.workers| == 1 && !s.processed.stopped
    ensures var t := P.WorkerApply(s, i, P.Send);
            t.log.procIn + HeldBy(t.workers[0]) == s.log.procIn + HeldBy(s.workers[0])
  {
    var held := s.workers[i].phase.held;
    if held != [] {
      assert s.log.procIn + held == (s.log.procIn + [held[0]]) + held[1..];
    }
  }

  lemma OrderedWorker(s: P.State, i: nat, wa: P.WorkerAct)
    requires P.WorkerEnabled(s, i, wa) && !wa.WorkerPop? && |s.workers| == 1 && !s.processed.stopped
    ensures var t := P.WorkerApply(s, i, wa);
            |t.workers| == 1 && t.log.procIn + HeldBy(t.workers[0]) == s.log.procIn + HeldBy(s.workers[0])
  {
    if wa.Send? {
      OrderedSend(s, i);
    }
  }

  /** Steps without a worker's pop keep what a single worker has sent and holds, while the processed queue runs. */
  lemma OrderedQuiet(s: P.State, a: P.Action)
    requires P.Enabled(s, a) && !Pops(a) && |s.workers| == 1 && !P.Apply(s, a).processed.stopped
    ensures |P.Apply(s, a).workers| == 1 && !s.processed.stopped
    ensures P.Apply(s, a).log.decodeOut == s.log.decodeOut
    ensures P.Apply(s, a).log.procIn + HeldBy(P.Apply(s, a).workers[0]) == s.log.procIn + HeldBy(s.workers[0])
  {
    match a
    case OfStream(i, sa) => assert P.Apply(s, a) == P.StreamApply(s, i, sa);
    case OfWorker(i, wa) =>
      OrderedWorker(s, i, wa);
      assert P.Apply(s, a) == P.WorkerApply(s, i, wa);
    case OfBatcher(ba) => assert P.Apply(s, a) == P.BatcherApply(s, ba);
    case OfPublisher(i, pa) => assert P.Apply(s, a) == P.PublisherApply(s, i, pa);
    case Control => assert P.Apply(s, a) == P.ControlApply(s);
    case _ =>
  }

  lemma OrderedStep(lib: Library<P.Frame>, read: Reading, s: P.State, caches: seq<Cache>, a: P.Action, f: P.Frame)
    requires OrderedInv(lib, read, s, caches) && P.Enabled(s, a) && OutputIsCached(lib, read, s, caches, a)
    ensures OrderedInv(lib, read, P.Apply(s, a), NextCaches(lib, read, s, caches, a))
  {
    SameWorkers(s, a);
    if Pops(a) {
      OrderedPop(lib, read, s, caches, a.i, a.wa.out);
      assert P.Apply(s, a) == P.WorkerApply(s, a.i, a.wa);
    } else {
      QuietStep(s, a, f);
      if |s.workers| == 1 && !P.Apply(s, a).processed.stopped {
        OrderedQuiet(s, a);
      }
    }
  }

  lemma {:induction false} OrderedRun(lib: Library<P.Frame>, read: Reading, s: P.State, caches: seq<Cache>,
                                      run: seq<P.Action>, f: P.Frame) returns (after: seq<Cache>)
    requires OrderedInv(lib, read, s, caches) && P.Possible(s, run) && RunIsCached(lib, read, s, caches, run)
    ensures OrderedInv(lib, read, P.After(s, run), after)
    decreases |run|
  {
    after := caches;
    if run != [] {
      OrderedStep(lib, read, s, caches, run[0], f);
      after := OrderedRun(lib, read, P.Apply(s, run[0]), NextCaches(lib, read, s, caches, run[0]), run[1..], f);
    }
  }

  /**
   * With one worker and fixed aspect ratios, until the processed queue stops: what has entered it, and what the worker
   * still holds, is in order and without gaps what one graph per popped frame would have put out.
   */
  lemma OneWorkerInOrder(lib: Library<P.Frame>, read: Reading, s0: P.State, run: seq<P.Action>, f: P.Frame)
    requires P.Initial(s0) && P.Possible(s0, run) && |s0.workers| == 1
    requires RunIsCached(lib, read, s0, seq(|s0.workers|, w => map[]), run)
    requires AspectFixed(Inputs(read, P.After(s0, run).log.decodeOut)) && !P.After(s0, run).processed.stopped
    ensures |P.After(s0, run).workers| == 1
    ensures P.After(s0, run).log.procIn + HeldBy(P.After(s0, run).workers[0])
         == AllFresh(lib, Inputs(read, P.After(s0, run).log.decodeOut))
  {
    WorkerCountStays(s0, run);
    assert OrderedInv(lib, read, s0, seq(|s0.workers|, w => map[]));
    var after := OrderedRun(lib, read, s0, seq(|s0.workers|, w => map[]), run, f);
  }

  lemma {:induction false} WorkerCountStays(s: P.State, run: seq<P.Action>)
    requires P.Possible(s, run)
    ensures |P.After(s, run).workers| == |s.workers|
    decreases |run|
  {
    if run != [] {
      SameWorkers(s, run[0]);
      WorkerCountStays(P.Apply(s, run[0]), run[1..]);
    }
  }
}
