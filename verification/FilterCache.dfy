/** A worker's cache of filter graphs, against a worker that builds a graph for every frame. */
module FilterCache {
  import opened Sequences
  import opened Configs
  import opened Decimal

  datatype Aspect = Aspect(num: int, den: int)

  /** Everything a graph is built from. */
  datatype Params = Params(processing: ProcessingConfig, width: int, height: int, pixFmt: int, aspect: Aspect)

  datatype Input = Input(streamId: int, eventName: string, params: Params, picture: nat)

  /** One pull from the graph's sink. */
  datatype Pull<+O> = Got(frame: O) | Again | Eof | Error

  /**
   * The filter library: whether a graph for given parameters can be built, and what the sink yields, pull by
   * pull, once a frame has been fed to a graph built for given parameters (nothing if feeding fails).
   */
  datatype Library<!O> = Library(builds: Params -> bool, pulls: (Params, Input) -> seq<Pull<O>>)

  // ---------- The drain loop ----------

  /** The frames from pull `k` on, before the first that yields none, at most `n`. */
  function DrainedFrom<O>(pulls: seq<Pull<O>>, k: nat, n: nat): seq<O>
    decreases n
  {
    if n == 0 || k >= |pulls| || !pulls[k].Got? then [] else [pulls[k].frame] + DrainedFrom(pulls, k + 1, n - 1)
  }

  function Drained<O>(pulls: seq<Pull<O>>, n: nat): seq<O> {
    DrainedFrom(pulls, 0, n)
  }

  /**
   * The frames are what the first pulls gave, one each, and they go on up to the limit, the end of the pulls (where an
   * exhausted sink answers EAGAIN), or the first pull that gave none.
   */
  ghost predicate IsDrain<O>(pulls: seq<Pull<O>>, limit: nat, frames: seq<O>) {
    && |frames| <= limit && |frames| <= |pulls|
    && (forall k | 0 <= k < |frames| :: pulls[k] == Got(frames[k]))
    && (|frames| == limit || |frames| == |pulls| || !pulls[|frames|].Got?)
  }

  lemma NoLonger<O>(pulls: seq<Pull<O>>, limit: nat, a: seq<O>, b: seq<O>)
    requires IsDrain(pulls, limit, a) && IsDrain(pulls, limit, b)
    ensures |b| <= |a|
  {
  }

  /** There is one such sequence of frames. */
  lemma DrainUnique<O>(pulls: seq<Pull<O>>, limit: nat, a: seq<O>, b: seq<O>)
    requires IsDrain(pulls, limit, a) && IsDrain(pulls, limit, b)
    ensures a == b
  {
    NoLonger(pulls, limit, a, b);
    NoLonger(pulls, limit, b, a);
    forall k | 0 <= k < |a| ensures a[k] == b[k] {
      assert pulls[k] == Got(a[k]) && pulls[k] == Got(b[k]);
    }
  }

  lemma {:induction false} DrainedFromIs<O>(pulls: seq<Pull<O>>, k: nat, n: nat)
    requires k <= |pulls|
    ensures var frames := DrainedFrom(pulls, k, n);
            && |frames| <= n && k + |frames| <= |pulls|
            && (forall j | 0 <= j < |frames| :: pulls[k + j] == Got(frames[j]))
            && (|frames| == n || k + |frames| == |pulls| || !pulls[k + |frames|].Got?)
    decreases n
  {
    if n > 0 && k < |pulls| && pulls[k].Got? {
      DrainedFromIs(pulls, k + 1, n - 1);
    }
  }

  /** What the drain loop is specified by is that sequence. */
  lemma DrainedIs<O>(pulls: seq<Pull<O>>, limit: nat)
    ensures IsDrain(pulls, limit, Drained(pulls, limit))
  {
    DrainedFromIs(pulls, 0, limit);
  }

  /** The drain loop; the source's limit is five frames. */
  method Drain<O>(pulls: seq<Pull<O>>, limit: nat) returns (frames: seq<O>)
    ensures frames == Drained(pulls, limit)
    ensures |frames| <= limit && |frames| <= |pulls|
    ensures forall k | 0 <= k < |frames| :: pulls[k] == Got(frames[k])
    ensures |frames| == limit || |frames| == |pulls| || !pulls[|frames|].Got?
  {
    frames := [];
    var framesDrained := 0;
    while framesDrained < limit
      invariant framesDrained == |frames| <= limit && framesDrained <= |pulls|
      invariant forall k | 0 <= k < |frames| :: pulls[k] == Got(frames[k])
    {
      // An exhausted sink answers EAGAIN.
      if framesDrained == |pulls| || !pulls[framesDrained].Got? {
        break;
      }
      frames := frames + [pulls[framesDrained].frame];
      framesDrained := framesDrained + 1;
    }
    DrainedIs(pulls, limit);
    DrainUnique(pulls, limit, frames, Drained(pulls, limit));
  }

  // ---------- The cache ----------

  type Cache = map<string, Params>

  function CtxKey(i: Input): string {
    PrintInt(i.streamId) + "_" + i.eventName
  }

  /** No two (stream, event) pairs share a cache key. */
  lemma CtxKeyInjective(a: Input, b: Input)
    requires CtxKey(a) == CtxKey(b)
    ensures a.streamId == b.streamId && a.eventName == b.eventName
  {
    assert CtxKey(a) == PrintInt(a.streamId) + ("_" + a.eventName);
    assert CtxKey(b) == PrintInt(b.streamId) + ("_" + b.eventName);
    ReadPrinted(a.streamId, "_" + a.eventName);
    ReadPrinted(b.streamId, "_" + b.eventName);
    assert ("_" + a.eventName)[1..] == a.eventName && ("_" + b.eventName)[1..] == b.eventName;
  }

  /** The reuse test: it does not look at the aspect ratio. */
  predicate Matches(p: Params, q: Params) {
    p.processing == q.processing && p.width == q.width && p.height == q.height && p.pixFmt == q.pixFmt
  }

  /** It takes one graph for the other exactly when they agree in everything but the aspect ratio. */
  lemma MatchesIff(p: Params, q: Params)
    ensures Matches(p, q) <==> p.(aspect := q.aspect) == q
  {
  }

  predicate Hits(cache: Cache, i: Input) {
    CtxKey(i) in cache && Matches(cache[CtxKey(i)], i.params)
  }

  /** The cache after a frame: a failed build leaves an older context where it was. */
  function CacheStep<O>(lib: Library<O>, cache: Cache, i: Input): Cache {
    if Hits(cache, i) || !lib.builds(i.params) then cache else cache[CtxKey(i) := i.params]
  }

  function CachedOut<O>(lib: Library<O>, cache: Cache, i: Input): seq<O> {
    if Hits(cache, i) then Drained(lib.pulls(cache[CtxKey(i)], i), 5)
    else if lib.builds(i.params) then Drained(lib.pulls(i.params, i), 5)
    else []
  }

  /** The outputs of a graph built for this frame alone. */
  function FreshOut<O>(lib: Library<O>, i: Input): seq<O> {
    if lib.builds(i.params) then Drained(lib.pulls(i.params, i), 5) else []
  }

  function CacheAfter<O>(lib: Library<O>, ins: seq<Input>): Cache {
    if ins == [] then map[] else CacheStep(lib, CacheAfter(lib, Init(ins)), Last(ins))
  }

  /** All outputs of one worker. */
  function WorkerOut<O>(lib: Library<O>, ins: seq<Input>): seq<O> {
    if ins == [] then [] else WorkerOut(lib, Init(ins)) + CachedOut(lib, CacheAfter(lib, Init(ins)), Last(ins))
  }

  function AllFresh<O>(lib: Library<O>, ins: seq<Input>): seq<O> {
    if ins == [] then [] else AllFresh(lib, Init(ins)) + FreshOut(lib, Last(ins))
  }

  class WorkerThread<!O> {
    const lib: Library<O>
    var streamContexts: Cache
    var sent: seq<O>

    constructor (library: Library<O>)
      ensures lib == library && streamContexts == map[] && sent == []
    {
      lib, streamContexts, sent := library, map[], [];
    }

    /** The loop body of `worker_loop`. */
    method HandleFrame(i: Input)
      modifies this
      ensures streamContexts == CacheStep(lib, old(streamContexts), i)
      ensures sent == old(sent) + CachedOut(lib, old(streamContexts), i)
    {
      var ctxKey := CtxKey(i);
      var needsReinit := true;
      if ctxKey in streamContexts {
        if Matches(streamContexts[ctxKey], i.params) {
          needsReinit := false;
        }
      }
      if needsReinit {
        if !lib.builds(i.params) {
          return;
        }
        streamContexts := streamContexts[ctxKey := i.params];
      }
      var frames := Drain(lib.pulls(streamContexts[ctxKey], i), 5);
      sent := sent + frames;
    }

    method WorkerLoop(ins: seq<Input>)
      requires streamContexts == map[] && sent == []
      modifies this
      ensures sent == WorkerOut(lib, ins)
    {
      for n := 0 to |ins|
        invariant streamContexts == CacheAfter(lib, ins[..n]) && sent == WorkerOut(lib, ins[..n])
      {
        assert Init(ins[..n + 1]) == ins[..n];
        HandleFrame(ins[n]);
      }
      assert ins[..|ins|] == ins;
    }
  }

  // ---------- When the cache is invisible ----------

  /** Frames of one key that the reuse test cannot tell apart have one aspect ratio. */
  ghost predicate AspectFixed(ins: seq<Input>) {
    forall a, b | a in ins && b in ins ::
      CtxKey(a) == CtxKey(b) && Matches(a.params, b.params) ==> a.params.aspect == b.params.aspect
  }

  /** Every context in the cache was built for a frame of its key. */
  lemma {:induction false} CacheOrigin<O>(lib: Library<O>, ins: seq<Input>, k: string)
    requires k in CacheAfter(lib, ins)
    ensures lib.builds(CacheAfter(lib, ins)[k])
    ensures exists i :: 0 <= i < |ins| && CtxKey(ins[i]) == k && ins[i].params == CacheAfter(lib, ins)[k]
  {
    var before, last := CacheAfter(lib, Init(ins)), Last(ins);
    if k in before && CacheAfter(lib, ins)[k] == before[k] {
      CacheOrigin(lib, Init(ins), k);
      var i :| 0 <= i < |Init(ins)| && CtxKey(Init(ins)[i]) == k && Init(ins)[i].params == before[k];
      assert ins[i] == Init(ins)[i];
    } else {
      assert CtxKey(last) == k && last.params == CacheAfter(lib, ins)[k] && ins[|ins| - 1] == last;
    }
  }

  /** A graph could be built for frame `i`, which has key `k`. */
  predicate Buildable<O>(lib: Library<O>, ins: seq<Input>, k: string, i: int) {
    0 <= i < |ins| && CtxKey(ins[i]) == k && lib.builds(ins[i].params)
  }

  lemma BuildableLast<O>(lib: Library<O>, ins: seq<Input>, k: string)
    requires ins != []
    ensures (exists i :: Buildable(lib, ins, k, i))
       <==> (exists i :: Buildable(lib, Init(ins), k, i)) || Buildable(lib, ins, k, |ins| - 1)
  {
    forall i | 0 <= i < |ins| - 1 ensures Buildable(lib, ins, k, i) <==> Buildable(lib, Init(ins), k, i) {
      assert Init(ins)[i] == ins[i];
    }
    if i :| Buildable(lib, ins, k, i) {
      assert i < |ins| - 1 ==> Buildable(lib, Init(ins), k, i);
    }
  }

  /** A key is cached exactly when a graph could be built for some frame of it; failures remove nothing. */
  lemma {:induction false} CachedIff<O>(lib: Library<O>, ins: seq<Input>, k: string)
    ensures k in CacheAfter(lib, ins) <==> exists i :: Buildable(lib, ins, k, i)
  {
    if ins != [] {
      CachedIff(lib, Init(ins), k);
      BuildableLast(lib, ins, k);
    }
  }

  /** A fresh graph puts out what its sink yields, at most five frames; where none can be built, nothing comes out. */
  lemma FreshOutIs<O>(lib: Library<O>, i: Input)
    ensures lib.builds(i.params) ==> IsDrain(lib.pulls(i.params, i), 5, FreshOut(lib, i))
    ensures !lib.builds(i.params) ==> FreshOut(lib, i) == []
  {
    DrainedIs(lib.pulls(i.params, i), 5);
  }

  /** The frame went through a graph built for `q`, which agrees with it in all that the reuse test compares. */
  ghost predicate WentThrough<O>(lib: Library<O>, ins: seq<Input>, t: nat, q: Params, out: seq<O>)
    requires t < |ins|
  {
    && lib.builds(q) && q.(aspect := ins[t].params.aspect) == ins[t].params && IsDrain(lib.pulls(q, ins[t]), 5, out)
    && exists i :: 0 <= i <= t && CtxKey(ins[i]) == CtxKey(ins[t]) && ins[i].params == q
  }

  /**
   * Whatever failed before, a frame with any output went through a graph that was built for a frame of its own
   * stream and event, with its own processing settings, width, height and pixel format.
   */
  lemma GraphMatchesFrame<O>(lib: Library<O>, ins: seq<Input>, t: nat)
    requires t < |ins|
    ensures var out := CachedOut(lib, CacheAfter(lib, ins[..t]), ins[t]);
            out != [] ==> exists q :: WentThrough(lib, ins, t, q, out)
  {
    var cache, k := CacheAfter(lib, ins[..t]), CtxKey(ins[t]);
    var out := CachedOut(lib, cache, ins[t]);
    if Hits(cache, ins[t]) {
      CacheOrigin(lib, ins[..t], k);
      var i :| 0 <= i < t && CtxKey(ins[..t][i]) == k && ins[..t][i].params == cache[k];
      assert CtxKey(ins[i]) == k && ins[i].params == cache[k];
      DrainedIs(lib.pulls(cache[k], ins[t]), 5);
      assert WentThrough(lib, ins, t, cache[k], out);
    } else if out != [] {
      DrainedIs(lib.pulls(ins[t].params, ins[t]), 5);
      assert WentThrough(lib, ins, t, ins[t].params, out);
    }
  }

  /** With fixed aspect ratios, each frame gets exactly what a graph built for it would have put out. */
  lemma CachedIsFresh<O>(lib: Library<O>, ins: seq<Input>, t: nat)
    requires t < |ins| && AspectFixed(ins)
    ensures CachedOut(lib, CacheAfter(lib, ins[..t]), ins[t]) == FreshOut(lib, ins[t])
  {
    var cache, k := CacheAfter(lib, ins[..t]), CtxKey(ins[t]);
    if Hits(cache, ins[t]) {
      CacheOrigin(lib, ins[..t], k);
      var i :| 0 <= i < t && CtxKey(ins[..t][i]) == k && ins[..t][i].params == cache[k];
      assert ins[i].params == ins[t].params;
    }
  }

  /** What a graph was built for, seen from outside. */
  function Revealing(p: Params): Library<Params> {
    Library(q => Matches(p, q), (q: Params, i: Input) => [Got(q)])
  }

  /** The library builds only graphs that the reuse test takes for `p`. */
  ghost predicate BuildsOnly<O>(lib: Library<O>, p: Params) {
    forall q :: lib.builds(q) ==> Matches(p, q)
  }

  lemma StickyStep<O>(lib: Library<O>, p: Params, cache: Cache, i: Input, k: string)
    requires BuildsOnly(lib, p) && k in cache && Matches(p, cache[k])
    ensures k in CacheStep(lib, cache, i) && CacheStep(lib, cache, i)[k] == cache[k]
  {
  }

  /** Under such a library, a context like `p` stays in the cache. */
  lemma {:induction false} Sticky<O>(lib: Library<O>, p: Params, before: seq<Input>, more: seq<Input>, k: string)
    requires BuildsOnly(lib, p)
    requires k in CacheAfter(lib, before) && Matches(p, CacheAfter(lib, before)[k])
    ensures k in CacheAfter(lib, before + more) && CacheAfter(lib, before + more)[k] == CacheAfter(lib, before)[k]
    decreases |more|
  {
    if more == [] {
      assert before + more == before;
    } else {
      Sticky(lib, p, before, Init(more), k);
      assert Init(before + more) == before + Init(more);
      StickyStep(lib, p, CacheAfter(lib, before + Init(more)), Last(more), k);
    }
  }

  lemma DrainedOne(q: Params)
    ensures Drained([Got(q)], 5) == [q]
  {
    assert DrainedFrom([Got(q)], 1, 4) == [];
  }

  /** Two frames the reuse test confuses: under some library one of them passes through the wrong graph. */
  lemma ConfusedFrames(ins: seq<Input>, i: nat, j: nat)
    requires i < j < |ins| && CtxKey(ins[i]) == CtxKey(ins[j]) && Matches(ins[i].params, ins[j].params)
    requires ins[i].params.aspect != ins[j].params.aspect
    ensures var lib := Revealing(ins[i].params);
            || CachedOut(lib, CacheAfter(lib, ins[..i]), ins[i]) != FreshOut(lib, ins[i])
            || CachedOut(lib, CacheAfter(lib, ins[..j]), ins[j]) != FreshOut(lib, ins[j])
  {
    var p, k := ins[i].params, CtxKey(ins[i]);
    var lib := Revealing(p);
    var at := CacheAfter(lib, ins[..i + 1]);
    assert Init(ins[..i + 1]) == ins[..i];
    assert k in at && Matches(p, at[k]);
    DrainedOne(at[k]);
    DrainedOne(p);
    DrainedOne(ins[j].params);
    assert CachedOut(lib, CacheAfter(lib, ins[..i]), ins[i]) == [at[k]];
    assert FreshOut(lib, ins[i]) == [p];
    assert ins[..j] == ins[..i + 1] + ins[i + 1..j];
    Sticky(lib, p, ins[..i + 1], ins[i + 1..j], k);
    assert CachedOut(lib, CacheAfter(lib, ins[..j]), ins[j]) == [at[k]];
    assert FreshOut(lib, ins[j]) == [ins[j].params];
  }

  /** Under every library, every frame gets what a graph built for it would have put out. */
  ghost predicate CacheInvisible(ins: seq<Input>) {
    forall lib: Library<Params>, t: nat | t < |ins| :: SameOut(lib, ins, t)
  }

  predicate SameOut(lib: Library<Params>, ins: seq<Input>, t: nat)
    requires t < |ins|
  {
    CachedOut(lib, CacheAfter(lib, ins[..t]), ins[t]) == FreshOut(lib, ins[t])
  }

  /** The reuse test takes one for the other although their aspect ratios differ. */
  predicate Confused(a: Input, b: Input) {
    CtxKey(a) == CtxKey(b) && Matches(a.params, b.params) && a.params.aspect != b.params.aspect
  }

  lemma VisibleAt(ins: seq<Input>, i: nat, j: nat)
    requires i < j < |ins| && Confused(ins[i], ins[j])
    ensures !CacheInvisible(ins)
  {
    var lib := Revealing(ins[i].params);
    ConfusedFrames(ins, i, j);
    assert !SameOut(lib, ins, i) || !SameOut(lib, ins, j);
  }

  lemma ConfusedPair(ins: seq<Input>) returns (i: nat, j: nat)
    requires !AspectFixed(ins)
    ensures i < |ins| && j < |ins| && Confused(ins[i], ins[j])
  {
    var a, b :| a in ins && b in ins && Confused(a, b);
    i :| i < |ins| && ins[i] == a;
    j :| j < |ins| && ins[j] == b;
  }

  lemma VisibleWhenConfused(ins: seq<Input>)
    requires !AspectFixed(ins)
    ensures !CacheInvisible(ins)
  {
    var i, j := ConfusedPair(ins);
    if i < j {
      VisibleAt(ins, i, j);
    } else if j < i {
      VisibleAt(ins, j, i);
    }
  }

  /** The cache is invisible exactly when aspect ratios are fixed per key. */
  lemma InvisibleIff(ins: seq<Input>)
    ensures CacheInvisible(ins) <==> AspectFixed(ins)
  {
    if AspectFixed(ins) {
      forall lib: Library<Params>, t: nat | t < |ins| ensures SameOut(lib, ins, t) {
        CachedIsFresh(lib, ins, t);
      }
    } else {
      VisibleWhenConfused(ins);
    }
  }

  // ---------- The pool ----------

  /** The frames worker `w` gets when frame `i` goes to worker `who[i]`. */
  function Assigned(ins: seq<Input>, who: seq<nat>, w: int): seq<Input>
    requires |who| == |ins|
  {
    if ins == [] then []
    else Assigned(Init(ins), Init(who), w) + (if Last(who) == w then [Last(ins)] else [])
  }

  lemma {:induction false} AssignedIn(ins: seq<Input>, who: seq<nat>, w: int)
    requires |who| == |ins|
    ensures forall i | i in Assigned(ins, who, w) :: i in ins
  {
    if ins != [] {
      AssignedIn(Init(ins), Init(who), w);
    }
  }

  /** One worker with fixed aspect ratios: its outputs are the fresh ones, in order. */
  lemma {:induction false} WorkerIsFresh<O>(lib: Library<O>, ins: seq<Input>)
    requires AspectFixed(ins)
    ensures WorkerOut(lib, ins) == AllFresh(lib, ins)
  {
    if ins != [] {
      assert forall i | i in Init(ins) :: i in ins;
      WorkerIsFresh(lib, Init(ins));
      CachedIsFresh(lib, ins, |ins| - 1);
      assert ins[..|ins| - 1] == Init(ins);
    }
  }

  /** Per worker, how often it puts out `o`. */
  function PoolCounts<O(==)>(lib: Library<O>, ins: seq<Input>, who: seq<nat>, n: nat, o: O): seq<nat>
    requires |who| == |ins|
  {
    seq(n, w => Count(WorkerOut(lib, Assigned(ins, who, w)), o))
  }

  function FreshCounts<O(==)>(lib: Library<O>, ins: seq<Input>, who: seq<nat>, n: nat, o: O): seq<nat>
    requires |who| == |ins|
  {
    seq(n, w => Count(AllFresh(lib, Assigned(ins, who, w)), o))
  }

  lemma {:induction false} FreshCountsSum<O>(lib: Library<O>, ins: seq<Input>, who: seq<nat>, n: nat, o: O)
    requires |who| == |ins| && forall i | 0 <= i < |who| :: who[i] < n
    ensures Sum(FreshCounts(lib, ins, who, n, o)) == Count(AllFresh(lib, ins), o)
    decreases |ins|
  {
    if ins == [] {
      SumZero(FreshCounts(lib, ins, who, n, o));
    } else {
      FreshCountsSum(lib, Init(ins), Init(who), n, o);
      FreshCountsGrow(lib, ins, who, n, o);
      CountAppend(AllFresh(lib, Init(ins)), FreshOut(lib, Last(ins)), o);
    }
  }

  /** `c` for worker `v`, nothing for the others. */
  function OnlyFor(n: nat, v: nat, c: nat): seq<nat> {
    seq(n, w => if w == v then c else 0)
  }

  lemma FreshCountsGrow<O>(lib: Library<O>, ins: seq<Input>, who: seq<nat>, n: nat, o: O)
    requires |who| == |ins| > 0 && Last(who) < n
    ensures Sum(FreshCounts(lib, ins, who, n, o))
         == Sum(FreshCounts(lib, Init(ins), Init(who), n, o)) + Count(FreshOut(lib, Last(ins)), o)
  {
    var more := OnlyFor(n, Last(who), Count(FreshOut(lib, Last(ins)), o));
    forall w: nat | w < n
      ensures FreshCounts(lib, ins, who, n, o)[w] == FreshCounts(lib, Init(ins), Init(who), n, o)[w] + more[w]
    {
      AssignedGrows(lib, ins, who, w, o);
    }
    SumAdd(FreshCounts(lib, Init(ins), Init(who), n, o), more, FreshCounts(lib, ins, who, n, o));
    SumAt(more, Last(who));
  }

  lemma AssignedGrows<O>(lib: Library<O>, ins: seq<Input>, who: seq<nat>, w: nat, o: O)
    requires |who| == |ins| > 0
    ensures Count(AllFresh(lib, Assigned(ins, who, w)), o)
         == Count(AllFresh(lib, Assigned(Init(ins), Init(who), w)), o)
            + (if Last(who) == w then Count(FreshOut(lib, Last(ins)), o) else 0)
  {
    FreshGrows(lib, Assigned(Init(ins), Init(who), w), Last(ins), o);
  }

  lemma FreshGrows<O>(lib: Library<O>, ins: seq<Input>, x: Input, o: O)
    ensures Count(AllFresh(lib, ins + [x]), o) == Count(AllFresh(lib, ins), o) + Count(FreshOut(lib, x), o)
    ensures ins + [] == ins
  {
    assert Init(ins + [x]) == ins;
    CountAppend(AllFresh(lib, ins), FreshOut(lib, x), o);
  }

  /**
   * Any distribution of the frames over `n` workers, each with its own cache: with fixed aspect ratios the pool puts
   * out, as a multiset, what one graph per frame would.
   */
  lemma PoolIsFresh<O>(lib: Library<O>, ins: seq<Input>, who: seq<nat>, n: nat, o: O)
    requires |who| == |ins| && AspectFixed(ins) && forall i | 0 <= i < |who| :: who[i] < n
    ensures Sum(PoolCounts(lib, ins, who, n, o)) == Count(AllFresh(lib, ins), o)
  {
    forall w: nat | w < n ensures PoolCounts(lib, ins, who, n, o)[w] == FreshCounts(lib, ins, who, n, o)[w] {
      AssignedIn(ins, who, w);
      WorkerIsFresh(lib, Assigned(ins, who, w));
    }
    assert PoolCounts(lib, ins, who, n, o) == FreshCounts(lib, ins, who, n, o);
    FreshCountsSum(lib, ins, who, n, o);
  }
}
