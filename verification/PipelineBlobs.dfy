/**
 * The bytes behind the pipeline's batches: on every interleaving the batcher is at the point that `BatchingThread`
 * gets to with the same frames, and every batch that is queued, held or acked reads back to its frames.
 */
module PipelineBlobs {
  import opened Options
  import opened Widths
  import opened Sequences
  import opened Chunking
  import opened FrameFormat
  import opened Blob
  import opened PipelineSafety
  import opened PipelineTheorems
  import P = Pipeline
  import B = Batcher

  /** The picture each payload stands for. */
  type Gallery = nat -> AvFrame

  ghost predicate Pictures(pic: Gallery) {
    forall n :: Typed(pic(n))
  }

  /** A pipeline frame with its picture. */
  function Real(f: P.Frame, pic: Gallery): B.Frame {
    Item(f.key, Trunc32(f.batchSize), pic(f.payload))
  }

  ghost function RealAll(fs: seq<P.Frame>, pic: Gallery): (r: seq<B.Frame>)
    requires Pictures(pic)
    ensures |r| == |fs| && B.AllAcceptable(r)
  {
    seq(|fs|, i requires 0 <= i < |fs| => Real(fs[i], pic))
  }

  /** The batch with its bytes. */
  ghost function RealBatch(b: P.Batch, pic: Gallery): B.FrameBatch
    requires Pictures(pic)
  {
    B.BatchOf(b.key, RealAll(b.frames, pic))
  }

  ghost function RealBatches(bs: seq<P.Batch>, pic: Gallery): seq<B.FrameBatch>
    requires Pictures(pic)
  {
    seq(|bs|, i requires 0 <= i < |bs| => RealBatch(bs[i], pic))
  }

  ghost function RealOpen(open: map<Key, seq<P.Frame>>, pic: Gallery): map<Key, B.FrameBatch>
    requires Pictures(pic)
  {
    map k | k in open :: B.BatchOf(k, RealAll(open[k], pic))
  }

  // ---------- The same steps ----------

  lemma RealSnoc(fs: seq<P.Frame>, f: P.Frame, pic: Gallery)
    requires Pictures(pic)
    ensures RealAll(fs + [f], pic) == RealAll(fs, pic) + [Real(f, pic)]
  {
  }

  lemma GrownReal(open: map<Key, seq<P.Frame>>, f: P.Frame, pic: Gallery)
    requires Pictures(pic)
    ensures B.Grown(RealOpen(open, pic), Real(f, pic)) == B.BatchOf(f.key, RealAll(P.OpenChunk(open, f.key) + [f], pic))
  {
    var chunk := P.OpenChunk(open, f.key);
    RealSnoc(chunk, f, pic);
    B.BatchOfSnoc(f.key, RealAll(chunk, pic), Real(f, pic));
    if f.key !in open {
      assert B.BatchOf(f.key, RealAll([], pic)) == B.NewBatch(f.key);
    }
  }

  lemma RealOpenDrop(open: map<Key, seq<P.Frame>>, k: Key, pic: Gallery)
    requires Pictures(pic)
    ensures RealOpen(open - {k}, pic) == RealOpen(open, pic) - {k}
  {
  }

  lemma RealOpenSet(open: map<Key, seq<P.Frame>>, k: Key, chunk: seq<P.Frame>, pic: Gallery)
    requires Pictures(pic)
    ensures RealOpen(open[k := chunk], pic) == RealOpen(open, pic)[k := B.BatchOf(k, RealAll(chunk, pic))]
  {
  }

  lemma RealBatchesSnoc(bs: seq<P.Batch>, b: P.Batch, pic: Gallery)
    requires Pictures(pic)
    ensures RealBatches(bs + [b], pic) == RealBatches(bs, pic) + [RealBatch(b, pic)]
  {
  }

  /** What `AddFrame` does to the open chunks and the built batches is what the loop body does to their bytes. */
  lemma AddIsBody(open: map<Key, seq<P.Frame>>, built: seq<P.Batch>, f: P.Frame, no: nat, pic: Gallery)
    requires Pictures(pic) && IsInt32(f.batchSize)
    ensures var chunk := P.OpenChunk(open, f.key) + [f];
            B.Body(B.LoopVars(RealOpen(open, pic), RealBatches(built, pic)), Real(f, pic)) ==
            if |chunk| >= f.batchSize
            then B.LoopVars(RealOpen(open - {f.key}, pic), RealBatches(built + [P.Batch(no, f.key, chunk)], pic))
            else B.LoopVars(RealOpen(open[f.key := chunk], pic), RealBatches(built, pic))
  {
    var chunk := P.OpenChunk(open, f.key) + [f];
    GrownReal(open, f, pic);
    RealOpenDrop(open, f.key, pic);
    RealOpenSet(open, f.key, chunk, pic);
    RealBatchesSnoc(built, P.Batch(no, f.key, chunk), pic);
  }

  ghost predicate SizesFit(fs: seq<P.Frame>) {
    forall f | f in fs :: IsInt32(f.batchSize)
  }

  /** The batcher's open batches and the batches it has built, with their bytes. */
  ghost function VarsOf(s: P.State, pic: Gallery): B.LoopVars
    requires Pictures(pic)
  {
    B.LoopVars(RealOpen(s.batcher.open, pic), RealBatches(s.log.built, pic))
  }

  /** The batcher has the variables of the imperative loop after the frames it has batched and the keys flushed. */
  ghost predicate InStep(s: P.State, keys: seq<Key>, pic: Gallery)
    requires Pictures(pic)
  {
    && (!IsFlushing(s) ==> keys == [])
    && (SizesFit(s.log.batched) ==> B.FlushRun(B.LoopRun(RealAll(s.log.batched, pic)), keys) == VarsOf(s, pic))
  }

  lemma InStepAdd(s: P.State, keys: seq<Key>, pic: Gallery)
    requires Pictures(pic) && InStep(s, keys, pic) && s.batcher.phase.Adding?
    ensures InStep(P.BatcherApply(s, P.AddFrame), keys, pic)
  {
    var f, t := s.batcher.phase.f, P.BatcherApply(s, P.AddFrame);
    assert t.log.batched == s.log.batched + [f] && keys == [];
    if SizesFit(t.log.batched) {
      SizesFitSnoc(s.log.batched, f);
      LoopRunReal(s.log.batched, f, pic);
      AddedVars(s, t, f, pic);
    }
  }

  lemma AddedVars(s: P.State, t: P.State, f: P.Frame, pic: Gallery)
    requires Pictures(pic) && s.batcher.phase == P.Adding(f) && IsInt32(f.batchSize)
    requires t == P.BatcherApply(s, P.AddFrame)
    ensures VarsOf(t, pic) == B.Body(VarsOf(s, pic), Real(f, pic))
  {
    var chunk := P.OpenChunk(s.batcher.open, f.key) + [f];
    AddIsBody(s.batcher.open, s.log.built, f, |s.log.built|, pic);
    if |chunk| >= f.batchSize {
      assert t.batcher.open == s.batcher.open - {f.key};
      assert t.log.built == s.log.built + [P.Batch(|s.log.built|, f.key, chunk)];
    } else {
      assert t.batcher.open == s.batcher.open[f.key := chunk] && t.log.built == s.log.built;
    }
  }

  lemma SizesFitSnoc(fs: seq<P.Frame>, f: P.Frame)
    requires SizesFit(fs + [f])
    ensures SizesFit(fs) && IsInt32(f.batchSize)
  {
    assert forall x | x in fs :: x in fs + [f];
    assert f in fs + [f];
  }

  lemma LoopRunReal(fs: seq<P.Frame>, f: P.Frame, pic: Gallery)
    requires Pictures(pic)
    ensures B.LoopRun(RealAll(fs + [f], pic)) == B.Body(B.LoopRun(RealAll(fs, pic)), Real(f, pic))
  {
    RealSnoc(fs, f, pic);
    B.LoopRunSnoc(RealAll(fs, pic), Real(f, pic));
  }

  lemma FlushIsBody(open: map<Key, seq<P.Frame>>, built: seq<P.Batch>, k: Key, no: nat, pic: Gallery)
    requires Pictures(pic) && k in open && open[k] != []
    ensures B.FlushBody(B.LoopVars(RealOpen(open, pic), RealBatches(built, pic)), k)
         == B.LoopVars(RealOpen(open - {k}, pic), RealBatches(built + [P.Batch(no, k, open[k])], pic))
  {
    var b := P.Batch(no, k, open[k]);
    RealOpenDrop(open, k, pic);
    RealBatchesSnoc(built, b, pic);
    assert RealOpen(open, pic)[k] == RealBatch(b, pic) && RealBatch(b, pic).frameCount > 0;
  }

  lemma InStepFlush(s: P.State, keys: seq<Key>, k: Key, pic: Gallery)
    requires Pictures(pic) && InStep(s, keys, pic) && BatchInv(s)
    requires s.batcher.phase == P.Flushing && k in s.batcher.open
    ensures InStep(P.BatcherApply(s, P.FlushOne(k)), keys + [k], pic)
  {
    var t := P.BatcherApply(s, P.FlushOne(k));
    assert t.log.batched == s.log.batched && t.batcher.open == s.batcher.open - {k};
    assert t.log.built == s.log.built + [P.Batch(|s.log.built|, k, s.batcher.open[k])];
    OpenNotEmpty(s, k);
    if SizesFit(s.log.batched) {
      B.FlushRunSnoc(B.LoopRun(RealAll(s.log.batched, pic)), keys, k);
      FlushIsBody(s.batcher.open, s.log.built, k, |s.log.built|, pic);
    }
  }

  lemma OpenNotEmpty(s: P.State, k: Key)
    requires BatchInv(s) && k in s.batcher.open
    ensures s.batcher.open[k] != []
  {
    assert KeyInv(s.log.batched, s.log.built, s.batcher.open, IsFlushing(s), k);
  }

  /** The key that a step flushes, if it does. */
  function FlushedBy(a: P.Action): seq<Key> {
    if a.OfBatcher? && a.ba.FlushOne? then [a.ba.k] else []
  }

  lemma InStepBatcher(s: P.State, ba: P.BatcherAct, keys: seq<Key>, pic: Gallery)
    requires Pictures(pic) && InStep(s, keys, pic) && BatchInv(s) && P.BatcherEnabled(s, ba)
    ensures InStep(P.BatcherApply(s, ba), keys + FlushedBy(P.OfBatcher(ba)), pic)
  {
    match ba
    case AddFrame =>
      InStepAdd(s, keys, pic);
      assert keys + [] == keys;
    case FlushOne(k) => InStepFlush(s, keys, k, pic);
    case _ =>
      InStepSame(s, P.BatcherApply(s, ba), keys, pic);
      assert keys + [] == keys;
  }

  /** Steps that keep what is batched, built and open. */
  lemma InStepSame(s: P.State, t: P.State, keys: seq<Key>, pic: Gallery)
    requires Pictures(pic) && InStep(s, keys, pic) && (IsFlushing(s) ==> IsFlushing(t))
    requires t.log.batched == s.log.batched && t.log.built == s.log.built && t.batcher.open == s.batcher.open
    ensures InStep(t, keys, pic)
  {
    assert VarsOf(t, pic) == VarsOf(s, pic);
  }

  lemma InStepStep(s: P.State, a: P.Action, keys: seq<Key>, pic: Gallery)
    requires Pictures(pic) && InStep(s, keys, pic) && BatchInv(s) && P.Enabled(s, a)
    ensures InStep(P.Apply(s, a), keys + FlushedBy(a), pic)
  {
    if a.OfBatcher? {
      InStepBatcher(s, a.ba, keys, pic);
    } else {
      OthersKeepBatcher(s, a);
      assert keys + [] == keys;
    }
  }

  lemma {:induction false} InStepRun(s: P.State, run: seq<P.Action>, keys: seq<Key>, pic: Gallery)
    returns (all: seq<Key>)
    requires Pictures(pic) && InStep(s, keys, pic) && BatchInv(s) && P.Possible(s, run)
    ensures InStep(P.After(s, run), all, pic)
    decreases |run|
  {
    all := keys;
    if run != [] {
      InStepStep(s, run[0], keys, pic);
      BatchStep(s, run[0]);
      all := InStepRun(P.Apply(s, run[0]), run[1..], keys + FlushedBy(run[0]), pic);
    }
  }

  /** Some order of flushing leads from the variables `v` to the batcher's; before the flush they are the same. */
  ghost predicate RanTheLoop(s: P.State, v: B.LoopVars, pic: Gallery)
    requires Pictures(pic)
  {
    && (exists keys :: B.FlushRun(v, keys) == VarsOf(s, pic))
    && (!IsFlushing(s) ==> v == VarsOf(s, pic))
  }

  /**
   * On every interleaving of all threads, the flush included: the batcher's open batches, and the batches it has
   * built in their order across all keys, are byte for byte those of the imperative loop on the frames it has
   * batched, followed by its flush of some of the keys in some order.
   */
  lemma BatcherRunsTheLoop(s: P.State, pic: Gallery)
    requires Reachable(s) && Pictures(pic) && SizesFit(s.log.batched)
    ensures RanTheLoop(s, B.LoopRun(RealAll(s.log.batched, pic)), pic)
  {
    var s0 :| P.Initial(s0) && P.Reaches(s0, s);
    var run :| P.Possible(s0, run) && P.After(s0, run) == s;
    InitialInv(s0);
    assert RealOpen(s0.batcher.open, pic) == map[];
    assert InStep(s0, [], pic);
    var keys := InStepRun(s0, run, [], pic);
    assert B.FlushRun(B.LoopRun(RealAll(s.log.batched, pic)), keys) == VarsOf(s, pic);
  }

  // ---------- What a consumer reads ----------

  ghost function RealChunks(cs: seq<seq<P.Frame>>, pic: Gallery): (r: seq<seq<B.Frame>>)
    requires Pictures(pic)
    ensures |r| == |cs| && B.ChunksAcceptable(r)
  {
    seq(|cs|, i requires 0 <= i < |cs| => RealAll(cs[i], pic))
  }

  lemma {:induction false} PushedForReal(bs: seq<P.Batch>, k: Key, pic: Gallery)
    requires Pictures(pic)
    ensures B.PushedFor(RealBatches(bs, pic), k) == B.BatchesOf(k, RealChunks(ChunksFor(bs, k), pic))
  {
    if bs != [] {
      PushedForReal(Init(bs), k, pic);
      assert Init(RealBatches(bs, pic)) == RealBatches(Init(bs), pic);
      if Last(bs).key == k {
        RealChunksSnoc(ChunksFor(Init(bs), k), Last(bs).frames, pic);
        B.BatchesOfSnoc(k, RealChunks(ChunksFor(Init(bs), k), pic), RealAll(Last(bs).frames, pic));
      } else {
        assert ChunksFor(bs, k) == ChunksFor(Init(bs), k);
      }
    }
  }

  lemma RealChunksSnoc(cs: seq<seq<P.Frame>>, c: seq<P.Frame>, pic: Gallery)
    requires Pictures(pic)
    ensures RealChunks(cs + [c], pic) == RealChunks(cs, pic) + [RealAll(c, pic)]
  {
  }

  lemma {:induction false} FlattenReal(cs: seq<seq<P.Frame>>, pic: Gallery)
    requires Pictures(pic)
    ensures Flatten(RealChunks(cs, pic)) == RealAll(Flatten(cs), pic)
  {
    if cs != [] {
      FlattenReal(Init(cs), pic);
      assert Init(RealChunks(cs, pic)) == RealChunks(Init(cs), pic);
      assert RealAll(Flatten(Init(cs)) + Last(cs), pic) == RealAll(Flatten(Init(cs)), pic) + RealAll(Last(cs), pic);
    }
  }

  /** What reading a key's batches one after the other gives. */
  ghost function ReadKey(bs: seq<P.Batch>, k: Key, pic: Gallery): Option<seq<Image>>
    requires Pictures(pic)
  {
    B.ParseBatches(B.PushedFor(RealBatches(bs, pic), k))
  }

  lemma ReadKeyIs(bs: seq<P.Batch>, k: Key, pic: Gallery)
    requires Pictures(pic)
    ensures ReadKey(bs, k, pic) == Some(B.Images(RealAll(Flatten(ChunksFor(bs, k)), pic)))
  {
    PushedForReal(bs, k, pic);
    B.ParseBatchesOf(k, RealChunks(ChunksFor(bs, k), pic));
    FlattenReal(ChunksFor(bs, k), pic);
  }

  /** The images of the frames of a key, as the live loops copy them. */
  ghost function ImagesOf(fs: seq<P.Frame>, pic: Gallery): (r: seq<Image>)
    requires Pictures(pic)
    ensures |r| == |fs|
  {
    B.Images(RealAll(fs, pic))
  }

  lemma ImagesPrefix(a: seq<P.Frame>, b: seq<P.Frame>, pic: Gallery)
    requires Pictures(pic) && a <= b
    ensures ImagesOf(a, pic) <= ImagesOf(b, pic)
  {
  }

  lemma {:induction false} FlattenPrefix(a: seq<seq<P.Frame>>, b: seq<seq<P.Frame>>)
    ensures Flatten(a) <= Flatten(a + b)
    decreases |b|
  {
    if b == [] {
      assert a + b == a;
    } else {
      FlattenPrefix(a, Init(b));
      assert a + b == (a + Init(b)) + [Last(b)];
      FlattenSnoc(a + Init(b), Last(b));
    }
  }

  lemma ChunksPrefix(pushed: seq<P.Batch>, more: seq<P.Batch>, k: Key)
    requires |more| <= 1
    ensures Flatten(ChunksFor(pushed, k)) <= Flatten(ChunksFor(pushed + more, k))
  {
    if more == [] {
      assert pushed + more == pushed;
    } else {
      assert pushed + more == pushed + [more[0]];
      ChunksForSnoc(pushed, more[0], k);
      FlattenPrefix(ChunksFor(pushed, k), [more[0].frames]);
    }
  }

  /** The frames in the batches built for a key are an initial part of those batched. */
  lemma BuiltIsInitial(s: P.State, k: Key)
    requires BatchInv(s)
    ensures Flatten(ChunksFor(s.log.built, k)) <= OfKey(s.log.batched, k)
  {
    assert KeyInv(s.log.batched, s.log.built, s.batcher.open, IsFlushing(s), k);
    var sub := OfKey(s.log.batched, k);
    GreedyIsGreedy(sub);
    ChunkedCoversAll(sub);
  }

  /**
   * On every interleaving: reading the batches pushed for a key in push order gives an initial part of the images of
   * the frames popped for it, in order, and all of them once the batcher has finished.
   */
  lemma KeyReadsBack(s: P.State, k: Key, pic: Gallery)
    requires Reachable(s) && Pictures(pic)
    ensures ReadKey(s.log.pushed, k, pic).Some?
    ensures ReadKey(s.log.pushed, k, pic).value <= ImagesOf(OfKey(s.log.procOut, k), pic)
    ensures s.batcher.phase == P.BatcherDone ==>
              ReadKey(s.log.pushed, k, pic).value == ImagesOf(OfKey(s.log.procOut, k), pic)
  {
    ReachableInv(s);
    ReadKeyIs(s.log.pushed, k, pic);
    BatchesAreGreedy(s, k);
    BuiltIsInitial(s, k);
    ChunksPrefix(s.log.pushed, AboutToPush(s.batcher.phase), k);
    OfKeyAppend(s.log.batched, InHand(s.batcher.phase), k);
    ImagesPrefix(Flatten(ChunksFor(s.log.pushed, k)), OfKey(s.log.procOut, k), pic);
  }

  /**
   * On every interleaving: a batch that is anywhere - queued, in a publisher's hands, acked, simulated, or dropped - is
   * one that the batcher pushed, and its bytes read back to exactly its frames.
   */
  lemma BatchReadsBack(s: P.State, x: P.Batch, pic: Gallery)
    requires Reachable(s) && Pictures(pic) && Places(s, x) > 0
    ensures x in s.log.pushed
    ensures RealBatch(x, pic).frameCount == |x.frames|
    ensures Parse(RealBatch(x, pic).data) == Some(ImagesOf(x.frames, pic))
  {
    BatchInOnePlace(s, x);
    RoundTrip(ImagesOf(x.frames, pic));
  }
}
