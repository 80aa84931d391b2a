/** The end-to-end statements about every reachable state of the process. */
module PipelineTheorems {
  import opened Sequences
  import opened Chunking
  import opened Pipeline
  import opened PipelineSafety
  import opened PipelineControl

  ghost predicate Inv(s: State) {
    QueueInv(s) && BatchInv(s) && PlaceInv(s) && BuiltInv(s) && ControlInv(s)
  }

  lemma {:induction false} NobodyHolds(ps: seq<Publisher>)
    requires forall i | 0 <= i < |ps| :: !ps[i].phase.Holding?
    ensures HeldByAll(ps) == []
  {
    if ps != [] {
      NobodyHolds(Init(ps));
    }
  }

  lemma InitialInv(s: State)
    requires Initial(s)
    ensures Inv(s)
  {
    NobodyHolds(s.publishers);
    assert BatchInv(s);
  }

  lemma InvStep(s: State, a: Action)
    requires Inv(s) && Enabled(s, a)
    ensures Inv(Apply(s, a))
  {
    QueueStep(s, a);
    BatchStep(s, a);
    PlaceStep(s, a);
    BuiltStep(s, a);
    ControlStep(s, a);
  }

  lemma {:induction false} InvRun(s: State, run: seq<Action>)
    requires Inv(s) && Possible(s, run)
    ensures Inv(After(s, run))
    decreases |run|
  {
    if run != [] {
      InvStep(s, run[0]);
      InvRun(Apply(s, run[0]), run[1..]);
    }
  }

  ghost predicate Reachable(s: State) {
    exists s0 :: Initial(s0) && Reaches(s0, s)
  }

  lemma ReachableInv(s: State)
    requires Reachable(s)
    ensures Inv(s)
  {
    var s0 :| Initial(s0) && Reaches(s0, s);
    var run :| Possible(s0, run) && After(s0, run) == s;
    InitialInv(s0);
    InvRun(s0, run);
  }

  // ---------- Batches ----------

  /**
   * Every accepted batch is in exactly one place; nothing else is in any place, so no re-queue duplicates or
   * alters a batch.
   */
  lemma BatchInOnePlace(s: State, x: Batch)
    requires Reachable(s)
    ensures Places(s, x) == if x in s.log.pushed then 1 else 0
    ensures x in s.log.pushed ==> x in s.log.built
    ensures !s.batches.stopped ==>
              Count(s.batches.items, x) + Count(HeldByAll(s.publishers), x)
              + Count(s.log.acked, x) + Count(s.log.simulated, x)
              == if x in s.log.pushed then 1 else 0
  {
    ReachableInv(s);
    forall i, j | 0 <= i < j < |s.log.pushed| ensures s.log.pushed[i] != s.log.pushed[j] {
      assert s.log.pushed[i] == s.log.built[i] && s.log.pushed[j] == s.log.built[j];
    }
    CountOnce(s.log.pushed, x);
    assert Count(s.log.pushed, x) == Places(s, x);
  }

  lemma AckedAtMostOnce(s: State, i: nat, j: nat)
    requires Reachable(s) && i < j < |s.log.acked|
    ensures s.log.acked[i] != s.log.acked[j]
  {
    if s.log.acked[i] == s.log.acked[j] {
      var x := s.log.acked[i];
      BatchInOnePlace(s, x);
      CountOut(s.log.acked, j, x);
      var rest := s.log.acked[..j] + s.log.acked[j + 1..];
      assert rest[i] == x;
      CountPositive(rest, x);
    }
  }

  // ---------- Frames ----------

  lemma CountInSplit(s: State, f: Frame)
    requires PlaceInv(s)
    ensures CountIn(s.log.pushed, f) ==
            CountIn(s.batches.items, f) + CountIn(HeldByAll(s.publishers), f)
            + CountIn(s.log.acked, f) + CountIn(s.log.simulated, f) + CountIn(s.log.requeueLost, f)
  {
    var a, b, c, d, e := s.batches.items, HeldByAll(s.publishers), s.log.acked, s.log.simulated, s.log.requeueLost;
    forall x ensures Count(s.log.pushed, x) == Count(a + b + c + d + e, x) {
      assert Count(s.log.pushed, x) == Places(s, x);
      CountAppend(a + b + c + d, e, x);
      CountAppend(a + b + c, d, x);
      CountAppend(a + b, c, x);
      CountAppend(a, b, x);
    }
    CountInSame(s.log.pushed, a + b + c + d + e, f);
    CountInAppend(a + b + c + d, e, f);
    CountInAppend(a + b + c, d, f);
    CountInAppend(a + b, c, f);
    CountInAppend(a, b, f);
  }

  /**
   * Conservation over every interleaving: each frame the processed queue accepted is, as often as it was
   * accepted, in that queue, in the batcher's hands, in an open batch, in a batch about to be pushed, in the
   * batch queue, in a publisher's hands, answered by Redis, consumed by a dry run, or in a batch dropped by a
   * re-queue after the batch queue stopped.
   */
  lemma FramesConserved(s: State, f: Frame)
    requires Reachable(s)
    ensures Count(s.log.procIn, f) ==
            Count(s.processed.items, f) + Count(InHand(s.batcher.phase), f)
            + CountOpen(s.batcher.open, f) + CountIn(AboutToPush(s.batcher.phase), f)
            + CountIn(s.batches.items, f) + CountIn(HeldByAll(s.publishers), f)
            + CountIn(s.log.acked, f) + CountIn(s.log.simulated, f) + CountIn(s.log.requeueLost, f)
    ensures !s.batches.stopped ==> s.log.requeueLost == []
  {
    ReachableInv(s);
    CountAppend(s.log.procOut, s.processed.items, f);
    CountAppend(s.log.batched, InHand(s.batcher.phase), f);
    assert Count(s.log.batched, f) == CountOpen(s.batcher.open, f) + CountIn(s.log.built, f);
    CountInAppend(s.log.pushed, AboutToPush(s.batcher.phase), f);
    CountInSplit(s, f);
  }

  // ---------- Batching under every interleaving ----------

  /**
   * The batches built for a key are the greedy chunks of what the batcher has taken of that key, in order; none is
   * ever dropped on push.
   */
  lemma BatchesAreGreedy(s: State, k: Key)
    requires Reachable(s)
    ensures s.log.pushLost == []
    ensures !IsFlushing(s) ==> ChunksFor(s.log.built, k) == Greedy(OfKey(s.log.batched, k)).closed
                               && OpenChunk(s.batcher.open, k) == Greedy(OfKey(s.log.batched, k)).open
    ensures s.batcher.phase == BatcherDone ==>
              && ChunksFor(s.log.pushed, k) == Chunked(OfKey(s.log.procOut, k))
              && Flatten(ChunksFor(s.log.pushed, k)) == OfKey(s.log.procOut, k)
  {
    ReachableInv(s);
    assert KeyInv(s.log.batched, s.log.built, s.batcher.open, IsFlushing(s), k);
    ChunkedCoversAll(OfKey(s.log.batched, k));
    assert s.log.pushed + [] == s.log.pushed;
    assert s.log.batched + [] == s.log.batched;
  }

  /**
   * When the process has shut down, every frame accepted for publishing is accounted for, and nothing is in
   * anyone's hands.
   */
  lemma FinalAccount(s: State, f: Frame)
    requires Reachable(s) && s.ctl == Finished
    ensures Count(s.log.procIn, f) ==
            Count(s.processed.items, f) + CountIn(s.batches.items, f)
            + CountIn(s.log.acked, f) + CountIn(s.log.simulated, f) + CountIn(s.log.requeueLost, f)
  {
    FramesConserved(s, f);
    ReachableInv(s);
    AllDoneAtEnd(s);
    NobodyHolds(s.publishers);
    NoOpenFrames(f);
  }

  lemma NoOpenFrames(f: Frame)
    ensures CountOpen(map[], f) == 0 && CountIn([], f) == 0 && Count([], f) == 0
  {
  }

  lemma AllDoneAtEnd(s: State)
    requires ControlInv(s) && BatchInv(s) && s.ctl == Finished
    ensures s.batcher.phase == BatcherDone && s.batcher.open == map[]
    ensures forall i | 0 <= i < |s.publishers| :: !s.publishers[i].phase.Holding?
  {
  }
}
