/**
 * What every interleaving keeps: order inside queues, greedy batching per key, and the whereabouts of every batch
 * and frame.
 */
module PipelineSafety {
  import opened Sequences
  import opened Chunking
  import opened Queues
  import opened Pipeline

  // ---------- Counting batches and frames ----------

  function HeldBy(p: Publisher): seq<Batch> {
    if p.phase.Holding? then [p.phase.held] else []
  }

  function HeldByAll(ps: seq<Publisher>): seq<Batch> {
    if ps == [] then [] else HeldByAll(Init(ps)) + HeldBy(Last(ps))
  }

  lemma {:induction false} HeldByUpdate(ps: seq<Publisher>, i: nat, p: Publisher, x: Batch)
    requires i < |ps|
    ensures Count(HeldByAll(ps[i := p]), x) + Count(HeldBy(ps[i]), x) == Count(HeldByAll(ps), x) + Count(HeldBy(p), x)
  {
    var qs := ps[i := p];
    HeldByLast(ps, x);
    HeldByLast(qs, x);
    if i == |ps| - 1 {
      assert Init(qs) == Init(ps);
    } else {
      assert Init(qs) == Init(ps)[i := p] && Last(qs) == Last(ps);
      HeldByUpdate(Init(ps), i, p, x);
    }
  }

  lemma HeldByLast(ps: seq<Publisher>, x: Batch)
    requires ps != []
    ensures Count(HeldByAll(ps), x) == Count(HeldByAll(Init(ps)), x) + Count(HeldBy(Last(ps)), x)
  {
    CountAppend(HeldByAll(Init(ps)), HeldBy(Last(ps)), x);
  }

  /** How often frame `f` occurs in the batches `bs`. */
  function CountIn(bs: seq<Batch>, f: Frame): nat {
    if bs == [] then 0 else CountIn(Init(bs), f) + Count(Last(bs).frames, f)
  }

  lemma CountInSnoc(bs: seq<Batch>, b: Batch, f: Frame)
    ensures CountIn(bs + [b], f) == CountIn(bs, f) + Count(b.frames, f)
  {
    assert Init(bs + [b]) == bs;
  }

  lemma {:induction false} CountInAppend(a: seq<Batch>, b: seq<Batch>, f: Frame)
    ensures CountIn(a + b, f) == CountIn(a, f) + CountIn(b, f)
    decreases |b|
  {
    if b == [] {
      assert a + b == a;
    } else {
      assert a + b == (a + Init(b)) + [Last(b)];
      CountInSnoc(a + Init(b), Last(b), f);
      CountInAppend(a, Init(b), f);
    }
  }

  lemma CountInOut(b: seq<Batch>, i: nat, f: Frame)
    requires i < |b|
    ensures CountIn(b, f) == CountIn(b[..i] + b[i + 1..], f) + Count(b[i].frames, f)
  {
    assert b == (b[..i] + [b[i]]) + b[i + 1..];
    CountInAppend(b[..i] + [b[i]], b[i + 1..], f);
    CountInSnoc(b[..i], b[i], f);
    CountInAppend(b[..i], b[i + 1..], f);
  }

  /** The frames in a collection of batches do not depend on the order of the batches. */
  lemma {:induction false} CountInSame(a: seq<Batch>, b: seq<Batch>, f: Frame)
    requires forall x :: Count(a, x) == Count(b, x)
    ensures CountIn(a, f) == CountIn(b, f)
    decreases |a|
  {
    if a == [] {
      if b != [] {
        CountPositive(b, b[0]);
      }
    } else {
      var x := Last(a);
      CountPositive(a, x);
      CountPositive(b, x);
      var i :| 0 <= i < |b| && b[i] == x;
      var rest := b[..i] + b[i + 1..];
      forall y ensures Count(Init(a), y) == Count(rest, y) {
        CountOut(b, i, y);
      }
      CountInSame(Init(a), rest, f);
      CountInOut(b, i, f);
    }
  }

  /** How often `f` occurs in the open batches. */
  ghost function CountOpen(open: map<Key, seq<Frame>>, f: Frame): nat
    decreases |open.Keys|
  {
    if open == map[] then 0
    else
      var k :| k in open;
      assert (open - {k}).Keys == open.Keys - {k};
      Count(open[k], f) + CountOpen(open - {k}, f)
  }

  lemma {:induction false} CountOpenSplit(open: map<Key, seq<Frame>>, k: Key, f: Frame)
    requires k in open
    ensures CountOpen(open, f) == Count(open[k], f) + CountOpen(open - {k}, f)
    decreases |open.Keys|
  {
    var j :| j in open && CountOpen(open, f) == Count(open[j], f) + CountOpen(open - {j}, f);
    if j != k {
      assert (open - {j}).Keys == open.Keys - {j};
      assert (open - {k}).Keys == open.Keys - {k};
      CountOpenSplit(open - {j}, k, f);
      CountOpenSplit(open - {k}, j, f);
      assert open - {j} - {k} == open - {k} - {j};
    }
  }

  lemma CountOpenSet(open: map<Key, seq<Frame>>, k: Key, chunk: seq<Frame>, f: Frame)
    ensures CountOpen(open[k := chunk], f) == Count(chunk, f) + CountOpen(open - {k}, f)
    ensures CountOpen(open, f) == Count(OpenChunk(open, k), f) + CountOpen(open - {k}, f)
  {
    CountOpenSplit(open[k := chunk], k, f);
    assert open[k := chunk] - {k} == open - {k};
    if k in open {
      CountOpenSplit(open, k, f);
    } else {
      assert open - {k} == open;
    }
  }

  /** Only the batcher's own steps touch its map, its phase and what it has built and pushed. */
  lemma OthersKeepBatcher(s: State, a: Action)
    requires Enabled(s, a) && !a.OfBatcher?
    ensures var t := Apply(s, a);
            && t.batcher.phase == s.batcher.phase && t.batcher.open == s.batcher.open
            && t.log.batched == s.log.batched && t.log.built == s.log.built
            && t.log.pushed == s.log.pushed && t.log.pushLost == s.log.pushLost && t.log.procOut == s.log.procOut
  {
    match a
    case OfStream(i, sa) => assert Apply(s, a) == StreamApply(s, i, sa);
    case OfWorker(i, wa) => assert Apply(s, a) == WorkerApply(s, i, wa);
    case OfPublisher(i, pa) => assert Apply(s, a) == PublisherApply(s, i, pa);
    case Control => assert Apply(s, a) == ControlApply(s);
    case _ =>
  }

  // ---------- The queues ----------

  function InHand(phase: BatcherPhase): seq<Frame> {
    if phase.Adding? then [phase.f] else []
  }

  /** Each queue delivers what it accepted, in order; the batcher holds at most the last frame it popped. */
  predicate QueueInv(s: State) {
    && s.log.decodeIn == s.log.decodeOut + s.decode.items
    && s.log.procIn == s.log.procOut + s.processed.items
    && s.log.procOut == s.log.batched + InHand(s.batcher.phase)
  }

  lemma PopSplit<T>(q: Queue<T>)
    requires q.items != []
    ensures q.items == [q.items[0]] + PopFrom(q).items
  {
  }

  lemma QueueStream(s: State, i: nat, sa: StreamAct)
    requires QueueInv(s) && StreamEnabled(s, i, sa)
    ensures QueueInv(StreamApply(s, i, sa))
  {
  }

  lemma QueueWorker(s: State, i: nat, wa: WorkerAct)
    requires QueueInv(s) && WorkerEnabled(s, i, wa)
    ensures QueueInv(WorkerApply(s, i, wa))
  {
    if wa.WorkerPop? {
      PopSplit(s.decode);
    }
  }

  lemma QueueBatcher(s: State, ba: BatcherAct)
    requires QueueInv(s) && BatcherEnabled(s, ba)
    ensures QueueInv(BatcherApply(s, ba))
  {
    if ba.BatcherPop? {
      PopSplit(s.processed);
    }
  }

  lemma QueueStep(s: State, a: Action)
    requires QueueInv(s) && Enabled(s, a)
    ensures QueueInv(Apply(s, a))
  {
    match a
    case OfStream(i, sa) => QueueStream(s, i, sa);
    case OfWorker(i, wa) => QueueWorker(s, i, wa);
    case OfBatcher(ba) => QueueBatcher(s, ba);
    case _ =>
  }

  // ---------- Batching ----------

  /** The chunks built for a key, in building order. */
  function ChunksFor(bs: seq<Batch>, k: Key): seq<seq<Frame>> {
    if bs == [] then [] else ChunksFor(Init(bs), k) + (if Last(bs).key == k then [Last(bs).frames] else [])
  }

  lemma ChunksForSnoc(bs: seq<Batch>, b: Batch, k: Key)
    ensures ChunksFor(bs + [b], k) == if b.key == k then ChunksFor(bs, k) + [b.frames] else ChunksFor(bs, k)
  {
    assert Init(bs + [b]) == bs;
  }

  predicate IsFlushing(s: State) {
    s.batcher.phase == Flushing || s.batcher.phase == BatcherDone
  }

  ghost predicate KeyInv(batched: seq<Frame>, built: seq<Batch>, open: map<Key, seq<Frame>>, flushing: bool, k: Key) {
    var g := Greedy(OfKey(batched, k));
    if k in open then
      open[k] == g.open && g.open != [] && ChunksFor(built, k) == g.closed
    else
      ChunksFor(built, k) == Chunked(OfKey(batched, k)) && (!flushing ==> g.open == [])
  }

  ghost predicate BatchInv(s: State) {
    && (forall k :: KeyInv(s.log.batched, s.log.built, s.batcher.open, IsFlushing(s), k))
    && (s.batcher.phase == BatcherDone ==> s.batcher.open == map[])
  }

  lemma KeyAdd(batched: seq<Frame>, built: seq<Batch>, open: map<Key, seq<Frame>>, f: Frame, no: nat, k: Key)
    requires KeyInv(batched, built, open, false, k) && KeyInv(batched, built, open, false, f.key)
    ensures var chunk := OpenChunk(open, f.key) + [f];
            if |chunk| >= f.batchSize
            then KeyInv(batched + [f], built + [Batch(no, f.key, chunk)], open - {f.key}, false, k)
            else KeyInv(batched + [f], built, open[f.key := chunk], false, k)
  {
    var chunk := OpenChunk(open, f.key) + [f];
    OfKeySnoc(batched, f, k);
    ChunksForSnoc(built, Batch(no, f.key, chunk), k);
    if k == f.key {
      GreedySnoc(OfKey(batched, k), f);
      assert OpenChunk(open, k) == Greedy(OfKey(batched, k)).open;
    }
  }

  lemma AddStep(s: State, k: Key)
    requires BatchInv(s) && s.batcher.phase.Adding?
    ensures var t := BatcherApply(s, AddFrame); KeyInv(t.log.batched, t.log.built, t.batcher.open, false, k)
  {
    var f := s.batcher.phase.f;
    assert KeyInv(s.log.batched, s.log.built, s.batcher.open, IsFlushing(s), k);
    assert KeyInv(s.log.batched, s.log.built, s.batcher.open, IsFlushing(s), f.key);
    KeyAdd(s.log.batched, s.log.built, s.batcher.open, f, |s.log.built|, k);
  }

  lemma KeyFlush(batched: seq<Frame>, built: seq<Batch>, open: map<Key, seq<Frame>>, key: Key, no: nat, k: Key)
    requires KeyInv(batched, built, open, true, k) && key in open
    ensures KeyInv(batched, built + [Batch(no, key, open[key])], open - {key}, true, k)
  {
    ChunksForSnoc(built, Batch(no, key, open[key]), k);
  }

  lemma FlushStep(s: State, key: Key, k: Key)
    requires BatchInv(s) && s.batcher.phase == Flushing && key in s.batcher.open
    ensures var t := BatcherApply(s, FlushOne(key)); KeyInv(t.log.batched, t.log.built, t.batcher.open, true, k)
  {
    assert KeyInv(s.log.batched, s.log.built, s.batcher.open, IsFlushing(s), k);
    KeyFlush(s.log.batched, s.log.built, s.batcher.open, key, |s.log.built|, k);
  }

  lemma BatchStep(s: State, a: Action)
    requires BatchInv(s) && Enabled(s, a)
    ensures BatchInv(Apply(s, a))
  {
    if a.OfBatcher? {
      BatchBatcher(s, a.ba);
    } else {
      OthersKeepBatcher(s, a);
      BatchSame(s, Apply(s, a));
    }
  }

  /** Steps that keep what is batched, built and open; the flush begins with everything in the map. */
  lemma BatchSame(s: State, t: State)
    requires BatchInv(s) && t.log.batched == s.log.batched && t.log.built == s.log.built
    requires t.batcher.open == s.batcher.open && (IsFlushing(s) ==> IsFlushing(t))
    requires t.batcher.phase == BatcherDone ==> t.batcher.open == map[]
    ensures BatchInv(t)
  {
    forall k ensures KeyInv(t.log.batched, t.log.built, t.batcher.open, IsFlushing(t), k) {
      assert KeyInv(s.log.batched, s.log.built, s.batcher.open, IsFlushing(s), k);
    }
  }

  lemma BatchBatcher(s: State, ba: BatcherAct)
    requires BatchInv(s) && BatcherEnabled(s, ba)
    ensures BatchInv(BatcherApply(s, ba))
  {
    var t := BatcherApply(s, ba);
    match ba
    case AddFrame =>
      forall k ensures KeyInv(t.log.batched, t.log.built, t.batcher.open, IsFlushing(t), k) {
        AddStep(s, k);
      }
    case FlushOne(key) =>
      forall k ensures KeyInv(t.log.batched, t.log.built, t.batcher.open, IsFlushing(t), k) {
        FlushStep(s, key, k);
      }
    case _ => BatchSame(s, t);
  }

  // ---------- Whereabouts ----------

  /** In how many places a batch that entered the batch queue is. */
  function Places(s: State, x: Batch): nat {
    Count(s.batches.items, x) + Count(HeldByAll(s.publishers), x)
    + Count(s.log.acked, x) + Count(s.log.simulated, x) + Count(s.log.requeueLost, x)
  }

  /** Accepted batches are all somewhere, each once; none is lost before the batch queue stops. */
  ghost predicate PlaceInv(s: State) {
    && (forall x :: Count(s.log.pushed, x) == Places(s, x))
    && (!s.batches.stopped ==> s.log.requeueLost == [])
  }

  lemma CountHeldBy(p: Publisher, x: Batch)
    ensures Count(HeldBy(p), x) == if p.phase.Holding? && p.phase.held == x then 1 else 0
  {
    if p.phase.Holding? {
      CountSnoc([], p.phase.held, x);
      assert [] + [p.phase.held] == [p.phase.held];
    }
  }

  lemma PlacesPublisher(s: State, i: nat, pa: PublisherAct, x: Batch)
    requires PublisherEnabled(s, i, pa)
    ensures Places(PublisherApply(s, i, pa), x) == Places(s, x)
  {
    var t := PublisherApply(s, i, pa);
    HeldByUpdate(s.publishers, i, t.publishers[i], x);
    CountHeldBy(s.publishers[i], x);
    CountHeldBy(t.publishers[i], x);
    match pa
    case PublisherPop => CountFront(s.batches.items, x);
    case Attempt(_, _) =>
      var b := s.publishers[i].phase.held;
      CountSnoc(s.batches.items, b, x);
      CountSnoc(s.log.acked, b, x);
      CountSnoc(s.log.simulated, b, x);
      CountSnoc(s.log.requeueLost, b, x);
    case _ =>
  }

  lemma PlacePublisher(s: State, i: nat, pa: PublisherAct)
    requires PlaceInv(s) && PublisherEnabled(s, i, pa)
    ensures PlaceInv(PublisherApply(s, i, pa))
  {
    var t := PublisherApply(s, i, pa);
    forall x ensures Count(t.log.pushed, x) == Places(t, x) {
      PlacesPublisher(s, i, pa, x);
    }
  }

  lemma PlacePush(s: State, b: Batch)
    requires PlaceInv(s)
    ensures PlaceInv(PushBatch(s, b))
  {
    var t := PushBatch(s, b);
    forall x ensures Count(t.log.pushed, x) == Places(t, x) {
      CountSnoc(s.log.pushed, b, x);
      CountSnoc(s.batches.items, b, x);
    }
  }

  /** Nothing a batch's place depends on. */
  predicate SamePlaces(s: State, t: State) {
    && t.batches == s.batches && HeldByAll(t.publishers) == HeldByAll(s.publishers)
    && t.log.pushed == s.log.pushed && t.log.acked == s.log.acked
    && t.log.simulated == s.log.simulated && t.log.requeueLost == s.log.requeueLost
  }

  lemma PlaceSame(s: State, t: State)
    requires PlaceInv(s) && SamePlaces(s, t)
    ensures PlaceInv(t)
  {
    forall x ensures Count(t.log.pushed, x) == Places(t, x) {
      assert Count(s.log.pushed, x) == Places(s, x);
    }
  }

  lemma PlaceBatcher(s: State, ba: BatcherAct)
    requires PlaceInv(s) && BatcherEnabled(s, ba)
    ensures PlaceInv(BatcherApply(s, ba))
  {
    match ba
    case PushFull =>
      var u := s.(batcher := s.batcher.(phase := BatcherHead));
      PlaceSame(s, u);
      PlacePush(u, s.batcher.phase.b);
    case FlushOne(k) =>
      var b := Batch(|s.log.built|, k, s.batcher.open[k]);
      var u := s.(batcher := s.batcher.(open := s.batcher.open - {k}), log := s.log.(built := s.log.built + [b]));
      PlaceSame(s, u);
      PlacePush(u, b);
    case _ =>
      PlaceSame(s, BatcherApply(s, ba));
  }

  lemma {:induction false} HeldByStop(ps: seq<Publisher>, i: nat)
    requires i < |ps|
    ensures HeldByAll(ps[i := ps[i].(stop := true)]) == HeldByAll(ps)
  {
    var qs := ps[i := ps[i].(stop := true)];
    if i == |ps| - 1 {
      assert Init(qs) == Init(ps);
    } else {
      assert Init(qs) == Init(ps)[i := ps[i].(stop := true)] && Last(qs) == Last(ps);
      HeldByStop(Init(ps), i);
    }
  }

  lemma PlaceControl(s: State)
    requires PlaceInv(s) && ControlEnabled(s)
    ensures PlaceInv(ControlApply(s))
  {
    var t := ControlApply(s);
    if s.ctl.JoinPublishers? && !s.ctl.asked && s.ctl.i < |s.publishers| {
      HeldByStop(s.publishers, s.ctl.i);
    }
    PlaceSame(s.(batches := t.batches), t);
  }

  lemma PlaceStep(s: State, a: Action)
    requires PlaceInv(s) && Enabled(s, a)
    ensures PlaceInv(Apply(s, a))
  {
    match a
    case OfPublisher(i, pa) => PlacePublisher(s, i, pa);
    case OfBatcher(ba) => PlaceBatcher(s, ba);
    case Control => PlaceControl(s);
    case OfStream(i, sa) => PlaceSame(s, StreamApply(s, i, sa));
    case OfWorker(i, wa) => PlaceSame(s, WorkerApply(s, i, wa));
    case SpawnStream => PlaceSame(s, Apply(s, a));
    case AskStream(_) => PlaceSame(s, Apply(s, a));
  }

  // ---------- From the batcher to the batch queue ----------

  function AboutToPush(phase: BatcherPhase): seq<Batch> {
    if phase.Pushing? then [phase.b] else []
  }

  predicate NumberedInOrder(s: State) {
    && (forall i | 0 <= i < |s.log.built| :: s.log.built[i].no == i)
    && (s.log.pushLost == [] ==> s.log.built == s.log.pushed + AboutToPush(s.batcher.phase))
  }

  /** Batches are numbered as built and pushed in that order; the frames batched are those built and those open. */
  ghost predicate BuiltInv(s: State) {
    && NumberedInOrder(s)
    && (forall f :: Count(s.log.batched, f) == CountOpen(s.batcher.open, f) + CountIn(s.log.built, f))
  }

  /** The frame has joined its chunk, which stays open or has become the batch `b`. */
  predicate Joined(s: State, t: State, f: Frame, b: Batch) {
    && t.log.batched == s.log.batched + [f] && b == Batch(|s.log.built|, f.key, OpenChunk(s.batcher.open, f.key) + [f])
    && ((t.batcher.open == s.batcher.open - {f.key} && t.log.built == s.log.built + [b])
        || (t.batcher.open == s.batcher.open[f.key := b.frames] && t.log.built == s.log.built))
  }

  lemma BuiltAdd(s: State)
    requires BuiltInv(s) && s.batcher.phase.Adding?
    ensures BuiltInv(BatcherApply(s, AddFrame))
  {
    var f, t := s.batcher.phase.f, BatcherApply(s, AddFrame);
    var b := Batch(|s.log.built|, f.key, OpenChunk(s.batcher.open, f.key) + [f]);
    assert Joined(s, t, f, b);
    forall x ensures Count(t.log.batched, x) == CountOpen(t.batcher.open, x) + CountIn(t.log.built, x) {
      assert Count(s.log.batched, x) == CountOpen(s.batcher.open, x) + CountIn(s.log.built, x);
      JoinedAccount(s, t, f, b, x);
    }
    AddFrameNumbers(s);
  }

  lemma AddFrameNumbers(s: State)
    requires NumberedInOrder(s) && s.batcher.phase.Adding?
    ensures NumberedInOrder(BatcherApply(s, AddFrame))
  {
  }

  lemma JoinedAccount(s: State, t: State, f: Frame, b: Batch, x: Frame)
    requires Joined(s, t, f, b)
    requires Count(s.log.batched, x) == CountOpen(s.batcher.open, x) + CountIn(s.log.built, x)
    ensures Count(t.log.batched, x) == CountOpen(t.batcher.open, x) + CountIn(t.log.built, x)
  {
    CountOpenSet(s.batcher.open, f.key, b.frames, x);
    CountSnoc(s.log.batched, f, x);
    CountSnoc(OpenChunk(s.batcher.open, f.key), f, x);
    CountInSnoc(s.log.built, b, x);
  }

  lemma BuiltFlush(s: State, k: Key)
    requires BuiltInv(s) && s.batcher.phase == Flushing && k in s.batcher.open
    ensures BuiltInv(BatcherApply(s, FlushOne(k)))
  {
    var t := BatcherApply(s, FlushOne(k));
    forall x ensures Count(t.log.batched, x) == CountOpen(t.batcher.open, x) + CountIn(t.log.built, x) {
      CountOpenSplit(s.batcher.open, k, x);
      CountInSnoc(s.log.built, Batch(|s.log.built|, k, s.batcher.open[k]), x);
    }
  }

  lemma BuiltBatcher(s: State, ba: BatcherAct)
    requires BuiltInv(s) && BatcherEnabled(s, ba)
    ensures BuiltInv(BatcherApply(s, ba))
  {
    match ba
    case AddFrame => BuiltAdd(s);
    case FlushOne(k) => BuiltFlush(s, k);
    case _ => BuiltSame(s, BatcherApply(s, ba));
  }

  lemma BuiltSame(s: State, t: State)
    requires BuiltInv(s)
    requires t.log.batched == s.log.batched && t.log.built == s.log.built && t.batcher.open == s.batcher.open
    requires t.log.pushLost == [] ==>
               && s.log.pushLost == []
               && t.log.pushed + AboutToPush(t.batcher.phase) == s.log.pushed + AboutToPush(s.batcher.phase)
    ensures BuiltInv(t)
  {
    forall f ensures Count(t.log.batched, f) == CountOpen(t.batcher.open, f) + CountIn(t.log.built, f) {
      assert Count(s.log.batched, f) == CountOpen(s.batcher.open, f) + CountIn(s.log.built, f);
    }
  }

  lemma BuiltStep(s: State, a: Action)
    requires BuiltInv(s) && Enabled(s, a)
    ensures BuiltInv(Apply(s, a))
  {
    match a
    case OfBatcher(ba) => BuiltBatcher(s, ba);
    case _ =>
      OthersKeepBatcher(s, a);
      BuiltSame(s, Apply(s, a));
  }
}
