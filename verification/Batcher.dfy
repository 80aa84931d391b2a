/** The batcher thread: an open batch per key, grown frame by frame and pushed when full; the rest flushed on exit. */
module Batcher {
  import opened Options
  import opened Sequences
  import opened Chunking
  import opened Widths
  import opened FrameFormat
  import opened Blob
  import Queues

  type Frame = Item<AvFrame>

  /** `frame_count` and `data_buffer` grow together. */
  datatype FrameBatch = FrameBatch(streamId: int, eventName: string, frameCount: int, data: seq<byte>)

  /** Batch sizes are C++ `int`s, and so are a frame's dimensions and strides. */
  ghost predicate Acceptable(f: Frame) {
    Typed(f.payload) && IsInt32(f.batchSize)
  }

  ghost predicate AllAcceptable(fs: seq<Frame>) {
    forall i | 0 <= i < |fs| :: Acceptable(fs[i])
  }

  ghost function Images(fs: seq<Frame>): (r: seq<Image>)
    requires AllAcceptable(fs)
    ensures |r| == |fs| && AllValid(r) && forall i | 0 <= i < |fs| :: r[i] == LiveImage(fs[i].payload)
  {
    seq(|fs|, i requires 0 <= i < |fs| => LiveImage(fs[i].payload))
  }

  /** The batch that holds exactly `chunk`. */
  ghost function BatchOf(k: Key, chunk: seq<Frame>): FrameBatch
    requires AllAcceptable(chunk)
  {
    FrameBatch(k.streamId, k.eventName, |chunk|, EncodeAll(Images(chunk)))
  }

  ghost predicate ChunksAcceptable(cs: seq<seq<Frame>>) {
    forall i | 0 <= i < |cs| :: AllAcceptable(cs[i])
  }

  ghost function BatchesOf(k: Key, cs: seq<seq<Frame>>): seq<FrameBatch>
    requires ChunksAcceptable(cs)
  {
    seq(|cs|, i requires 0 <= i < |cs| => BatchOf(k, cs[i]))
  }

  function KeyOf(b: FrameBatch): Key {
    Key(b.streamId, b.eventName)
  }

  /** The batches of one key among those pushed, in push order. */
  ghost function PushedFor(bs: seq<FrameBatch>, k: Key): seq<FrameBatch> {
    if bs == [] then []
    else PushedFor(Init(bs), k) + (if KeyOf(Last(bs)) == k then [Last(bs)] else [])
  }

  lemma PushedForSnoc(bs: seq<FrameBatch>, b: FrameBatch, k: Key)
    ensures PushedFor(bs + [b], k) == if KeyOf(b) == k then PushedFor(bs, k) + [b] else PushedFor(bs, k)
  {
    assert Init(bs + [b]) == bs;
  }

  /** Only acceptable frames in, only acceptable chunks out. */
  lemma {:induction false} GreedyAcceptable(s: seq<Frame>)
    requires AllAcceptable(s)
    ensures ChunksAcceptable(Greedy(s).closed) && AllAcceptable(Greedy(s).open)
  {
    if s != [] {
      GreedyAcceptable(Init(s));
    }
  }

  lemma OfKeyAcceptable(s: seq<Frame>, k: Key)
    requires AllAcceptable(s)
    ensures AllAcceptable(OfKey(s, k))
    ensures ChunksAcceptable(Greedy(OfKey(s, k)).closed) && AllAcceptable(Greedy(OfKey(s, k)).open)
  {
    OfKeyAll(s, k);
    GreedyAcceptable(OfKey(s, k));
  }

  /** An open chunk is shorter than some `int`, so the 32-bit frame count never overflows. */
  lemma OpenIsShort(s: seq<Frame>)
    requires AllAcceptable(s)
    ensures |Greedy(s).open| < TWO_31 - 1
  {
    GreedyIsGreedy(s);
    GreedyAcceptable(s);
    var o := Greedy(s).open;
    if o != [] {
      assert |o| - 1 + 1 < o[|o| - 1].batchSize;
    }
  }

  lemma BatchOfSnoc(k: Key, chunk: seq<Frame>, f: Frame)
    requires AllAcceptable(chunk) && Acceptable(f)
    ensures BatchOf(k, chunk + [f]) ==
            FrameBatch(k.streamId, k.eventName, |chunk| + 1, BatchOf(k, chunk).data + Encode(LiveImage(f.payload)))
  {
    assert Images(chunk + [f]) == Images(chunk) + [LiveImage(f.payload)];
    EncodeAllSnoc(Images(chunk), LiveImage(f.payload));
  }

  /** The buffer starts with `done`, and is zero behind it, as a buffer just grown is. */
  ghost predicate Filled(buffer: seq<byte>, done: seq<byte>) {
    done <= buffer && forall j | |done| <= j < |buffer| :: buffer[j] == 0
  }

  lemma FilledUp(buffer: seq<byte>, done: seq<byte>)
    requires Filled(buffer, done) && |buffer| == |done|
    ensures buffer == done
  {
  }

  lemma FilledMore(before: seq<byte>, after: seq<byte>, done: seq<byte>, bytes: seq<byte>)
    requires Filled(before, done) && |after| == |before| && |done| + |bytes| <= |before|
    requires forall j | 0 <= j < |before| && !(|done| <= j < |done| + |bytes|) :: after[j] == before[j]
    requires after[|done|..|done| + |bytes|] == bytes
    ensures Filled(after, done + bytes)
  {
  }

  method WriteBytes(buffer: array<byte>, bytes: seq<byte>, dest: nat, ghost done: seq<byte>)
    requires Filled(buffer[..], done) && dest == |done| && dest + |bytes| <= buffer.Length
    modifies buffer
    ensures Filled(buffer[..], done + bytes)
  {
    ghost var before := buffer[..];
    forall k | 0 <= k < |bytes| {
      buffer[dest + k] := bytes[k];
    }
    FilledMore(before, buffer[..], done, bytes);
  }

  /** Writes a plane of `n` bytes at `dest` with the live copy loop. */
  method WritePlane(buffer: array<byte>, p: Plane, w: nat, h: nat, dest: nat, ghost n: nat, ghost done: seq<byte>)
    requires Sized(p, w, h) && Filled(buffer[..], done) && dest == |done|
    requires n == RowStart(h, w) && dest + n <= buffer.Length
    modifies buffer
    ensures Filled(buffer[..], done + Live(p, w, h))
  {
    ghost var before := buffer[..];
    assert buffer[dest..dest + n] == Zeros(n);
    CopyRows32(buffer, dest, p, w, h, n);
    FilledMore(before, buffer[..], done, Live(p, w, h));
  }

  /** The bytes `memcpy` takes from the packed header struct. */
  method MakeHeader(frame: AvFrame) returns (header: seq<byte>)
    requires Typed(frame)
    ensures |header| == HEADER_BYTES && header == Header(LiveImage(frame))
  {
    header := ToLe(ToU64(frame.pts), 8) + ToLe(frame.width, 4) + ToLe(frame.height, 4);
  }

  lemma EntryParts(frame: AvFrame, header: seq<byte>, data: seq<byte>)
    requires Typed(frame) && header == Header(LiveImage(frame))
    ensures data + header + Live(frame.y, frame.width, frame.height)
            + Live(frame.u, frame.width / 2, frame.height / 2) + Live(frame.v, frame.width / 2, frame.height / 2)
         == data + Encode(LiveImage(frame))
  {
    var img := LiveImage(frame);
    assert data + header + img.y + img.u + img.v == data + (header + img.y + img.u + img.v);
  }

  method Sizes(w: nat, h: nat) returns (y: nat, c: nat)
    ensures y == RowStart(h, w) && c == RowStart(h / 2, w / 2)
  {
    PlaneSizes(w, h);
    y, c := w * h, (w / 2) * (h / 2);
  }

  /** Grows the buffer by one entry and serializes the frame into it. */
  method AppendEntry(data: seq<byte>, frame: AvFrame) returns (grown: seq<byte>)
    requires Typed(frame)
    ensures grown == data + Encode(LiveImage(frame))
  {
    var w, h := frame.width, frame.height;
    var header := MakeHeader(frame);
    var y, c := Sizes(w, h);
    var dest := |data|;
    var buffer := new byte[dest + |header| + y + c + c](_ => 0);
    WriteBytes(buffer, data, 0, []);
    ghost var done := data;
    assert [] + data == data;
    WriteBytes(buffer, header, dest, done);
    dest, done := dest + |header|, done + header;
    WritePlane(buffer, frame.y, w, h, dest, y, done);
    dest, done := dest + y, done + Live(frame.y, w, h);
    WritePlane(buffer, frame.u, w / 2, h / 2, dest, c, done);
    dest, done := dest + c, done + Live(frame.u, w / 2, h / 2);
    WritePlane(buffer, frame.v, w / 2, h / 2, dest, c, done);
    FilledUp(buffer[..], done + Live(frame.v, w / 2, h / 2));
    grown := buffer[..];
    EntryParts(frame, header, data);
  }

  // ---------- The loop ----------

  /**
   * After the frames `fs`, key `k` has had pushed exactly its closed greedy chunks, and its open chunk is its open
   * batch.
   */
  ghost predicate KeyState(fs: seq<Frame>, k: Key, open: map<Key, FrameBatch>, pushed: seq<FrameBatch>)
    requires AllAcceptable(fs)
  {
    OfKeyAcceptable(fs, k);
    var g := Greedy(OfKey(fs, k));
    && PushedFor(pushed, k) == BatchesOf(k, g.closed)
    && (k in open <==> g.open != [])
    && (k in open ==> open[k] == BatchOf(k, g.open))
  }

  ghost predicate LoopState(fs: seq<Frame>, open: map<Key, FrameBatch>, pushed: seq<FrameBatch>)
    requires AllAcceptable(fs)
  {
    forall k :: KeyState(fs, k, open, pushed)
  }

  function NewBatch(k: Key): FrameBatch {
    FrameBatch(k.streamId, k.eventName, 0, [])
  }

  /** The batch the loop body ends up with for a frame. */
  ghost function Grown(open: map<Key, FrameBatch>, f: Frame): FrameBatch
    requires Acceptable(f)
  {
    var b := if f.key in open then open[f.key] else NewBatch(f.key);
    b.(frameCount := b.frameCount + 1, data := b.data + Encode(LiveImage(f.payload)))
  }

  lemma GrownIs(fs: seq<Frame>, open: map<Key, FrameBatch>, pushed: seq<FrameBatch>, f: Frame)
    requires AllAcceptable(fs) && Acceptable(f) && KeyState(fs, f.key, open, pushed)
    ensures var o := Greedy(OfKey(fs, f.key)).open + [f];
            AllAcceptable(o) && Grown(open, f) == BatchOf(f.key, o) && 0 < Grown(open, f).frameCount < TWO_31
  {
    OfKeyAcceptable(fs, f.key);
    var g := Greedy(OfKey(fs, f.key));
    OpenIsShort(OfKey(fs, f.key));
    BatchOfSnoc(f.key, g.open, f);
    if g.open == [] {
      assert BatchOf(f.key, g.open) == NewBatch(f.key);
    }
  }

  /** What the loop works on: the map of open batches and what it has pushed. */
  datatype LoopVars = LoopVars(open: map<Key, FrameBatch>, pushed: seq<FrameBatch>)

  /** The loop body on them. */
  ghost function Body(v: LoopVars, f: Frame): LoopVars
    requires Acceptable(f)
  {
    var b := Grown(v.open, f);
    if b.frameCount >= f.batchSize then LoopVars(v.open - {f.key}, v.pushed + [b])
    else LoopVars(v.open[f.key := b], v.pushed)
  }

  /** The loop after these frames. */
  ghost function LoopRun(fs: seq<Frame>): LoopVars
    requires AllAcceptable(fs)
  {
    if fs == [] then LoopVars(map[], []) else Body(LoopRun(Init(fs)), Last(fs))
  }

  lemma LoopRunSnoc(fs: seq<Frame>, f: Frame)
    requires AllAcceptable(fs) && Acceptable(f)
    ensures AllAcceptable(fs + [f]) && LoopRun(fs + [f]) == Body(LoopRun(fs), f)
  {
    assert Init(fs + [f]) == fs;
  }

  lemma LoopRunNext(fs: seq<Frame>, i: nat)
    requires AllAcceptable(fs) && i < |fs|
    ensures LoopRun(fs[..i + 1]) == Body(LoopRun(fs[..i]), fs[i])
  {
    assert fs[..i] + [fs[i]] == fs[..i + 1];
    LoopRunSnoc(fs[..i], fs[i]);
  }

  /**
   * After any frames, every key has had pushed exactly its closed greedy chunks, its open chunk being its open
   * batch.
   */
  lemma {:induction false} LoopRunIsGreedy(fs: seq<Frame>)
    requires AllAcceptable(fs)
    ensures LoopState(fs, LoopRun(fs).open, LoopRun(fs).pushed)
  {
    if fs != [] {
      var before := LoopRun(Init(fs));
      LoopRunIsGreedy(Init(fs));
      assert Init(fs) + [Last(fs)] == fs;
      LoopStep(Init(fs), before.open, before.pushed, Last(fs), LoopRun(fs).open, LoopRun(fs).pushed);
    }
  }

  /** One frame later, for every key. */
  lemma LoopStep(fs: seq<Frame>, open: map<Key, FrameBatch>, pushed: seq<FrameBatch>, f: Frame,
                 open': map<Key, FrameBatch>, pushed': seq<FrameBatch>)
    requires AllAcceptable(fs) && Acceptable(f) && LoopState(fs, open, pushed)
    requires var b := Grown(open, f);
             if b.frameCount >= f.batchSize
             then open' == open - {f.key} && pushed' == pushed + [b]
             else open' == open[f.key := b] && pushed' == pushed
    ensures AllAcceptable(fs + [f]) && LoopState(fs + [f], open', pushed')
  {
    forall k ensures KeyState(fs + [f], k, open', pushed') {
      assert KeyState(fs, k, open, pushed);
      if k == f.key {
        StepSameKey(fs, open, pushed, f, open', pushed');
      } else {
        OfKeySnoc(fs, f, k);
        if pushed' != pushed {
          GrownIs(fs, open, pushed, f);
          PushedForSnoc(pushed, Grown(open, f), k);
        }
      }
    }
  }

  lemma StepSameKey(fs: seq<Frame>, open: map<Key, FrameBatch>, pushed: seq<FrameBatch>, f: Frame,
                    open': map<Key, FrameBatch>, pushed': seq<FrameBatch>)
    requires AllAcceptable(fs) && Acceptable(f) && KeyState(fs, f.key, open, pushed) && AllAcceptable(fs + [f])
    requires var b := Grown(open, f);
             if b.frameCount >= f.batchSize
             then open' == open - {f.key} && pushed' == pushed + [b]
             else open' == open[f.key := b] && pushed' == pushed
    ensures KeyState(fs + [f], f.key, open', pushed')
  {
    var k := f.key;
    OfKeySnoc(fs, f, k);
    GreedySnoc(OfKey(fs, k), f);
    GrownIs(fs, open, pushed, f);
    OfKeyAcceptable(fs, k);
    OfKeyAcceptable(fs + [f], k);
    ChunkStep(k, Greedy(OfKey(fs, k)), f, Greedy(OfKey(fs + [f], k)), pushed, Grown(open, f), open', pushed');
  }

  lemma BatchesOfSnoc(k: Key, cs: seq<seq<Frame>>, c: seq<Frame>)
    requires ChunksAcceptable(cs) && AllAcceptable(c)
    ensures BatchesOf(k, cs + [c]) == BatchesOf(k, cs) + [BatchOf(k, c)]
  {
  }

  lemma ChunkStep(k: Key, g: Chunks<AvFrame>, f: Frame, g': Chunks<AvFrame>, pushed: seq<FrameBatch>, b: FrameBatch,
                  open': map<Key, FrameBatch>, pushed': seq<FrameBatch>)
    requires ChunksAcceptable(g.closed) && AllAcceptable(g.open + [f]) && g' == Add(g, f)
    requires ChunksAcceptable(g'.closed) && AllAcceptable(g'.open)
    requires PushedFor(pushed, k) == BatchesOf(k, g.closed) && b == BatchOf(k, g.open + [f])
    requires if b.frameCount >= f.batchSize then k !in open' && pushed' == pushed + [b]
             else k in open' && open'[k] == b && pushed' == pushed
    ensures PushedFor(pushed', k) == BatchesOf(k, g'.closed)
    ensures (k in open' <==> g'.open != []) && (k in open' ==> open'[k] == BatchOf(k, g'.open))
  {
    PushedForSnoc(pushed, b, k);
    BatchesOfSnoc(k, g.closed, g.open + [f]);
  }

  /** One turn of the flush: the open batch of a key is pushed if it has frames, and is open no more. */
  function FlushBody(v: LoopVars, k: Key): LoopVars {
    if k !in v.open then v
    else LoopVars(v.open - {k}, if v.open[k].frameCount > 0 then v.pushed + [v.open[k]] else v.pushed)
  }

  /** The flush of these keys, one after the other. */
  function FlushRun(v: LoopVars, keys: seq<Key>): LoopVars {
    if keys == [] then v else FlushBody(FlushRun(v, Init(keys)), Last(keys))
  }

  lemma FlushRunSnoc(v: LoopVars, keys: seq<Key>, k: Key)
    ensures FlushRun(v, keys + [k]) == FlushBody(FlushRun(v, keys), k)
  {
    assert Init(keys + [k]) == keys;
  }

  /** What the batch queue gets for key `k` when the loop has read `fs` and flushed. */
  ghost predicate FullyPushed(fs: seq<Frame>, k: Key, pushed: seq<FrameBatch>)
    requires AllAcceptable(fs)
  {
    OfKeyAcceptable(fs, k);
    PushedFor(pushed, k) == BatchesOf(k, Chunked(OfKey(fs, k)))
  }

  ghost predicate FlushKeyState(fs: seq<Frame>, k: Key, open: map<Key, FrameBatch>, pushed: seq<FrameBatch>)
    requires AllAcceptable(fs)
  {
    if k in open then KeyState(fs, k, open, pushed) else FullyPushed(fs, k, pushed)
  }

  /** During the flush: flushed keys are done, the others still as the loop left them. */
  ghost predicate FlushState(fs: seq<Frame>, open: map<Key, FrameBatch>, pushed: seq<FrameBatch>)
    requires AllAcceptable(fs)
  {
    forall k :: FlushKeyState(fs, k, open, pushed)
  }

  lemma FlushStarts(fs: seq<Frame>, open: map<Key, FrameBatch>, pushed: seq<FrameBatch>)
    requires AllAcceptable(fs) && LoopState(fs, open, pushed)
    ensures FlushState(fs, open, pushed)
  {
    forall k ensures FlushKeyState(fs, k, open, pushed) {
      assert KeyState(fs, k, open, pushed);
    }
  }

  lemma FlushStep(fs: seq<Frame>, open: map<Key, FrameBatch>, pushed: seq<FrameBatch>, key: Key)
    requires AllAcceptable(fs) && FlushState(fs, open, pushed) && key in open
    ensures open[key].frameCount > 0
    ensures FlushState(fs, open - {key}, pushed + [open[key]])
  {
    assert FlushKeyState(fs, key, open, pushed);
    OpenHasFrames(fs, open, pushed, key);
    forall k ensures FlushKeyState(fs, k, open - {key}, pushed + [open[key]]) {
      assert FlushKeyState(fs, k, open, pushed);
      if k == key {
        FlushSame(fs, open, pushed, key);
      } else {
        FlushOther(fs, open, pushed, open - {key}, open[key], k);
      }
    }
  }

  lemma OpenHasFrames(fs: seq<Frame>, open: map<Key, FrameBatch>, pushed: seq<FrameBatch>, key: Key)
    requires AllAcceptable(fs) && key in open && KeyState(fs, key, open, pushed)
    ensures open[key].frameCount > 0 && KeyOf(open[key]) == key
  {
    OfKeyAcceptable(fs, key);
  }

  lemma FlushOther(fs: seq<Frame>, open: map<Key, FrameBatch>, pushed: seq<FrameBatch>,
                   rest: map<Key, FrameBatch>, b: FrameBatch, k: Key)
    requires AllAcceptable(fs) && FlushKeyState(fs, k, open, pushed) && KeyOf(b) != k
    requires k in rest <==> k in open
    requires k in open ==> rest[k] == open[k]
    ensures FlushKeyState(fs, k, rest, pushed + [b])
  {
    PushedForSnoc(pushed, b, k);
  }

  lemma FlushSame(fs: seq<Frame>, open: map<Key, FrameBatch>, pushed: seq<FrameBatch>, key: Key)
    requires AllAcceptable(fs) && key in open && KeyState(fs, key, open, pushed)
    ensures FullyPushed(fs, key, pushed + [open[key]])
  {
    OfKeyAcceptable(fs, key);
    var g := Greedy(OfKey(fs, key));
    PushedForSnoc(pushed, open[key], key);
    BatchesOfSnoc(key, g.closed, g.open);
  }

  class BatchingThread {
    const batchQueue: Queues.Fifo<FrameBatch>
    var currentBatches: map<Key, FrameBatch>

    constructor (queue: Queues.Fifo<FrameBatch>)
      ensures batchQueue == queue && currentBatches == map[]
    {
      batchQueue, currentBatches := queue, map[];
    }

    ghost function Vars(): LoopVars
      reads this, batchQueue
    {
      LoopVars(currentBatches, batchQueue.accepted)
    }

    /** The loop body: one frame popped from the processed queue. */
    method HandleFrame(f: Frame)
      requires Acceptable(f) && batchQueue.Valid() && !batchQueue.stopped
      modifies this, batchQueue
      ensures batchQueue.Valid() && !batchQueue.stopped && Vars() == Body(old(Vars()), f)
    {
      ghost var open := currentBatches;
      if f.key !in currentBatches {
        currentBatches := currentBatches[f.key := NewBatch(f.key)];
      }
      var batch := GrowBatch(currentBatches[f.key], f);
      assert batch == Grown(open, f);
      currentBatches := currentBatches[f.key := batch];
      assert currentBatches == open[f.key := batch];
      if batch.frameCount >= f.batchSize {
        batchQueue.Push(batch);
        currentBatches := currentBatches - {f.key};
        assert currentBatches == open - {f.key};
      }
    }

    /** Serializes the frame into the batch. */
    method GrowBatch(batch: FrameBatch, f: Frame) returns (grown: FrameBatch)
      requires Acceptable(f)
      ensures grown == batch.(frameCount := batch.frameCount + 1, data := batch.data + Encode(LiveImage(f.payload)))
    {
      var data := AppendEntry(batch.data, f.payload);
      grown := batch.(frameCount := batch.frameCount + 1, data := data);
    }

    /** The flush after the loop, over the open batches in any order. */
    method Flush(ghost fs: seq<Frame>)
      requires AllAcceptable(fs)
      requires batchQueue.Valid() && !batchQueue.stopped
      requires LoopState(fs, currentBatches, batchQueue.accepted)
      modifies this, batchQueue
      ensures batchQueue.Valid() && !batchQueue.stopped && currentBatches == map[]
      ensures exists keys :: Vars() == FlushRun(old(Vars()), keys)
      ensures forall k :: FullyPushed(fs, k, batchQueue.accepted)
    {
      ghost var keys := [];
      FlushStarts(fs, currentBatches, batchQueue.accepted);
      while currentBatches != map[]
        invariant batchQueue.Valid() && !batchQueue.stopped
        invariant FlushState(fs, currentBatches, batchQueue.accepted) && Vars() == FlushRun(old(Vars()), keys)
        decreases currentBatches.Keys
      {
        var key :| key in currentBatches;
        FlushStep(fs, currentBatches, batchQueue.accepted, key);
        FlushRunSnoc(old(Vars()), keys, key);
        keys := keys + [key];
        if currentBatches[key].frameCount > 0 {
          batchQueue.Push(currentBatches[key]);
        }
        currentBatches := currentBatches - {key};
      }
      forall k ensures FullyPushed(fs, k, batchQueue.accepted) {
        assert FlushKeyState(fs, k, currentBatches, batchQueue.accepted);
      }
    }

    /** `batching_loop` on the frames it pops before the queue ends or a stop is requested. */
    method BatchingLoop(frames: seq<Frame>)
      requires AllAcceptable(frames)
      requires currentBatches == map[] && batchQueue.Valid() && !batchQueue.stopped && batchQueue.accepted == []
      modifies this, batchQueue
      ensures batchQueue.Valid() && currentBatches == map[]
      ensures exists keys :: Vars() == FlushRun(LoopRun(frames), keys)
      ensures forall k :: FullyPushed(frames, k, batchQueue.accepted)
    {
      var i := 0;
      while i < |frames|
        invariant 0 <= i <= |frames|
        invariant batchQueue.Valid() && !batchQueue.stopped
        invariant Vars() == LoopRun(frames[..i])
      {
        LoopRunNext(frames, i);
        HandleFrame(frames[i]);
        i := i + 1;
      }
      assert frames[..i] == frames;
      LoopRunIsGreedy(frames);
      Flush(frames);
    }
  }

  // ---------- What a consumer gets ----------

  /** All images of a list of blobs, each read with the documented reader. */
  ghost function ParseBatches(bs: seq<FrameBatch>): Option<seq<Image>> {
    if bs == [] then Some([])
    else
      match (ParseBatches(Init(bs)), Parse(Last(bs).data))
      case (Some(before), Some(images)) => Some(before + images)
      case _ => None
  }

  lemma ImagesAppend(a: seq<Frame>, b: seq<Frame>)
    requires AllAcceptable(a) && AllAcceptable(b)
    ensures AllAcceptable(a + b) && Images(a + b) == Images(a) + Images(b)
  {
  }

  lemma {:induction false} ParseBatchesOf(k: Key, cs: seq<seq<Frame>>)
    requires ChunksAcceptable(cs)
    ensures AllAcceptable(Flatten(cs)) && ParseBatches(BatchesOf(k, cs)) == Some(Images(Flatten(cs)))
  {
    if cs != [] {
      ParseBatchesOf(k, Init(cs));
      RoundTrip(Images(Last(cs)));
      ImagesAppend(Flatten(Init(cs)), Last(cs));
      assert Init(BatchesOf(k, cs)) == BatchesOf(k, Init(cs));
    }
  }

  /**
   * End to end: whatever other keys do in between, reading the batches pushed for a key one after the other gives
   * exactly that key's frames as the row loops copied them, in order; a frame whose offsets do not wrap is its own
   * stride-free picture; every batch's frame count is right.
   */
  lemma ConsumerSeesEveryFrame(fs: seq<Frame>, k: Key, pushed: seq<FrameBatch>)
    requires AllAcceptable(fs) && FullyPushed(fs, k, pushed)
    ensures AllAcceptable(OfKey(fs, k)) && ParseBatches(PushedFor(pushed, k)) == Some(Images(OfKey(fs, k)))
    ensures forall i | 0 <= i < |OfKey(fs, k)| && NoFrameWrap(OfKey(fs, k)[i].payload) ::
              Images(OfKey(fs, k))[i] == ImageOf(OfKey(fs, k)[i].payload)
    ensures forall i | 0 <= i < |PushedFor(pushed, k)| ::
              var b := PushedFor(pushed, k)[i];
              b.frameCount > 0 && Parse(b.data).Some? && |Parse(b.data).value| == b.frameCount
  {
    OfKeyAcceptable(fs, k);
    forall i | 0 <= i < |OfKey(fs, k)| && NoFrameWrap(OfKey(fs, k)[i].payload)
      ensures Images(OfKey(fs, k))[i] == ImageOf(OfKey(fs, k)[i].payload)
    {
      LiveIsImage(OfKey(fs, k)[i].payload);
    }
    var cs := Chunked(OfKey(fs, k));
    ChunkedCoversAll(OfKey(fs, k));
    ParseBatchesOf(k, cs);
    forall i | 0 <= i < |cs| ensures var b := BatchesOf(k, cs)[i];
      b.frameCount > 0 && Parse(b.data).Some? && |Parse(b.data).value| == b.frameCount
    {
      RoundTrip(Images(cs[i]));
    }
  }

  /** The loop's pushed and open batches of a key depend on that key's own frames only, whatever is interleaved. */
  lemma KeysAreIndependent(fs: seq<Frame>, fs': seq<Frame>, k: Key)
    requires AllAcceptable(fs) && AllAcceptable(fs') && OfKey(fs, k) == OfKey(fs', k)
    ensures PushedFor(LoopRun(fs).pushed, k) == PushedFor(LoopRun(fs').pushed, k)
    ensures k in LoopRun(fs).open <==> k in LoopRun(fs').open
    ensures k in LoopRun(fs).open ==> LoopRun(fs).open[k] == LoopRun(fs').open[k]
  {
    LoopRunIsGreedy(fs);
    LoopRunIsGreedy(fs');
    assert KeyState(fs, k, LoopRun(fs).open, LoopRun(fs).pushed);
    assert KeyState(fs', k, LoopRun(fs').open, LoopRun(fs').pushed);
  }
}
