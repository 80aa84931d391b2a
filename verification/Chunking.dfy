/**
 * What the batcher does to the frames of one key, stated without buffers or maps:
 * a greedy chunking, and its characterisation independent of any loop.
 */
module Chunking {
  import opened Sequences

  datatype Key = Key(streamId: int, eventName: string)

  /** A queue element: the batch key and batch size of its event, and what it carries. */
  datatype Item<+P> = Item(key: Key, batchSize: int, payload: P)

  /** Chunks already complete, and the one still being filled. */
  datatype Chunks<+P> = Chunks(closed: seq<seq<Item<P>>>, open: seq<Item<P>>)

  function Add<P>(c: Chunks<P>, x: Item<P>): Chunks<P> {
    var o := c.open + [x];
    if |o| >= x.batchSize then Chunks(c.closed + [o], []) else Chunks(c.closed, o)
  }

  function Greedy<P>(s: seq<Item<P>>): Chunks<P> {
    if s == [] then Chunks([], []) else Add(Greedy(Init(s)), Last(s))
  }

  /** All chunks once the partial one is flushed. */
  function Chunked<P>(s: seq<Item<P>>): seq<seq<Item<P>>> {
    var g := Greedy(s);
    if g.open == [] then g.closed else g.closed + [g.open]
  }

  /** The frames of one key, in order. */
  function OfKey<P>(s: seq<Item<P>>, k: Key): seq<Item<P>> {
    if s == [] then [] else OfKey(Init(s), k) + (if Last(s).key == k then [Last(s)] else [])
  }

  /** No frame of `o` is reached by its own batch size. */
  predicate StaysOpen<P>(o: seq<Item<P>>) {
    forall j | 0 <= j < |o| :: j + 1 < o[j].batchSize
  }

  /** The last frame of `c` is the first whose own batch size is at most the running count. */
  predicate ClosesAtLast<P>(c: seq<Item<P>>) {
    c != [] && Last(c).batchSize <= |c| && StaysOpen(Init(c))
  }

  ghost predicate IsGreedyChunking<P>(s: seq<Item<P>>, c: Chunks<P>) {
    && Flatten(c.closed) + c.open == s
    && (forall i | 0 <= i < |c.closed| :: ClosesAtLast(c.closed[i]))
    && StaysOpen(c.open)
  }

  lemma GreedySnoc<P>(s: seq<Item<P>>, x: Item<P>)
    ensures Greedy(s + [x]) == Add(Greedy(s), x)
  {
    assert Init(s + [x]) == s;
  }

  lemma OfKeySnoc<P>(s: seq<Item<P>>, x: Item<P>, k: Key)
    ensures OfKey(s + [x], k) == if x.key == k then OfKey(s, k) + [x] else OfKey(s, k)
  {
    assert Init(s + [x]) == s;
  }

  lemma {:induction false} OfKeyAppend<P>(a: seq<Item<P>>, b: seq<Item<P>>, k: Key)
    ensures OfKey(a + b, k) == OfKey(a, k) + OfKey(b, k)
    decreases |b|
  {
    if b == [] {
      assert a + b == a;
    } else {
      assert a + b == (a + Init(b)) + [Last(b)];
      OfKeySnoc(a + Init(b), Last(b), k);
      OfKeyAppend(a, Init(b), k);
    }
  }

  lemma {:induction false} OfKeyAll<P>(s: seq<Item<P>>, k: Key)
    ensures forall i | 0 <= i < |OfKey(s, k)| :: OfKey(s, k)[i].key == k && OfKey(s, k)[i] in s
  {
    if s != [] {
      OfKeyAll(Init(s), k);
    }
  }

  /** The frames of a key are exactly those, as often as they occur. */
  lemma {:induction false} OfKeyCounts<P>(s: seq<Item<P>>, k: Key, x: Item<P>)
    ensures Count(OfKey(s, k), x) == if x.key == k then Count(s, x) else 0
    ensures IsSubseq(OfKey(s, k), s)
  {
    if s != [] {
      OfKeyCounts(Init(s), k, x);
      assert Init(s) + [Last(s)] == s;
      if Last(s).key == k {
        CountSnoc(OfKey(Init(s), k), Last(s), x);
        SubseqSnocBoth(OfKey(Init(s), k), Init(s), Last(s));
      } else {
        assert OfKey(s, k) == OfKey(Init(s), k);
        SubseqSnocRight(OfKey(Init(s), k), Init(s), Last(s));
      }
    }
  }

  lemma {:induction false} OfKeySubseq<P>(a: seq<Item<P>>, b: seq<Item<P>>, k: Key)
    requires IsSubseq(a, b)
    ensures IsSubseq(OfKey(a, k), OfKey(b, k))
    decreases |b|
  {
    if b != [] {
      if IsSubseq(a, Init(b)) {
        OfKeySubseq(a, Init(b), k);
        if Last(b).key == k {
          SubseqSnocRight(OfKey(a, k), OfKey(Init(b), k), Last(b));
        } else {
          assert OfKey(b, k) == OfKey(Init(b), k);
        }
      } else {
        OfKeySubseq(Init(a), Init(b), k);
        if Last(b).key == k {
          SubseqSnocBoth(OfKey(Init(a), k), OfKey(Init(b), k), Last(b));
        } else {
          assert OfKey(a, k) == OfKey(Init(a), k) && OfKey(b, k) == OfKey(Init(b), k);
        }
      }
    }
  }

  lemma AddKeepsGreedy<P>(s: seq<Item<P>>, c: Chunks<P>, x: Item<P>)
    requires IsGreedyChunking(s, c)
    ensures IsGreedyChunking(s + [x], Add(c, x))
  {
    var o := c.open + [x];
    assert Init(o) == c.open && Last(o) == x;
    assert Flatten(c.closed) + o == s + [x];
    if |o| >= x.batchSize {
      FlattenSnoc(c.closed, o);
      var t := s + [x];
      assert t + [] == t;
      forall i | 0 <= i < |c.closed + [o]| ensures ClosesAtLast((c.closed + [o])[i]) {
        if i == |c.closed| {
          assert ClosesAtLast(o);
        }
      }
    }
  }

  /** The greedy result is a greedy chunking: nothing lost, nothing reordered, every chunk closes as early as it may. */
  lemma {:induction false} GreedyIsGreedy<P>(s: seq<Item<P>>)
    ensures IsGreedyChunking(s, Greedy(s))
  {
    if s != [] {
      GreedyIsGreedy(Init(s));
      AddKeepsGreedy(Init(s), Greedy(Init(s)), Last(s));
      assert Init(s) + [Last(s)] == s;
    }
  }

  /** ... and the only one. */
  lemma {:induction false} GreedyUnique<P>(s: seq<Item<P>>, c: Chunks<P>)
    requires IsGreedyChunking(s, c)
    ensures c == Greedy(s)
    decreases |s|
  {
    if c.open != [] {
      assert Init(s) == Flatten(c.closed) + Init(c.open);
      GreedyUnique(Init(s), Chunks(c.closed, Init(c.open)));
      assert Init(c.open) + [Last(s)] == c.open;
    } else if c.closed != [] {
      var ch := Last(c.closed);
      assert s == Flatten(Init(c.closed)) + ch;
      assert Init(s) == Flatten(Init(c.closed)) + Init(ch);
      GreedyUnique(Init(s), Chunks(Init(c.closed), Init(ch)));
      assert Init(ch) + [Last(s)] == ch;
      assert Init(c.closed) + [ch] == c.closed;
    }
  }

  /** Flushed, the chunks are exactly the frames of the key, in order. */
  lemma ChunkedCoversAll<P>(s: seq<Item<P>>)
    ensures Flatten(Chunked(s)) == s
    ensures forall i | 0 <= i < |Chunked(s)| :: Chunked(s)[i] != []
  {
    GreedyIsGreedy(s);
    var g := Greedy(s);
    FlattenSnoc(g.closed, g.open);
    assert g.closed + [] == g.closed;
  }
}
