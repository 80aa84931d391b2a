/** Sequence vocabulary shared by the queue, batching and pipeline models. */
module Sequences {

  function Init<T>(s: seq<T>): seq<T>
    requires s != []
  {
    s[..|s| - 1]
  }

  function Last<T>(s: seq<T>): T
    requires s != []
  {
    s[|s| - 1]
  }

  predicate Distinct<T(==)>(s: seq<T>) {
    forall i, j | 0 <= i < j < |s| :: s[i] != s[j]
  }

  function Flatten<T>(ss: seq<seq<T>>): seq<T> {
    if ss == [] then [] else Flatten(Init(ss)) + Last(ss)
  }

  lemma FlattenSnoc<T>(ss: seq<seq<T>>, s: seq<T>)
    ensures Flatten(ss + [s]) == Flatten(ss) + s
  {
    assert Init(ss + [s]) == ss;
  }

  /** `a` can be obtained from `b` by deleting elements. */
  ghost predicate IsSubseq<T>(a: seq<T>, b: seq<T>)
    decreases |b|
  {
    if b == [] then a == []
    else
      || IsSubseq(a, Init(b))
      || (a != [] && Last(a) == Last(b) && IsSubseq(Init(a), Init(b)))
  }

  /** `at` says, in increasing order, where in `b` the elements of `a` are. */
  ghost predicate Embeds<T>(a: seq<T>, b: seq<T>, at: seq<int>) {
    && |at| == |a| && (forall i, j | 0 <= i < j < |at| :: at[i] < at[j])
    && forall i | 0 <= i < |at| :: 0 <= at[i] < |b| && a[i] == b[at[i]]
  }

  lemma NothingEmbeds<T>(a: seq<T>)
    ensures a == [] <==> exists at :: Embeds(a, [], at)
  {
    if a == [] {
      assert Embeds(a, [], []);
    } else {
      var x := a[0];
    }
  }

  lemma EmbedsMore<T>(a: seq<T>, b: seq<T>, at: seq<int>)
    requires a != [] && b != [] && Last(a) == Last(b) && Embeds(Init(a), Init(b), at)
    ensures Embeds(a, b, at + [|b| - 1])
  {
  }

  lemma EmbedsLess<T>(a: seq<T>, b: seq<T>, at: seq<int>)
    requires b != [] && Embeds(a, b, at)
    ensures (at == [] || Last(at) < |b| - 1) ==> Embeds(a, Init(b), at)
    ensures at != [] && Last(at) == |b| - 1 ==> Last(a) == Last(b) && Embeds(Init(a), Init(b), Init(at))
  {
  }

  /** Deleting elements is the same as keeping those at increasing places. */
  lemma {:induction false} SubseqIff<T>(a: seq<T>, b: seq<T>)
    ensures IsSubseq(a, b) <==> exists at :: Embeds(a, b, at)
    decreases |b|
  {
    if b == [] {
      NothingEmbeds(a);
    } else {
      SubseqIff(a, Init(b));
      if at :| Embeds(a, b, at) {
        EmbedsLess(a, b, at);
        if at != [] && Last(at) == |b| - 1 {
          SubseqIff(Init(a), Init(b));
        }
      }
      if IsSubseq(a, Init(b)) {
        var at :| Embeds(a, Init(b), at);
        assert Embeds(a, b, at);
      } else if IsSubseq(a, b) {
        SubseqIff(Init(a), Init(b));
        var at :| Embeds(Init(a), Init(b), at);
        EmbedsMore(a, b, at);
      }
    }
  }

  lemma {:induction false} SubseqRefl<T>(a: seq<T>)
    ensures IsSubseq(a, a)
  {
    if a != [] {
      SubseqRefl(Init(a));
    }
  }

  lemma SubseqSnocBoth<T>(a: seq<T>, b: seq<T>, x: T)
    requires IsSubseq(a, b)
    ensures IsSubseq(a + [x], b + [x])
  {
    assert Init(a + [x]) == a && Init(b + [x]) == b;
  }

  lemma SubseqSnocRight<T>(a: seq<T>, b: seq<T>, x: T)
    requires IsSubseq(a, b)
    ensures IsSubseq(a, b + [x])
  {
    assert Init(b + [x]) == b;
  }

  lemma {:induction false} SubseqDropLast<T>(a: seq<T>, b: seq<T>)
    requires a != [] && IsSubseq(a, b)
    ensures IsSubseq(Init(a), b)
    decreases |b|
  {
    if IsSubseq(a, Init(b)) {
      SubseqDropLast(a, Init(b));
    }
  }

  lemma {:induction false} SubseqTrans<T>(a: seq<T>, b: seq<T>, c: seq<T>)
    requires IsSubseq(a, b) && IsSubseq(b, c)
    ensures IsSubseq(a, c)
    decreases |b| + |c|
  {
    if c != [] {
      if IsSubseq(b, Init(c)) {
        SubseqTrans(a, b, Init(c));
      } else if IsSubseq(a, Init(b)) {
        SubseqTrans(a, Init(b), Init(c));
      } else {
        SubseqTrans(Init(a), Init(b), Init(c));
      }
    }
  }

  lemma {:induction false} SubseqPrefix<T>(a: seq<T>, b: seq<T>)
    ensures IsSubseq(a, a + b)
  {
    if b == [] {
      assert a + b == a;
      SubseqRefl(a);
    } else {
      SubseqPrefix(a, Init(b));
      assert a + b == (a + Init(b)) + [Last(b)];
      SubseqSnocRight(a, a + Init(b), Last(b));
    }
  }

  /** How often `x` occurs in `s`. */
  function Count<T(==)>(s: seq<T>, x: T): nat {
    if s == [] then 0 else Count(Init(s), x) + (if Last(s) == x then 1 else 0)
  }

  lemma CountSnoc<T>(s: seq<T>, y: T, x: T)
    ensures Count(s + [y], x) == Count(s, x) + (if y == x then 1 else 0)
  {
    assert Init(s + [y]) == s;
  }

  lemma {:induction false} CountAppend<T>(a: seq<T>, b: seq<T>, x: T)
    ensures Count(a + b, x) == Count(a, x) + Count(b, x)
    decreases |b|
  {
    if b == [] {
      assert a + b == a;
    } else {
      assert a + b == (a + Init(b)) + [Last(b)];
      CountSnoc(a + Init(b), Last(b), x);
      CountAppend(a, Init(b), x);
    }
  }

  lemma CountFront<T>(s: seq<T>, x: T)
    requires s != []
    ensures Count(s, x) == (if s[0] == x then 1 else 0) + Count(s[1..], x)
  {
    assert s == [s[0]] + s[1..];
    CountAppend([s[0]], s[1..], x);
    CountSnoc([], s[0], x);
    assert [] + [s[0]] == [s[0]];
  }

  lemma SplitAt<T>(s: seq<T>, i: nat)
    requires i < |s|
    ensures s == (s[..i] + [s[i]]) + s[i + 1..]
  {
  }

  lemma CountOut<T>(s: seq<T>, i: nat, x: T)
    requires i < |s|
    ensures Count(s, x) == Count(s[..i] + s[i + 1..], x) + (if s[i] == x then 1 else 0)
  {
    var before, after := s[..i], s[i + 1..];
    SplitAt(s, i);
    CountAppend(before + [s[i]], after, x);
    CountSnoc(before, s[i], x);
    CountAppend(before, after, x);
  }

  lemma {:induction false} CountPositive<T>(s: seq<T>, x: T)
    ensures Count(s, x) > 0 <==> x in s
  {
    if s != [] {
      CountPositive(Init(s), x);
      assert s == Init(s) + [Last(s)];
    }
  }

  /** A sequence without repetitions counts each of its elements once. */
  lemma {:induction false} CountOnce<T>(s: seq<T>, x: T)
    requires Distinct(s)
    ensures Count(s, x) == if x in s then 1 else 0
  {
    if s != [] {
      CountOnce(Init(s), x);
      assert s == Init(s) + [Last(s)];
    }
  }

  function Sum(ns: seq<nat>): nat {
    if ns == [] then 0 else Sum(Init(ns)) + Last(ns)
  }

  lemma {:induction false} SumAdd(a: seq<nat>, b: seq<nat>, s: seq<nat>)
    requires |a| == |b| == |s| && forall i | 0 <= i < |s| :: s[i] == a[i] + b[i]
    ensures Sum(s) == Sum(a) + Sum(b)
  {
    if s != [] {
      SumAdd(Init(a), Init(b), Init(s));
    }
  }

  lemma {:induction false} SumZero(ns: seq<nat>)
    requires forall i | 0 <= i < |ns| :: ns[i] == 0
    ensures Sum(ns) == 0
  {
    if ns != [] {
      SumZero(Init(ns));
    }
  }

  lemma {:induction false} SumAt(ns: seq<nat>, i: nat)
    requires i < |ns| && forall j | 0 <= j < |ns| && j != i :: ns[j] == 0
    ensures Sum(ns) == ns[i]
  {
    if i == |ns| - 1 {
      SumZero(Init(ns));
    } else {
      SumAt(Init(ns), i);
    }
  }
}
