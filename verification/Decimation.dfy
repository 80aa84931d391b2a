/** How many decoded frames the per-event `select` filter keeps. */
module Decimation {
  import opened Division

  /** The stream's average rate if it has one, else its raw rate, else one frame a second. */
  function SourceFps(avgNum: int, avgDen: int, rawNum: int, rawDen: int): (fps: real)
    ensures fps > 0.0
  {
    if avgDen > 0 && avgNum > 0 then avgNum as real / avgDen as real
    else if rawDen > 0 && rawNum > 0 then rawNum as real / rawDen as real
    else 1.0
  }

  function EffectiveTarget(target: real): (t: real)
    ensures t > 0.0
  {
    if target <= 0.0 then 1.0 else target
  }

  /** The rate is the stream's average if that is known, else its raw rate if that is known, else one frame a second. */
  lemma SourceFpsIs(avgNum: int, avgDen: int, rawNum: int, rawDen: int)
    ensures var fps := SourceFps(avgNum, avgDen, rawNum, rawDen);
            && (avgNum > 0 && avgDen > 0 ==> fps * (avgDen as real) == avgNum as real)
            && (!(avgNum > 0 && avgDen > 0) && rawNum > 0 && rawDen > 0 ==> fps * (rawDen as real) == rawNum as real)
            && (!(avgNum > 0 && avgDen > 0) && !(rawNum > 0 && rawDen > 0) ==> fps == 1.0)
  {
  }

  /** A target that is not positive counts as one frame a second. */
  lemma EffectiveTargetIs(target: real)
    ensures target > 0.0 ==> EffectiveTarget(target) == target
    ensures target <= 0.0 ==> EffectiveTarget(target) == 1.0
  {
  }

  /** Keep one in this many frames. */
  function Interval(source: real, target: real): (k: nat)
    requires source > 0.0
    ensures k >= 1
  {
    var interval := (source / EffectiveTarget(target)).Floor;
    if interval < 1 then 1 else interval
  }

  /** The greatest number of source frames that last no longer than one at the target rate, at least one. */
  predicate IsInterval(source: real, target: real, k: nat) {
    k >= 1
    && if source < target then k == 1 else (k as real) * target <= source < (k as real + 1.0) * target
  }

  lemma IntervalIs(source: real, target: real)
    requires source > 0.0
    ensures IsInterval(source, EffectiveTarget(target), Interval(source, target))
  {
    var t, k := EffectiveTarget(target), Interval(source, target);
    var x := source / t;
    assert x * t == source;
    if source < t {
      QuotientBounds(source, t, 0.0, 1.0);
    } else {
      QuotientAbove(source, t, 1.0);
      ScaledBetween(k as real, x, k as real + 1.0, t, source);
    }
  }

  lemma ScaledBetween(low: real, x: real, above: real, t: real, source: real)
    requires low <= x < above && t > 0.0 && source == x * t
    ensures low * t <= source < above * t
  {
    ScaleLe(low, x, t);
    ScaleLt(x, above, t);
  }

  /** The loop over a stream's events: each gets the interval of its own target at the stream's rate. */
  method EventIntervals(avgNum: int, avgDen: int, rawNum: int, rawDen: int, targets: seq<real>)
    returns (intervals: seq<nat>)
    ensures |intervals| == |targets|
    ensures forall i | 0 <= i < |targets| ::
              && intervals[i] == Interval(SourceFps(avgNum, avgDen, rawNum, rawDen), targets[i])
              && IsInterval(SourceFps(avgNum, avgDen, rawNum, rawDen), EffectiveTarget(targets[i]), intervals[i])
  {
    var source := 1.0;
    if avgDen > 0 && avgNum > 0 {
      source := avgNum as real / avgDen as real;
    } else if rawDen > 0 && rawNum > 0 {
      source := rawNum as real / rawDen as real;
    }
    intervals := [];
    for i := 0 to |targets|
      invariant |intervals| == i && source == SourceFps(avgNum, avgDen, rawNum, rawDen)
      invariant forall j | 0 <= j < i ::
                  && intervals[j] == Interval(source, targets[j])
                  && IsInterval(source, EffectiveTarget(targets[j]), intervals[j])
    {
      var target := targets[i];
      if target <= 0.0 {
        target := 1.0;
      }
      var interval := (source / target).Floor;
      if interval < 1 {
        interval := 1;
      }
      IntervalIs(source, targets[i]);
      intervals := intervals + [interval];
    }
  }

  /** `select='not(mod(n,k))'`. */
  predicate Keeps(n: nat, k: nat)
    requires k >= 1
  {
    n % k == 0
  }

  /** How many of the frames a, ..., a + w - 1 are kept. */
  function KeptIn(a: nat, w: nat, k: nat): nat
    requires k >= 1
  {
    if w == 0 then 0 else KeptIn(a, w - 1, k) + (if Keeps(a + w - 1, k) then 1 else 0)
  }

  /** Multiples of `k` below `x`. */
  function MultiplesBelow(x: nat, k: nat): nat
    requires k >= 1
  {
    if x == 0 then 0 else (x - 1) / k + 1
  }

  lemma NextMultiple(x: nat, k: nat)
    requires k >= 1
    ensures MultiplesBelow(x + 1, k) == MultiplesBelow(x, k) + (if Keeps(x, k) then 1 else 0)
  {
    if x > 0 {
      var q, r := (x - 1) / k, (x - 1) % k;
      assert x - 1 == q * k + r;
      if r + 1 == k {
        assert (q + 1) * k == q * k + k;
        DivUnique(x, k, q + 1, 0);
      } else {
        DivUnique(x, k, q, r + 1);
      }
    }
  }

  lemma {:induction false} KeptIsMultiples(a: nat, w: nat, k: nat)
    requires k >= 1
    ensures KeptIn(a, w, k) == MultiplesBelow(a + w, k) - MultiplesBelow(a, k)
  {
    if w > 0 {
      KeptIsMultiples(a, w - 1, k);
      NextMultiple(a + w - 1, k);
    }
  }

  /** `m` multiples below `x` is: (m - 1) k < x <= m k. */
  lemma MultiplesBounds(x: nat, k: nat)
    requires k >= 1
    ensures var m := MultiplesBelow(x, k); (m - 1) * k < x <= m * k
  {
    if x > 0 {
      var q, r := (x - 1) / k, (x - 1) % k;
      assert x - 1 == q * k + r;
      assert (q + 1) * k == q * k + k;
    }
  }

  /** Any window of `w` consecutive frames keeps between floor(w/k) and ceil(w/k) of them. */
  lemma WindowBounds(a: nat, w: nat, k: nat)
    requires k >= 1
    ensures w / k <= KeptIn(a, w, k) <= (w + k - 1) / k
  {
    KeptIsMultiples(a, w, k);
    MultiplesBounds(a, k);
    MultiplesBounds(a + w, k);
    Gap(MultiplesBelow(a, k), MultiplesBelow(a + w, k), KeptIn(a, w, k), a, w, k);
    Between(w, k, KeptIn(a, w, k));
  }

  lemma Gap(m: nat, n: nat, kept: nat, a: nat, w: nat, k: nat)
    requires (m - 1) * k < a <= m * k || a == m == 0
    requires (n - 1) * k < a + w <= n * k || a + w == n == 0
    requires k >= 1 && n == m + kept
    ensures kept * k - k < w < kept * k + k
  {
    assert n * k == m * k + kept * k;
    assert (m - 1) * k == m * k - k && (n - 1) * k == n * k - k;
  }

  lemma Between(w: nat, k: nat, kept: nat)
    requires k >= 1 && kept * k - k < w < kept * k + k
    ensures w / k <= kept <= (w + k - 1) / k
  {
    var q, top := w / k, (w + k - 1) / k;
    assert w == q * k + w % k && w + k - 1 == top * k + (w + k - 1) % k;
    assert (kept + 1) * k == kept * k + k && (top + 1) * k == top * k + k;
    if q > kept {
      MulLe(kept + 1, q, k);
    }
    if top < kept {
      MulLe(top + 1, kept, k);
    }
  }

  function OutputRate(source: real, target: real): real
    requires source > 0.0
  {
    source / Interval(source, target) as real
  }

  /**
   * The output rate is at least the target and below twice the target, or the source rate when the target exceeds
   * it.
   */
  lemma RateBounds(source: real, target: real)
    requires source > 0.0
    ensures var t := EffectiveTarget(target);
            if source >= t then t <= OutputRate(source, target) < 2.0 * t else OutputRate(source, target) == source
  {
    var t, k := EffectiveTarget(target), Interval(source, target) as real;
    var x := source / t;
    if source < t {
      QuotientBounds(source, t, 0.0, 1.0);
    } else {
      QuotientAbove(source, t, 1.0);
      assert x * t == source;
      var high := 2.0 * t;
      FloorBounds(x, k, t, high, source);
      QuotientBounds(source, k, t, high);
    }
  }

  lemma FloorBounds(x: real, k: real, t: real, high: real, source: real)
    requires x >= 1.0 && k == x.Floor as real && t > 0.0 && high == 2.0 * t && source == x * t
    ensures t * k <= source < high * k
  {
    ScaleLe(k, x, t);
    ScaleLt(x, 2.0 * k, t);
  }

  lemma ScaleLe(a: real, b: real, t: real)
    requires a <= b && t > 0.0
    ensures a * t <= b * t
  {
  }

  lemma ScaleLt(a: real, b: real, t: real)
    requires a < b && t > 0.0
    ensures a * t < b * t
  {
  }

  lemma QuotientAbove(a: real, b: real, low: real)
    requires b > 0.0 && low * b <= a
    ensures low <= a / b
  {
    var y := a / b;
    assert y * b == a;
    if y < low {
      ScaleLt(y, low, b);
    }
  }

  lemma QuotientBounds(a: real, b: real, low: real, high: real)
    requires b > 0.0 && low * b <= a < high * b
    ensures low <= a / b < high
  {
    QuotientAbove(a, b, low);
    var y := a / b;
    assert y * b == a;
    if y >= high {
      ScaleLe(high, y, b);
    }
  }
}
