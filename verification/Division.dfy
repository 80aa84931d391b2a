/** Division and remainder by a divisor that is not a constant. */
module Division {

  lemma MulLe(a: int, b: int, k: nat)
    requires a <= b
    ensures a * k <= b * k
  {
    assert (b - a) * k >= 0;
    assert b * k == a * k + (b - a) * k;
  }

  lemma SameQuotient(q: int, r: nat, q': int, r': nat, k: nat)
    requires r < k && r' < k && q * k + r == q' * k + r'
    ensures q == q' && r == r'
  {
    assert (q + 1) * k == q * k + k && (q' + 1) * k == q' * k + k;
    if q < q' {
      MulLe(q + 1, q', k);
    } else if q' < q {
      MulLe(q' + 1, q, k);
    }
  }

  lemma DivUnique(x: int, k: nat, q: int, r: nat)
    requires x == q * k + r && r < k
    ensures x / k == q && x % k == r
  {
    assert x == x / k * k + x % k;
    SameQuotient(q, r, x / k, x % k, k);
  }

  lemma MultipleOf(a: int, n: nat, q: int)
    requires n > 0 && a == q * n
    ensures a % n == 0
  {
    DivUnique(a, n, q, 0);
  }

  lemma MinusOut(a: int, b: int)
    ensures (-a) * b == -(a * b)
  {
  }

  lemma NegatedMultiple(a: int, n: nat)
    requires n > 0 && a % n == 0
    ensures (-a) % n == 0
  {
    var q := a / n;
    assert a == q * n;
    MinusOut(q, n);
    MultipleOf(-a, n, -q);
  }
}
