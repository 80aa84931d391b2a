/** Machine widths. */
module Widths {

  const TWO_31 := 0x8000_0000
  const TWO_32 := 0x1_0000_0000
  const TWO_63 := 0x8000_0000_0000_0000
  const TWO_64 := 0x1_0000_0000_0000_0000

  predicate IsInt32(n: int) {
    -TWO_31 <= n < TWO_31
  }

  /** Conversion of a wider integer to a 32-bit `int`. */
  function Trunc32(n: int): (r: int)
    ensures IsInt32(r)
    ensures IsInt32(n) <==> r == n
    ensures (r - n) % TWO_32 == 0
  {
    (n + TWO_31) % TWO_32 - TWO_31
  }
}
