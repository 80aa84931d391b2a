/**
 * Planes in memory and the two row-copy loops that strip their stride: the live one with
 * 32-bit row offsets and the 64-bit helper beside it.
 */
module FrameFormat {
  import opened Widths

  type byte = x: int | 0 <= x < 256

  const HEADER_BYTES := 16

  /** `mem` is memory around the plane pointer, `linesize` the signed distance between row starts. */
  datatype Plane = Plane(mem: int -> byte, linesize: int)

  /** A YUV420P frame as the filter graph hands it over. */
  datatype AvFrame = AvFrame(pts: int, width: int, height: int, y: Plane, u: Plane, v: Plane)

  /** What a consumer sees: no stride. */
  datatype Image = Image(pts: int, width: int, height: int, y: seq<byte>, u: seq<byte>, v: seq<byte>)

  // ---------- Row offsets ----------

  /** Where row `i` starts: `i * step`, by repeated addition so that no proof below multiplies. */
  function RowStart(i: nat, step: int): (r: int)
    ensures step >= 0 ==> r >= 0
  {
    if i == 0 then 0 else RowStart(i - 1, step) + step
  }

  lemma {:induction false} RowStartIs(i: nat, step: int)
    ensures RowStart(i, step) == i * step
  {
    if i > 0 {
      RowStartIs(i - 1, step);
    }
  }

  lemma {:induction false} RowStartMono(i: nat, j: nat, step: nat)
    requires i <= j
    ensures RowStart(i, step) <= RowStart(j, step)
    ensures i < j ==> RowStart(i, step) + step <= RowStart(j, step)
    decreases j
  {
    if i < j {
      RowStartMono(i, j - 1, step);
    }
  }

  /** The row offset the live loop computes: `uint32_t` times `int` is taken modulo 2^32. */
  function Offset32(i: nat, step: int): (r: nat)
    ensures r < TWO_32
  {
    (i * (step % TWO_32)) % TWO_32
  }

  /** It is the exact product modulo 2^32, for a stride of either sign. */
  lemma Offset32Is(i: nat, step: int)
    ensures Offset32(i, step) == RowStart(i, step) % TWO_32
  {
    RowStartIs(i, step);
    var q, r := step / TWO_32, step % TWO_32;
    assert step == q * TWO_32 + r;
    assert i * step == i * r + (i * q) * TWO_32;
    WholeTurns(i * r, i * q);
  }

  lemma WholeTurns(a: int, q: int)
    ensures (a + q * TWO_32) % TWO_32 == a % TWO_32
  {
  }

  lemma OffsetExact(i: nat, step: nat)
    requires step < TWO_31
    ensures RowStart(i, step) < TWO_32 ==> Offset32(i, step) == RowStart(i, step)
    ensures Offset32(i, step) <= RowStart(i, step)
  {
    RowStartIs(i, step);
    assert step % TWO_32 == step;
  }

  lemma {:induction false} AddMultiple32(r: nat, q: nat)
    requires r < TWO_32
    ensures (r + q * TWO_32) % TWO_32 == r
  {
    if q > 0 {
      AddMultiple32(r, q - 1);
    }
  }

  /** A negative offset comes out 2^32 too large, as long as it is no further than that. */
  lemma OffsetOfNegative(i: nat, step: int)
    requires i > 0 && -TWO_31 <= step < 0 && -TWO_32 <= RowStart(i, step) < 0
    ensures Offset32(i, step) == RowStart(i, step) + TWO_32
  {
    RowStartIs(i, step);
    assert step % TWO_32 == step + TWO_32;
    assert i * (step + TWO_32) == (i * step + TWO_32) + (i - 1) * TWO_32;
    AddMultiple32(i * step + TWO_32, i - 1);
  }

  lemma RowOne(step: int)
    ensures RowStart(1, step) == step
  {
    assert RowStart(0, step) == 0;
  }

  predicate OffsetsAgree(rows: nat, step: int) {
    forall i: nat | i < rows :: Offset32(i, step) == RowStart(i, step)
  }

  /**
   * 32-bit and exact row offsets agree on all rows exactly when the stride is not negative and the last one fits
   * 32 bits.
   */
  lemma OffsetsAgreeIff(rows: nat, step: int)
    requires IsInt32(step)
    ensures OffsetsAgree(rows, step) <==> rows <= 1 || (step >= 0 && RowStart(rows - 1, step) < TWO_32)
  {
    assert Offset32(0, step) == RowStart(0, step);
    if rows > 1 && step < 0 {
      RowOne(step);
      OffsetOfNegative(1, step);
    } else if rows > 1 && RowStart(rows - 1, step) < TWO_32 {
      forall i: nat | i < rows ensures Offset32(i, step) == RowStart(i, step) {
        OffsetExact(i, step);
        RowStartMono(i, rows - 1, step);
      }
    } else if rows > 1 {
      assert Offset32(rows - 1, step) != RowStart(rows - 1, step);
    }
  }

  /** With a stride that is not negative, a wrapped offset still reads inside the rows of the plane. */
  lemma ReadsInside(i: nat, rows: nat, step: nat)
    requires i < rows && step < TWO_31
    ensures Offset32(i, step) <= RowStart(rows - 1, step)
  {
    OffsetExact(i, step);
    RowStartMono(i, rows - 1, step);
  }

  // ---------- Packed rows ----------

  /** The types of the source: `int` dimensions that are not negative, an `int` stride of either sign. */
  predicate Sized(p: Plane, rowBytes: nat, rows: nat) {
    rowBytes < TWO_31 && rows < TWO_31 && IsInt32(p.linesize)
  }

  function ReadRow(p: Plane, from: int, n: nat): (r: seq<byte>)
    ensures |r| == n && forall k | 0 <= k < n :: r[k] == p.mem(from + k)
  {
    seq<byte>(n, k => p.mem(from + k))
  }

  /** The rows of a plane, back to back. */
  ghost function PackedRows(p: Plane, rowBytes: nat, rows: nat): (r: seq<byte>)
    ensures |r| == RowStart(rows, rowBytes)
  {
    if rows == 0 then []
    else PackedRows(p, rowBytes, rows - 1) + ReadRow(p, RowStart(rows - 1, p.linesize), rowBytes)
  }

  /** Byte `c` of row `r` in the packed plane is byte `c` of row `r` in memory. */
  lemma {:induction false} PackedRowsAt(p: Plane, rowBytes: nat, rows: nat, r: nat, c: nat)
    requires r < rows && c < rowBytes
    ensures RowStart(r, rowBytes) + c < RowStart(rows, rowBytes)
    ensures PackedRows(p, rowBytes, rows)[RowStart(r, rowBytes) + c] == p.mem(RowStart(r, p.linesize) + c)
  {
    RowStartMono(r, rows - 1, rowBytes);
    if r < rows - 1 {
      PackedRowsAt(p, rowBytes, rows - 1, r, c);
    }
  }

  // ---------- What the live loop leaves ----------

  function Overwrite(s: seq<byte>, start: nat, bytes: seq<byte>): (r: seq<byte>)
    requires start + |bytes| <= |s|
    ensures |r| == |s|
  {
    s[..start] + bytes + s[start + |bytes|..]
  }

  lemma OverwriteAt(s: seq<byte>, start: nat, bytes: seq<byte>, j: nat)
    requires start + |bytes| <= |s| && j < |s|
    ensures Overwrite(s, start, bytes)[j] == if start <= j < start + |bytes| then bytes[j - start] else s[j]
  {
  }

  lemma WritesInside(i: nat, rowBytes: nat, rows: nat)
    requires i < rows && rowBytes < TWO_31
    ensures Offset32(i, rowBytes) + rowBytes <= RowStart(rows, rowBytes)
  {
    OffsetExact(i, rowBytes);
    RowStartMono(i, rows, rowBytes);
  }

  /**
   * The destination region after `i` rows: each lands where its 32-bit offset points, from where its 32-bit offset
   * points.
   */
  ghost function LiveRows(base: seq<byte>, p: Plane, rowBytes: nat, rows: nat, i: nat): (r: seq<byte>)
    requires rowBytes < TWO_31 && i <= rows && |base| == RowStart(rows, rowBytes)
    ensures |r| == |base|
  {
    if i == 0 then base
    else
      WritesInside(i - 1, rowBytes, rows);
      Overwrite(LiveRows(base, p, rowBytes, rows, i - 1), Offset32(i - 1, rowBytes),
                ReadRow(p, Offset32(i - 1, p.linesize), rowBytes))
  }

  function Zeros(n: nat): (r: seq<byte>)
    ensures |r| == n && forall k | 0 <= k < n :: r[k] == 0
  {
    seq<byte>(n, k => 0)
  }

  /** The region of a buffer just grown, after the live loop. */
  ghost function Live(p: Plane, rowBytes: nat, rows: nat): (r: seq<byte>)
    requires rowBytes < TWO_31
    ensures |r| == RowStart(rows, rowBytes)
  {
    LiveRows(Zeros(RowStart(rows, rowBytes)), p, rowBytes, rows, rows)
  }

  /** No row offset wraps that matters, on either side of the copy. */
  predicate NoWrap(linesize: int, rowBytes: nat, rows: nat) {
    || rows <= 1 || rowBytes == 0
    || (linesize >= 0 && RowStart(rows - 1, linesize) < TWO_32 && RowStart(rows - 1, rowBytes) < TWO_32)
  }

  /** A row whose destination offset has not wrapped leaves what is before it, and lies where it should. */
  lemma LastRow(base: seq<byte>, p: Plane, rowBytes: nat, rows: nat, i: nat, j: nat)
    requires rowBytes < TWO_31 && i < rows && |base| == RowStart(rows, rowBytes)
    requires RowStart(i, rowBytes) < TWO_32 && j < RowStart(i, rowBytes) + rowBytes
    ensures j < |base|
    ensures LiveRows(base, p, rowBytes, rows, i + 1)[j] ==
            if j < RowStart(i, rowBytes) then LiveRows(base, p, rowBytes, rows, i)[j]
            else p.mem(Offset32(i, p.linesize) + (j - RowStart(i, rowBytes)))
  {
    WritesInside(i, rowBytes, rows);
    OffsetExact(i, rowBytes);
    OverwriteAt(LiveRows(base, p, rowBytes, rows, i), RowStart(i, rowBytes),
                ReadRow(p, Offset32(i, p.linesize), rowBytes), j);
  }

  /** Later rows leave what is before row `k`, while no destination offset wraps. */
  lemma {:induction false} EarlierKept(base: seq<byte>, p: Plane, rowBytes: nat, rows: nat, k: nat, i: nat, j: nat)
    requires rowBytes < TWO_31 && k <= i <= rows && |base| == RowStart(rows, rowBytes)
    requires i > 0 ==> RowStart(i - 1, rowBytes) < TWO_32
    requires j < RowStart(k, rowBytes) && j < |base|
    ensures LiveRows(base, p, rowBytes, rows, i)[j] == LiveRows(base, p, rowBytes, rows, k)[j]
    decreases i
  {
    if k < i {
      var last := i - 1;
      RowStartMono(k, last, rowBytes);
      if last > 0 {
        RowStartMono(last - 1, last, rowBytes);
      }
      LastRow(base, p, rowBytes, rows, last, j);
      EarlierKept(base, p, rowBytes, rows, k, last, j);
    }
  }

  /** While no destination offset wraps, row `r` stays where it was written. */
  lemma LiveRowAt(base: seq<byte>, p: Plane, rowBytes: nat, rows: nat, i: nat, r: nat, c: nat)
    requires rowBytes < TWO_31 && i <= rows && |base| == RowStart(rows, rowBytes)
    requires r < i && c < rowBytes && RowStart(rows - 1, rowBytes) < TWO_32
    ensures RowStart(r, rowBytes) + c < |base|
    ensures LiveRows(base, p, rowBytes, rows, i)[RowStart(r, rowBytes) + c] == p.mem(Offset32(r, p.linesize) + c)
  {
    var j := RowStart(r, rowBytes) + c;
    RowStartMono(r, rows - 1, rowBytes);
    RowStartMono(i - 1, rows - 1, rowBytes);
    LastRowAt(base, p, rowBytes, rows, r, c, j);
    EarlierKept(base, p, rowBytes, rows, r + 1, i, j);
  }

  lemma LastRowAt(base: seq<byte>, p: Plane, rowBytes: nat, rows: nat, r: nat, c: nat, j: nat)
    requires rowBytes < TWO_31 && r < rows && |base| == RowStart(rows, rowBytes)
    requires RowStart(r, rowBytes) < TWO_32 && c < rowBytes && j == RowStart(r, rowBytes) + c
    ensures j < |base| && j < RowStart(r + 1, rowBytes)
    ensures LiveRows(base, p, rowBytes, rows, r + 1)[j] == p.mem(Offset32(r, p.linesize) + c)
  {
    LastRow(base, p, rowBytes, rows, r, j);
  }

  /** Without wrapping, the first `i` rows of the region are the packed ones. */
  lemma {:induction false} LivePrefix(base: seq<byte>, p: Plane, rowBytes: nat, rows: nat, i: nat)
    requires rowBytes < TWO_31 && i <= rows && |base| == RowStart(rows, rowBytes) && IsInt32(p.linesize)
    requires OffsetsAgree(rows, p.linesize) && OffsetsAgree(rows, rowBytes)
    ensures RowStart(i, rowBytes) <= |base|
    ensures LiveRows(base, p, rowBytes, rows, i)[..RowStart(i, rowBytes)] == PackedRows(p, rowBytes, i)
  {
    RowStartMono(i, rows, rowBytes);
    if i > 0 {
      LivePrefix(base, p, rowBytes, rows, i - 1);
      WritesInside(i - 1, rowBytes, rows);
      assert Offset32(i - 1, rowBytes) == RowStart(i - 1, rowBytes);
      assert Offset32(i - 1, p.linesize) == RowStart(i - 1, p.linesize);
    }
  }

  lemma {:induction false} NoRowBytes(rows: nat)
    ensures RowStart(rows, 0) == 0
  {
    if rows > 0 {
      NoRowBytes(rows - 1);
    }
  }

  /** Without wrapping, the live loop leaves the packed rows. */
  lemma LiveIsPacked(p: Plane, rowBytes: nat, rows: nat)
    requires Sized(p, rowBytes, rows) && NoWrap(p.linesize, rowBytes, rows)
    ensures Live(p, rowBytes, rows) == PackedRows(p, rowBytes, rows)
  {
    if rowBytes == 0 {
      NoRowBytes(rows);
      assert Live(p, rowBytes, rows) == [] == PackedRows(p, rowBytes, rows);
    } else {
      OffsetsAgreeIff(rows, p.linesize);
      OffsetsAgreeIff(rows, rowBytes);
      LivePrefix(Zeros(RowStart(rows, rowBytes)), p, rowBytes, rows, rows);
    }
  }

  /** A position no row offset reaches keeps its old byte. */
  lemma {:induction false} LiveUntouched(base: seq<byte>, p: Plane, rowBytes: nat, rows: nat, i: nat, j: nat)
    requires rowBytes < TWO_31 && i <= rows && |base| == RowStart(rows, rowBytes)
    requires TWO_32 - 1 + rowBytes <= j < |base|
    ensures LiveRows(base, p, rowBytes, rows, i)[j] == base[j]
  {
    if i > 0 {
      WritesInside(i - 1, rowBytes, rows);
      LiveUntouched(base, p, rowBytes, rows, i - 1, j);
    }
  }

  /** A destination that wraps: the last byte is never written. */
  lemma WrappedEnd(p: Plane, rowBytes: nat, rows: nat)
    requires 0 < rowBytes < TWO_31 && rows > 0 && RowStart(rows - 1, rowBytes) >= TWO_32
    requires p.mem == (x => 1)
    ensures Live(p, rowBytes, rows) != PackedRows(p, rowBytes, rows)
  {
    var last := RowStart(rows, rowBytes) - 1;
    LiveUntouched(Zeros(RowStart(rows, rowBytes)), p, rowBytes, rows, rows, last);
    PackedRowsAt(p, rowBytes, rows, rows - 1, rowBytes - 1);
    assert Live(p, rowBytes, rows)[last] == 0 && PackedRows(p, rowBytes, rows)[last] == 1;
  }

  /** A source offset that is off: a byte that only the right place holds is missing. */
  lemma WrongSource(p: Plane, rowBytes: nat, rows: nat, i: nat)
    requires 0 < rowBytes < TWO_31 && i < rows && RowStart(rows - 1, rowBytes) < TWO_32
    requires Offset32(i, p.linesize) != RowStart(i, p.linesize)
    requires p.mem == (x => if x == RowStart(i, p.linesize) then 1 else 0)
    ensures Live(p, rowBytes, rows) != PackedRows(p, rowBytes, rows)
  {
    LiveRowAt(Zeros(RowStart(rows, rowBytes)), p, rowBytes, rows, rows, i, 0);
    PackedRowsAt(p, rowBytes, rows, i, 0);
  }

  /** The live loop is right for a plane with this memory. */
  ghost predicate RightFor(mem: int -> byte, linesize: int, rowBytes: nat, rows: nat)
    requires rowBytes < TWO_31
  {
    Live(Plane(mem, linesize), rowBytes, rows) == PackedRows(Plane(mem, linesize), rowBytes, rows)
  }

  /** The live loop copies every picture of these dimensions rightly exactly when no offset wraps that matters. */
  lemma LiveIsPackedIff(linesize: int, rowBytes: nat, rows: nat)
    requires rowBytes < TWO_31 && rows < TWO_31 && IsInt32(linesize)
    ensures (forall mem :: RightFor(mem, linesize, rowBytes, rows)) <==> NoWrap(linesize, rowBytes, rows)
  {
    if NoWrap(linesize, rowBytes, rows) {
      forall mem ensures RightFor(mem, linesize, rowBytes, rows) {
        LiveIsPacked(Plane(mem, linesize), rowBytes, rows);
      }
    } else if RowStart(rows - 1, rowBytes) >= TWO_32 {
      var mem: int -> byte := x => 1;
      WrappedEnd(Plane(mem, linesize), rowBytes, rows);
      assert !RightFor(mem, linesize, rowBytes, rows);
    } else {
      OffsetsAgreeIff(rows, linesize);
      var i: nat :| i < rows && Offset32(i, linesize) != RowStart(i, linesize);
      var mem: int -> byte := x => if x == RowStart(i, linesize) then 1 else 0;
      WrongSource(Plane(mem, linesize), rowBytes, rows, i);
      assert !RightFor(mem, linesize, rowBytes, rows);
    }
  }

  /** Where the live loop and the packed rows take row `r` from. */
  lemma RowSources(p: Plane, rowBytes: nat, rows: nat, r: nat, c: nat, start: nat, live: int, exact: int)
    requires Sized(p, rowBytes, rows) && r < rows && c < rowBytes && RowStart(rows - 1, rowBytes) < TWO_32
    requires start == RowStart(r, rowBytes) && live == Offset32(r, p.linesize) && exact == RowStart(r, p.linesize)
    ensures start + c < RowStart(rows, rowBytes)
    ensures Live(p, rowBytes, rows)[start + c] == p.mem(live + c)
    ensures PackedRows(p, rowBytes, rows)[start + c] == p.mem(exact + c)
  {
    LiveRowAt(Zeros(RowStart(rows, rowBytes)), p, rowBytes, rows, rows, r, c);
    PackedRowsAt(p, rowBytes, rows, r, c);
  }

  /**
   * A bottom-up plane, the usual one with a negative stride: every row after the first (of the last 4 GiB) is read
   * 4 GiB behind where it is.
   */
  lemma BottomUpRows(p: Plane, rowBytes: nat, rows: nat, r: nat, c: nat)
    requires Sized(p, rowBytes, rows) && p.linesize < 0 && 0 < r < rows && c < rowBytes
    requires RowStart(rows - 1, rowBytes) < TWO_32 && -TWO_32 <= RowStart(r, p.linesize) < 0
    ensures RowStart(r, rowBytes) + c < RowStart(rows, rowBytes)
    ensures Live(p, rowBytes, rows)[RowStart(r, rowBytes) + c] == p.mem(RowStart(r, p.linesize) + TWO_32 + c)
    ensures PackedRows(p, rowBytes, rows)[RowStart(r, rowBytes) + c] == p.mem(RowStart(r, p.linesize) + c)
  {
    OffsetOfNegative(r, p.linesize);
    RowSources(p, rowBytes, rows, r, c, RowStart(r, rowBytes), Offset32(r, p.linesize), RowStart(r, p.linesize));
  }

  // ---------- The row loops ----------

  /** `memcpy` of `n` bytes of memory from `from` on. */
  method CopyBytes(dest: array<byte>, start: nat, p: Plane, from: int, n: nat)
    requires start + n <= dest.Length
    modifies dest
    ensures forall j | 0 <= j < dest.Length ::
              dest[j] == if start <= j < start + n then p.mem(from + (j - start)) else old(dest[j])
  {
    forall k | 0 <= k < n {
      dest[start + k] := p.mem(from + k);
    }
  }

  /** One row into the region of `n` bytes at `at`. */
  method CopyRow(dest: array<byte>, at: nat, ghost n: nat, start: nat, p: Plane, from: int, rowBytes: nat)
    requires start + rowBytes <= n && at + n <= dest.Length
    modifies dest
    ensures forall j | 0 <= j < dest.Length && !(at <= j < at + n) :: dest[j] == old(dest[j])
    ensures dest[at..at + n] == Overwrite(old(dest[at..at + n]), start, ReadRow(p, from, rowBytes))
  {
    CopyBytes(dest, at + start, p, from, rowBytes);
  }

  /** The live copy loop, for every stride: it writes inside the plane's `n` bytes only, and leaves its rows there. */
  method CopyRows32(dest: array<byte>, at: nat, p: Plane, rowBytes: nat, rows: nat, ghost n: nat)
    requires Sized(p, rowBytes, rows)
    requires n == RowStart(rows, rowBytes) && at + n <= dest.Length
    modifies dest
    ensures forall j | 0 <= j < dest.Length && !(at <= j < at + n) :: dest[j] == old(dest[j])
    ensures dest[at..at + n] == LiveRows(old(dest[at..at + n]), p, rowBytes, rows, rows)
  {
    ghost var base := dest[at..at + n];
    var i := 0;
    while i < rows
      invariant 0 <= i <= rows
      invariant forall j | 0 <= j < dest.Length && !(at <= j < at + n) :: dest[j] == old(dest[j])
      invariant dest[at..at + n] == LiveRows(base, p, rowBytes, rows, i)
    {
      WritesInside(i, rowBytes, rows);
      CopyRow(dest, at, n, Offset32(i, rowBytes), p, Offset32(i, p.linesize), rowBytes);
      i := i + 1;
    }
  }

  /** A `size_t` offset added to a pointer moves it by this signed distance. */
  function Offset64(i: nat, step: int): int {
    var u := (i * (step % TWO_64)) % TWO_64;
    if u >= TWO_63 then u - TWO_64 else u
  }

  lemma Offset64Exact(i: nat, step: int)
    requires i < TWO_31 && IsInt32(step)
    ensures Offset64(i, step) == RowStart(i, step)
  {
    RowStartIs(i, step);
    BoundedProduct(i, step);
    if step >= 0 {
      assert step % TWO_64 == step;
    } else {
      assert step % TWO_64 == step + TWO_64;
      Shifted(i, step);
    }
  }

  lemma MulBound(a: nat, b: nat, top: nat)
    requires a < TWO_31 && b <= top
    ensures 0 <= a * b <= TWO_31 * top
  {
    assert a * b <= a * top by {
      assert a * (top - b) >= 0;
    }
    assert (TWO_31 - a) * top >= 0;
  }

  lemma AtLeastOnce(a: nat, b: nat)
    requires a > 0
    ensures a * b >= b
  {
    assert (a - 1) * b >= 0;
    assert a * b == (a - 1) * b + b;
  }

  lemma MinusOut(a: int, b: int)
    ensures a * (-b) == -(a * b)
  {
  }

  lemma BoundedProduct(i: nat, step: int)
    requires i < TWO_31 && IsInt32(step)
    ensures -TWO_63 < i * step < TWO_63 && (step >= 0 ==> i * step >= 0) && (step < 0 < i ==> i * step < 0)
  {
    if step >= 0 {
      MulBound(i, step, TWO_31);
    } else {
      var m := -step;
      MulBound(i, m, TWO_31);
      MinusOut(i, m);
      if i > 0 {
        AtLeastOnce(i, m);
      }
    }
  }

  lemma Shifted(i: nat, step: int)
    requires i < TWO_31 && -TWO_31 <= step < 0
    ensures (i * (step + TWO_64)) % TWO_64 == if i == 0 then 0 else i * step + TWO_64
  {
    BoundedProduct(i, step);
    if i > 0 {
      assert i * (step + TWO_64) == (i * step + TWO_64) + (i - 1) * TWO_64;
      AddMultiple(i * step + TWO_64, i - 1);
    }
  }

  lemma {:induction false} AddMultiple(r: nat, q: nat)
    requires r < TWO_64
    ensures (r + q * TWO_64) % TWO_64 == r
  {
    if q > 0 {
      AddMultiple(r, q - 1);
    }
  }

  /** Row `i`'s offsets in the destination and the source. */
  method RowOffsets64(i: nat, rowBytes: nat, linesize: int) returns (start: nat, from: int)
    requires i < TWO_31 && rowBytes < TWO_31 && IsInt32(linesize)
    ensures start == RowStart(i, rowBytes) && from == RowStart(i, linesize)
  {
    Offset64Exact(i, rowBytes);
    Offset64Exact(i, linesize);
    start, from := Offset64(i, rowBytes), Offset64(i, linesize);
  }

  /** The 64-bit helper: right for every stride, negative ones included. */
  method CopyPlaneRemoveStride(dest: array<byte>, at: nat, p: Plane, rowBytes: nat, rows: nat, ghost n: nat)
    requires Sized(p, rowBytes, rows)
    requires n == RowStart(rows, rowBytes) && at + n <= dest.Length
    modifies dest
    ensures forall j | 0 <= j < dest.Length && !(at <= j < at + n) :: dest[j] == old(dest[j])
    ensures dest[at..at + n] == PackedRows(p, rowBytes, rows)
  {
    var r := 0;
    while r < rows
      invariant 0 <= r <= rows
      invariant forall j | 0 <= j < dest.Length && !(at <= j < at + n) :: dest[j] == old(dest[j])
      invariant HoldsRows(dest[at..at + n], p, rowBytes, r)
    {
      var start, from := RowOffsets64(r, rowBytes, p.linesize);
      RowStartMono(r, rows, rowBytes);
      ghost var before := dest[at..at + n];
      CopyRow(dest, at, n, start, p, from, rowBytes);
      NextRow(before, dest[at..at + n], p, rowBytes, r);
      r := r + 1;
    }
  }

  ghost predicate HoldsRows(region: seq<byte>, p: Plane, rowBytes: nat, r: nat) {
    RowStart(r, rowBytes) <= |region| && region[..RowStart(r, rowBytes)] == PackedRows(p, rowBytes, r)
  }

  lemma NextRow(before: seq<byte>, after: seq<byte>, p: Plane, rowBytes: nat, r: nat)
    requires HoldsRows(before, p, rowBytes, r) && RowStart(r, rowBytes) + rowBytes <= |before|
    requires after == Overwrite(before, RowStart(r, rowBytes), ReadRow(p, RowStart(r, p.linesize), rowBytes))
    ensures HoldsRows(after, p, rowBytes, r + 1)
  {
  }
}
