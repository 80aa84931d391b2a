/** The bytes of a batch: what the batcher appends per frame, and the consumer's reader as its inverse. */
module Blob {
  import opened Options
  import opened Widths
  import opened FrameFormat

  // ---------- Little-endian integers ----------

  function Pow256(k: nat): (p: nat)
    ensures p >= 1
  {
    if k == 0 then 1 else 256 * Pow256(k - 1)
  }

  function ToLe(n: nat, k: nat): (r: seq<byte>)
    ensures |r| == k
  {
    if k == 0 then [] else [n % 256] + ToLe(n / 256, k - 1)
  }

  function FromLe(s: seq<byte>): nat {
    if s == [] then 0 else s[0] + 256 * FromLe(s[1..])
  }

  lemma {:induction false} LeRead(n: nat, k: nat)
    requires n < Pow256(k)
    ensures FromLe(ToLe(n, k)) == n
  {
    if k > 0 {
      LeRead(n / 256, k - 1);
      assert ToLe(n, k)[1..] == ToLe(n / 256, k - 1);
    }
  }

  lemma {:induction false} LeWrite(s: seq<byte>)
    ensures FromLe(s) < Pow256(|s|) && ToLe(FromLe(s), |s|) == s
  {
    if s != [] {
      LeWrite(s[1..]);
      assert FromLe(s) / 256 == FromLe(s[1..]) && FromLe(s) % 256 == s[0];
    }
  }

  /** The first byte weighs least. */
  lemma {:induction false} FromLeSnoc(s: seq<byte>, b: byte)
    ensures FromLe(s + [b]) == FromLe(s) + b * Pow256(|s|)
  {
    if s == [] {
      assert [b][1..] == [] && s + [b] == [b];
    } else {
      assert (s + [b])[1..] == s[1..] + [b];
      FromLeSnoc(s[1..], b);
      Scaled(b, Pow256(|s| - 1));
    }
  }

  lemma Scaled(b: nat, p: nat)
    ensures 256 * (b * p) == b * (256 * p)
  {
  }

  lemma LittleEndianExample()
    ensures ToLe(0x0A0B0C0D, 4) == [0x0D, 0x0C, 0x0B, 0x0A]
  {
    assert ToLe(0x0A, 1) == [0x0A] && ToLe(0x0A0B, 2) == [0x0B, 0x0A] && ToLe(0x0A0B0C, 3) == [0x0C, 0x0B, 0x0A];
  }

  lemma PowerWidths()
    ensures Pow256(4) == TWO_32 && Pow256(8) == TWO_64
  {
    assert Pow256(2) == 65536;
    assert Pow256(4) == 65536 * 65536;
    assert Pow256(6) == 65536 * TWO_32;
  }

  /** Two's complement, 64 bits. */
  function ToU64(pts: int): nat
    requires -TWO_63 <= pts < TWO_63
  {
    if pts < 0 then pts + TWO_64 else pts
  }

  function FromU64(u: nat): int {
    if u >= TWO_63 then u - TWO_64 else u
  }

  // ---------- Entries ----------

  function YSize(w: nat, h: nat): nat {
    w * h
  }

  /** Both halvings are integer divisions: an odd last row or column of chroma is not kept. */
  function ChromaSize(w: nat, h: nat): nat {
    (w / 2) * (h / 2)
  }

  function EntrySize(w: nat, h: nat): nat {
    HEADER_BYTES + YSize(w, h) + ChromaSize(w, h) + ChromaSize(w, h)
  }

  predicate ValidImage(img: Image) {
    && -TWO_63 <= img.pts < TWO_63
    && 0 <= img.width < TWO_32 && 0 <= img.height < TWO_32
    && |img.y| == YSize(img.width, img.height)
    && |img.u| == |img.v| == ChromaSize(img.width, img.height)
  }

  function Header(img: Image): (r: seq<byte>)
    requires ValidImage(img)
    ensures |r| == HEADER_BYTES
  {
    ToLe(ToU64(img.pts), 8) + ToLe(img.width, 4) + ToLe(img.height, 4)
  }

  function Encode(img: Image): (r: seq<byte>)
    requires ValidImage(img)
    ensures |r| == EntrySize(img.width, img.height)
  {
    Header(img) + img.y + img.u + img.v
  }

  ghost predicate AllValid(images: seq<Image>) {
    forall i | 0 <= i < |images| :: ValidImage(images[i])
  }

  ghost function EncodeAll(images: seq<Image>): seq<byte>
    requires AllValid(images)
  {
    if images == [] then [] else Encode(images[0]) + EncodeAll(images[1..])
  }

  lemma {:induction false} EncodeAllSnoc(images: seq<Image>, img: Image)
    requires AllValid(images) && ValidImage(img)
    ensures EncodeAll(images + [img]) == EncodeAll(images) + Encode(img)
  {
    if images == [] {
      assert EncodeAll([img][1..]) == [];
    } else {
      assert (images + [img])[1..] == images[1..] + [img];
      EncodeAllSnoc(images[1..], img);
    }
  }

  /** Where everything is: the header fields, then the planes, by their sizes in bytes. */
  lemma EntryLayout(img: Image)
    requires ValidImage(img)
    ensures var e, y, c := Encode(img), img.width * img.height, (img.width / 2) * (img.height / 2);
            && |e| == 16 + y + c + c
            && FromLe(e[0..8]) == (if img.pts < 0 then img.pts + TWO_64 else img.pts)
            && FromLe(e[8..12]) == img.width && FromLe(e[12..16]) == img.height
            && e[16..16 + y] == img.y && e[16 + y..16 + y + c] == img.u && e[16 + y + c..] == img.v
  {
    var e, header := Encode(img), Header(img);
    PowerWidths();
    LeRead(ToU64(img.pts), 8);
    LeRead(img.width, 4);
    LeRead(img.height, 4);
    assert e == header + (img.y + img.u + img.v);
    assert e[0..8] == header[0..8] == ToLe(ToU64(img.pts), 8);
    assert e[8..12] == header[8..12] == ToLe(img.width, 4);
    assert e[12..16] == header[12..16] == ToLe(img.height, 4);
    PlanesAt(header, img.y, img.u, img.v);
  }

  lemma PlanesAt(a: seq<byte>, y: seq<byte>, u: seq<byte>, v: seq<byte>)
    ensures var e, i, j := a + y + u + v, |a| + |y|, |a| + |y| + |u|;
            e[|a|..i] == y && e[i..j] == u && e[j..] == v
  {
  }

  // ---------- The documented reader ----------

  /** Reads one entry off the front of `b`; `None` when `b` ends before the entry does. */
  function ReadEntry(b: seq<byte>): Option<(Image, seq<byte>)> {
    if |b| < HEADER_BYTES then None
    else
      var pts, w, h := FromU64(FromLe(b[..8])), FromLe(b[8..12]), FromLe(b[12..16]);
      var atU := HEADER_BYTES + YSize(w, h);
      var atV := atU + ChromaSize(w, h);
      var end := atV + ChromaSize(w, h);
      if |b| < end then None
      else Some((Image(pts, w, h, b[HEADER_BYTES..atU], b[atU..atV], b[atV..end]), b[end..]))
  }

  function Parse(b: seq<byte>): Option<seq<Image>>
    decreases |b|
  {
    if b == [] then Some([])
    else match ReadEntry(b)
      case None => None
      case Some((img, rest)) =>
        match Parse(rest)
        case None => None
        case Some(images) => Some([img] + images)
  }

  lemma HeaderRead(img: Image)
    requires ValidImage(img)
    ensures var hd := Header(img);
            && FromU64(FromLe(hd[..8])) == img.pts
            && FromLe(hd[8..12]) == img.width && FromLe(hd[12..16]) == img.height
  {
    PowerWidths();
    LeRead(ToU64(img.pts), 8);
    LeRead(img.width, 4);
    LeRead(img.height, 4);
    var hd := Header(img);
    assert hd[..8] == ToLe(ToU64(img.pts), 8);
    assert hd[8..12] == ToLe(img.width, 4);
    assert hd[12..16] == ToLe(img.height, 4);
  }

  /** Four parts laid end to end come back by their lengths. */
  lemma Slices(a: seq<byte>, y: seq<byte>, u: seq<byte>, v: seq<byte>, rest: seq<byte>)
    ensures var b := a + y + u + v + rest; var i := |a|; var j := i + |y|; var k := j + |u|; var l := k + |v|;
            b[..i] == a && b[i..j] == y && b[j..k] == u && b[k..l] == v && b[l..] == rest
  {
  }

  lemma ReadEncoded(img: Image, rest: seq<byte>)
    requires ValidImage(img)
    ensures ReadEntry(Encode(img) + rest) == Some((img, rest))
  {
    var b, hd := Encode(img) + rest, Header(img);
    HeaderRead(img);
    Slices(hd, img.y, img.u, img.v, rest);
    assert b == hd + img.y + img.u + img.v + rest;
    assert b[..8] == hd[..8] && b[8..12] == hd[8..12] && b[12..16] == hd[12..16];
  }

  lemma FieldRange(b: seq<byte>)
    requires |b| >= HEADER_BYTES
    ensures -TWO_63 <= FromU64(FromLe(b[..8])) < TWO_63
    ensures FromLe(b[8..12]) < TWO_32 && FromLe(b[12..16]) < TWO_32
  {
    PowerWidths();
    LeWrite(b[..8]);
    LeWrite(b[8..12]);
    LeWrite(b[12..16]);
  }

  /** A header is the only encoding of what it reads as. */
  lemma HeaderIsCanonical(b: seq<byte>, img: Image)
    requires |b| >= HEADER_BYTES && ValidImage(img)
    requires img.pts == FromU64(FromLe(b[..8])) && img.width == FromLe(b[8..12]) && img.height == FromLe(b[12..16])
    ensures Header(img) == b[..HEADER_BYTES]
  {
    LeWrite(b[..8]);
    LeWrite(b[8..12]);
    LeWrite(b[12..16]);
    assert Header(img) == b[..8] + b[8..12] + b[12..16];
  }

  lemma Pieces(b: seq<byte>, i: nat, j: nat, k: nat, l: nat)
    requires i <= j <= k <= l <= |b|
    ensures b == b[..i] + b[i..j] + b[j..k] + b[k..l] + b[l..]
  {
  }

  /** What was read is what was written. */
  lemma ReadIsEncoded(b: seq<byte>)
    requires ReadEntry(b).Some?
    ensures var (img, rest) := ReadEntry(b).value; ValidImage(img) && b == Encode(img) + rest
  {
    FieldRange(b);
    var (img, rest) := ReadEntry(b).value;
    HeaderIsCanonical(b, img);
    var atU := HEADER_BYTES + YSize(img.width, img.height);
    var atV := atU + ChromaSize(img.width, img.height);
    Pieces(b, HEADER_BYTES, atU, atV, atV + ChromaSize(img.width, img.height));
  }

  /** Every blob the batcher can build reads back to exactly its images, in order. */
  lemma {:induction false} RoundTrip(images: seq<Image>)
    requires AllValid(images)
    ensures Parse(EncodeAll(images)) == Some(images)
  {
    if images != [] {
      RoundTrip(images[1..]);
      ReadEncoded(images[0], EncodeAll(images[1..]));
      assert [images[0]] + images[1..] == images;
    }
  }

  /** Every blob the reader accepts is one the batcher could have built, from those images only. */
  lemma {:induction false} ParseOnlyEncoded(b: seq<byte>)
    requires Parse(b).Some?
    ensures AllValid(Parse(b).value) && EncodeAll(Parse(b).value) == b
    decreases |b|
  {
    if b != [] {
      ReadIsEncoded(b);
      var (img, rest) := ReadEntry(b).value;
      ParseOnlyEncoded(rest);
      assert ([img] + Parse(rest).value)[1..] == Parse(rest).value;
    }
  }

  // ---------- The frame behind an entry ----------

  /** A frame within the types of its fields, with dimensions that are not negative. */
  predicate Typed(f: AvFrame) {
    && -TWO_63 <= f.pts < TWO_63
    && 0 <= f.width < TWO_31 && 0 <= f.height < TWO_31
    && IsInt32(f.y.linesize) && IsInt32(f.u.linesize) && IsInt32(f.v.linesize)
  }

  /** Any frame of `int` dimensions and strides is one. */
  lemma TypedIff(f: AvFrame)
    ensures Typed(f)
       <==> && -0x8000_0000_0000_0000 <= f.pts < 0x8000_0000_0000_0000
            && 0 <= f.width < 0x8000_0000 && 0 <= f.height < 0x8000_0000
            && forall p | p in [f.y.linesize, f.u.linesize, f.v.linesize] :: -0x8000_0000 <= p < 0x8000_0000
  {
    var strides := [f.y.linesize, f.u.linesize, f.v.linesize];
    assert f.y.linesize in strides && f.u.linesize in strides && f.v.linesize in strides;
  }

  lemma PlaneSizes(w: nat, h: nat)
    ensures RowStart(h, w) == YSize(w, h) && RowStart(h / 2, w / 2) == ChromaSize(w, h)
  {
    RowStartIs(h, w);
    RowStartIs(h / 2, w / 2);
  }

  /** The stride-free content of a frame. */
  ghost function ImageOf(f: AvFrame): (img: Image)
    requires Typed(f)
    ensures ValidImage(img)
  {
    PlaneSizes(f.width, f.height);
    Image(f.pts, f.width, f.height,
          PackedRows(f.y, f.width, f.height),
          PackedRows(f.u, f.width / 2, f.height / 2),
          PackedRows(f.v, f.width / 2, f.height / 2))
  }

  /** What the live copy loops make of it. */
  ghost function LiveImage(f: AvFrame): (img: Image)
    requires Typed(f)
    ensures ValidImage(img)
  {
    PlaneSizes(f.width, f.height);
    Image(f.pts, f.width, f.height,
          Live(f.y, f.width, f.height),
          Live(f.u, f.width / 2, f.height / 2),
          Live(f.v, f.width / 2, f.height / 2))
  }

  /** No row offset of any plane wraps. */
  predicate NoFrameWrap(f: AvFrame)
    requires Typed(f)
  {
    && NoWrap(f.y.linesize, f.width, f.height)
    && NoWrap(f.u.linesize, f.width / 2, f.height / 2)
    && NoWrap(f.v.linesize, f.width / 2, f.height / 2)
  }

  /** The same frame around other memory. */
  function WithMemory(f: AvFrame, my: int -> byte, mu: int -> byte, mv: int -> byte): AvFrame {
    f.(y := f.y.(mem := my), u := f.u.(mem := mu), v := f.v.(mem := mv))
  }

  ghost predicate LiveIsRight(f: AvFrame, my: int -> byte, mu: int -> byte, mv: int -> byte)
    requires Typed(f)
  {
    LiveImage(WithMemory(f, my, mu, mv)) == ImageOf(WithMemory(f, my, mu, mv))
  }

  lemma LiveIsImage(f: AvFrame)
    requires Typed(f) && NoFrameWrap(f)
    ensures LiveImage(f) == ImageOf(f)
  {
    LiveIsPacked(f.y, f.width, f.height);
    LiveIsPacked(f.u, f.width / 2, f.height / 2);
    LiveIsPacked(f.v, f.width / 2, f.height / 2);
  }

  /**
   * Every picture of these dimensions and strides is serialized rightly exactly when no row offset of any plane
   * wraps.
   */
  lemma LiveIsImageIff(f: AvFrame)
    requires Typed(f)
    ensures (forall my, mu, mv :: LiveIsRight(f, my, mu, mv)) <==> NoFrameWrap(f)
  {
    var w, h, cw, ch := f.width, f.height, f.width / 2, f.height / 2;
    if NoFrameWrap(f) {
      forall my, mu, mv ensures LiveIsRight(f, my, mu, mv) {
        LiveIsImage(WithMemory(f, my, mu, mv));
      }
    } else if !NoWrap(f.y.linesize, w, h) {
      LiveIsPackedIff(f.y.linesize, w, h);
      var m :| !RightFor(m, f.y.linesize, w, h);
      assert !LiveIsRight(f, m, m, m);
    } else if !NoWrap(f.u.linesize, cw, ch) {
      LiveIsPackedIff(f.u.linesize, cw, ch);
      var m :| !RightFor(m, f.u.linesize, cw, ch);
      assert !LiveIsRight(f, m, m, m);
    } else {
      LiveIsPackedIff(f.v.linesize, cw, ch);
      var m :| !RightFor(m, f.v.linesize, cw, ch);
      assert !LiveIsRight(f, m, m, m);
    }
  }

  /** Sample (r, c) of every plane survives, for every row and column the entry keeps. */
  lemma ImageSamples(f: AvFrame, r: nat, c: nat)
    requires Typed(f)
    ensures r < f.height && c < f.width ==> SameSample(ImageOf(f).y, f.width, f.y, r, c)
    ensures r < f.height / 2 && c < f.width / 2 ==>
              SameSample(ImageOf(f).u, f.width / 2, f.u, r, c) && SameSample(ImageOf(f).v, f.width / 2, f.v, r, c)
  {
    if r < f.height && c < f.width {
      SampleKept(f.y, f.width, f.height, r, c);
    }
    if r < f.height / 2 && c < f.width / 2 {
      SampleKept(f.u, f.width / 2, f.height / 2, r, c);
      SampleKept(f.v, f.width / 2, f.height / 2, r, c);
    }
  }

  ghost predicate SameSample(packed: seq<byte>, width: nat, p: Plane, r: nat, c: nat) {
    && 0 <= r * width + c < |packed|
    && packed[r * width + c] == p.mem(r * p.linesize + c)
  }

  lemma SampleKept(p: Plane, w: nat, h: nat, r: nat, c: nat)
    requires r < h && c < w
    ensures SameSample(PackedRows(p, w, h), w, p, r, c)
  {
    RowStartIs(r, w);
    RowStartIs(r, p.linesize);
    PackedRowsAt(p, w, h, r, c);
  }

  /**
   * YUV420P has ceil(w/2) by ceil(h/2) chroma samples: the entry keeps all of them exactly when no dimension is odd
   * (or there are none).
   */
  lemma ChromaLossless(w: nat, h: nat)
    ensures ChromaSize(w, h) == ((w + 1) / 2) * ((h + 1) / 2)
       <==> (w % 2 == 0 && h % 2 == 0) || w == 0 || h == 0
  {
    var a, b := w / 2, h / 2;
    var a', b' := (w + 1) / 2, (h + 1) / 2;
    assert a' == a + w % 2 && b' == b + h % 2;
    assert a' * b' == a * b + (w % 2) * b + (h % 2) * a + (w % 2) * (h % 2);
  }
}
