/** The filter description a worker builds from a processing configuration, read back and evaluated. */
module FilterSpec {
  import opened Options
  import opened Configs
  import opened Decimal

  datatype Step = Crop(width: int, height: int, x: int, y: int) | Scale(width: int, height: int)

  predicate CropsOn(p: ProcessingConfig) {
    p.crop.width > 0 && p.crop.height > 0
  }

  predicate ScalesOn(p: ProcessingConfig) {
    p.scale.width > 0 && p.scale.height > 0
  }

  /** What a configuration asks for: crop, then scale, each if both its dimensions are positive. */
  function Steps(p: ProcessingConfig): seq<Step> {
    (if CropsOn(p) then [Crop(p.crop.width, p.crop.height, p.crop.x, p.crop.y)] else [])
    + (if ScalesOn(p) then [Scale(p.scale.width, p.scale.height)] else [])
  }

  // ---------- Printing ----------

  const CROP := "crop="
  const SCALE := "scale="

  /** Integers separated by colons. */
  function PrintInts(v: seq<int>): string
    requires v != []
  {
    if |v| == 1 then PrintInt(v[0]) else PrintInt(v[0]) + [':'] + PrintInts(v[1..])
  }

  function PrintStep(st: Step): string {
    match st
    case Crop(w, h, x, y) => CROP + PrintInts([w, h, x, y])
    case Scale(w, h) => SCALE + PrintInts([w, h])
  }

  /** A filter chain in the syntax of the graph parser. */
  function PrintChain(steps: seq<Step>): string {
    if steps == [] then "null"
    else if |steps| == 1 then PrintStep(steps[0])
    else PrintStep(steps[0]) + [','] + PrintChain(steps[1..])
  }

  /** The string the worker appends piece by piece. */
  method BuildSpec(p: ProcessingConfig) returns (spec: string)
    ensures spec == PrintChain(Steps(p))
  {
    spec := "";
    if p.crop.width > 0 && p.crop.height > 0 {
      spec := spec + PrintStep(Crop(p.crop.width, p.crop.height, p.crop.x, p.crop.y));
    }
    if p.scale.width > 0 && p.scale.height > 0 {
      if |spec| > 0 {
        spec := spec + [','];
      }
      spec := spec + PrintStep(Scale(p.scale.width, p.scale.height));
    }
    if spec == "" {
      spec := "null";
    }
    SpecShape(p);
  }

  lemma SpecShape(p: ProcessingConfig)
    ensures var c := PrintStep(Crop(p.crop.width, p.crop.height, p.crop.x, p.crop.y));
            var s := PrintStep(Scale(p.scale.width, p.scale.height));
            && |c| > 0 && |s| > 0 && "" + c == c && "" + s == s
            && PrintChain(Steps(p)) ==
               if CropsOn(p) && ScalesOn(p) then c + [','] + s
               else if CropsOn(p) then c else if ScalesOn(p) then s else "null"
  {
    var crop, scale := Crop(p.crop.width, p.crop.height, p.crop.x, p.crop.y), Scale(p.scale.width, p.scale.height);
    if CropsOn(p) && ScalesOn(p) {
      assert Steps(p) == [crop, scale] && Steps(p)[1..] == [scale];
    } else if CropsOn(p) {
      assert Steps(p) == [crop];
    } else if ScalesOn(p) {
      assert Steps(p) == [scale];
    }
  }

  /** The description letter by letter, in the names and the argument order of FFmpeg's crop and scale filters. */
  lemma SpecText(p: ProcessingConfig)
    ensures var c, s := p.crop, p.scale;
            var crop := ['c', 'r', 'o', 'p', '='] + PrintInt(c.width) + [':'] + PrintInt(c.height)
                        + [':'] + PrintInt(c.x) + [':'] + PrintInt(c.y);
            var scale := ['s', 'c', 'a', 'l', 'e', '='] + PrintInt(s.width) + [':'] + PrintInt(s.height);
            PrintChain(Steps(p)) ==
            if c.width > 0 && c.height > 0 then
              (if s.width > 0 && s.height > 0 then crop + [','] + scale else crop)
            else if s.width > 0 && s.height > 0 then scale
            else ['n', 'u', 'l', 'l']
  {
    var c, s := p.crop, p.scale;
    SpecShape(p);
    CropText(c.width, c.height, c.x, c.y);
    ScaleText(s.width, s.height);
  }

  lemma TwoInts(a: int, b: int)
    ensures PrintInts([a, b]) == PrintInt(a) + [':'] + PrintInt(b)
  {
    assert [a, b][1..] == [b];
  }

  lemma FourInts(a: int, b: int, c: int, d: int)
    ensures PrintInts([a, b, c, d]) == PrintInt(a) + [':'] + (PrintInt(b) + [':'] + PrintInts([c, d]))
  {
    assert [a, b, c, d][1..] == [b, c, d] && [b, c, d][1..] == [c, d];
  }

  lemma FourFlat(name: string, a: string, b: string, c: string, d: string)
    ensures name + (a + [':'] + (b + [':'] + (c + [':'] + d))) == name + a + [':'] + b + [':'] + c + [':'] + d
  {
  }

  lemma CropText(w: int, h: int, x: int, y: int)
    ensures PrintStep(Crop(w, h, x, y)) ==
            ['c', 'r', 'o', 'p', '='] + PrintInt(w) + [':'] + PrintInt(h) + [':'] + PrintInt(x) + [':'] + PrintInt(y)
  {
    FourInts(w, h, x, y);
    TwoInts(x, y);
    FourFlat(CROP, PrintInt(w), PrintInt(h), PrintInt(x), PrintInt(y));
  }

  lemma ScaleText(w: int, h: int)
    ensures PrintStep(Scale(w, h)) == ['s', 'c', 'a', 'l', 'e', '='] + PrintInt(w) + [':'] + PrintInt(h)
  {
    TwoInts(w, h);
    assert SCALE + (PrintInt(w) + [':'] + PrintInt(h)) == SCALE + PrintInt(w) + [':'] + PrintInt(h);
  }

  // ---------- Parsing ----------

  /** Reads `n` integers separated by colons. */
  function ReadInts(s: string, n: nat): (r: Option<(seq<int>, string)>)
    requires n > 0
    ensures r.Some? ==> |r.value.0| == n && |r.value.1| <= |s|
    decreases n
  {
    var (v, rest) := ReadInt(s);
    if n == 1 then Some(([v], rest))
    else if rest == "" || rest[0] != ':' then None
    else
      match ReadInts(rest[1..], n - 1)
      case None => None
      case Some((vs, after)) => Some(([v] + vs, after))
  }

  function ReadStep(s: string): (r: Option<(Step, string)>)
    ensures r.Some? ==> |r.value.1| < |s|
  {
    if CROP <= s then
      match ReadInts(s[|CROP|..], 4)
      case None => None
      case Some((v, rest)) => Some((Crop(v[0], v[1], v[2], v[3]), rest))
    else if SCALE <= s then
      match ReadInts(s[|SCALE|..], 2)
      case None => None
      case Some((v, rest)) => Some((Scale(v[0], v[1]), rest))
    else None
  }

  function ParseChain(s: string): Option<seq<Step>>
    decreases |s|
  {
    if s == "null" then Some([])
    else
      match ReadStep(s)
      case None => None
      case Some((st, rest)) =>
        if rest == "" then Some([st])
        else if rest[0] != ',' then None
        else
          match ParseChain(rest[1..])
          case None => None
          case Some(steps) => Some([st] + steps)
  }

  lemma ReadIntsCons(s: string, v: int, tail: string, vs: seq<int>, rest: string)
    requires ReadInt(s) == (v, [':'] + tail) && vs != [] && ReadInts(tail, |vs|) == Some((vs, rest))
    ensures ReadInts(s, |vs| + 1) == Some(([v] + vs, rest))
  {
    assert ([':'] + tail)[1..] == tail;
  }

  lemma {:induction false} ReadPrintedInts(v: seq<int>, rest: string)
    requires v != [] && Stops(rest)
    ensures ReadInts(PrintInts(v) + rest, |v|) == Some((v, rest))
  {
    if |v| == 1 {
      assert v == [v[0]];
      ReadPrinted(v[0], rest);
    } else {
      var tail := PrintInts(v[1..]) + rest;
      assert PrintInts(v) + rest == PrintInt(v[0]) + ([':'] + tail);
      ReadPrinted(v[0], [':'] + tail);
      ReadPrintedInts(v[1..], rest);
      ReadIntsCons(PrintInts(v) + rest, v[0], tail, v[1..], rest);
      assert [v[0]] + v[1..] == v;
    }
  }

  lemma Prefixed(name: string, body: string, rest: string)
    ensures var s := name + body + rest; name <= s && s[|name|..] == body + rest
    ensures name != "" ==> name + body + rest != "" && (name + body + rest)[0] == name[0]
  {
    assert (name + body + rest)[|name|..] == body + rest;
  }

  lemma ReadPrintedCrop(w: int, h: int, x: int, y: int, rest: string)
    requires Stops(rest)
    ensures ReadStep(PrintStep(Crop(w, h, x, y)) + rest) == Some((Crop(w, h, x, y), rest))
  {
    Prefixed(CROP, PrintInts([w, h, x, y]), rest);
    ReadPrintedInts([w, h, x, y], rest);
  }

  lemma ReadPrintedScale(w: int, h: int, rest: string)
    requires Stops(rest)
    ensures ReadStep(PrintStep(Scale(w, h)) + rest) == Some((Scale(w, h), rest))
  {
    Prefixed(SCALE, PrintInts([w, h]), rest);
    ReadPrintedInts([w, h], rest);
    assert SCALE[0] != CROP[0];
  }

  lemma ReadPrintedStep(st: Step, rest: string)
    requires Stops(rest)
    ensures ReadStep(PrintStep(st) + rest) == Some((st, rest))
    ensures PrintStep(st) + rest != "" && (PrintStep(st) + rest)[0] != 'n'
  {
    match st
    case Crop(w, h, x, y) =>
      ReadPrintedCrop(w, h, x, y, rest);
      Prefixed(CROP, PrintInts([w, h, x, y]), rest);
    case Scale(w, h) =>
      ReadPrintedScale(w, h, rest);
      Prefixed(SCALE, PrintInts([w, h]), rest);
  }

  lemma ParseLast(st: Step)
    ensures ParseChain(PrintStep(st)) == Some([st])
  {
    assert PrintStep(st) + "" == PrintStep(st);
    ReadPrintedStep(st, "");
  }

  lemma ParseMore(st: Step, chain: string, steps: seq<Step>)
    requires ParseChain(chain) == Some(steps)
    ensures ParseChain(PrintStep(st) + [','] + chain) == Some([st] + steps)
  {
    var tail := [','] + chain;
    assert PrintStep(st) + [','] + chain == PrintStep(st) + tail;
    assert tail[1..] == chain;
    ReadPrintedStep(st, tail);
  }

  /** Every chain reads back to its steps. */
  lemma {:induction false} ChainRoundTrip(steps: seq<Step>)
    ensures ParseChain(PrintChain(steps)) == Some(steps)
  {
    if |steps| == 1 {
      ParseLast(steps[0]);
      assert steps == [steps[0]];
    } else if |steps| > 1 {
      ChainRoundTrip(steps[1..]);
      ParseMore(steps[0], PrintChain(steps[1..]), steps[1..]);
      assert [steps[0]] + steps[1..] == steps;
    }
  }

  /** The worker's string means exactly the enabled steps, crop before scale, or none. */
  lemma SpecMeansSteps(p: ProcessingConfig)
    ensures ParseChain(PrintChain(Steps(p))) == Some(Steps(p))
  {
    ChainRoundTrip(Steps(p));
  }

  // ---------- Dimensions ----------

  datatype Size = Size(width: int, height: int)

  function OutputSize(st: Step): Size {
    Size(st.width, st.height)
  }

  /** The size a step makes of a frame; a crop must lie inside it. */
  function EvalStep(st: Step, size: Size): Option<Size> {
    match st
    case Crop(w, h, x, y) =>
      if 0 <= x && 0 <= y && x + w <= size.width && y + h <= size.height then Some(OutputSize(st)) else None
    case Scale(_, _) => Some(OutputSize(st))
  }

  function EvalChain(steps: seq<Step>, size: Size): Option<Size> {
    if steps == [] then Some(size)
    else match EvalStep(steps[0], size)
      case None => None
      case Some(next) => EvalChain(steps[1..], next)
  }

  /** The dimensions `worker_loop` checks each processed frame against. */
  method ExpectedSize(p: ProcessingConfig, original: Size) returns (expected: Size)
    ensures (CropsOn(p) ==> EvalStep(Crop(p.crop.width, p.crop.height, p.crop.x, p.crop.y), original).Some?)
       <==> EvalChain(Steps(p), original) == Some(expected)
    ensures expected == if Steps(p) == [] then original else OutputSize(Steps(p)[|Steps(p)| - 1])
  {
    expected := original;
    if p.scale.width > 0 && p.scale.height > 0 {
      expected := Size(p.scale.width, p.scale.height);
    } else if p.crop.width > 0 && p.crop.height > 0 {
      expected := Size(p.crop.width, p.crop.height);
    }
    ChainSize(p, original);
  }

  lemma ChainSize(p: ProcessingConfig, original: Size)
    ensures var crop := Crop(p.crop.width, p.crop.height, p.crop.x, p.crop.y);
            var cropped := if CropsOn(p) then EvalStep(crop, original) else Some(original);
            EvalChain(Steps(p), original) ==
            if cropped.None? then None
            else if ScalesOn(p) then Some(Size(p.scale.width, p.scale.height)) else cropped
  {
    var crop, scale := Crop(p.crop.width, p.crop.height, p.crop.x, p.crop.y), Scale(p.scale.width, p.scale.height);
    if CropsOn(p) && ScalesOn(p) {
      assert Steps(p) == [crop, scale] && Steps(p)[1..] == [scale] && [scale][1..] == [];
      var cropped := EvalStep(crop, original);
      if cropped.Some? {
        assert EvalChain([scale], cropped.value) == EvalChain([], Size(p.scale.width, p.scale.height));
      }
    } else if CropsOn(p) {
      assert Steps(p) == [crop] && [crop][1..] == [];
    } else if ScalesOn(p) {
      assert Steps(p) == [scale] && [scale][1..] == [];
    }
  }
}
