/** The comma-separated list of allowed stream ids. */
module Whitelist {
  import opened Options

  /** The text before the first comma. */
  function Head(s: string): string
    decreases |s|
  {
    if s == "" || s[0] == ',' then "" else [s[0]] + Head(s[1..])
  }

  lemma {:induction false} HeadIs(s: string)
    ensures Head(s) <= s && ',' !in Head(s)
    ensures |Head(s)| < |s| <==> ',' in s
    ensures |Head(s)| < |s| ==> s[|Head(s)|] == ','
    decreases |s|
  {
    if s != "" && s[0] != ',' {
      HeadIs(s[1..]);
      assert s == [s[0]] + s[1..];
    }
  }

  /** The pieces between commas. */
  function Split(s: string): seq<string>
    decreases |s|
  {
    HeadIs(s);
    if ',' in s then [Head(s)] + Split(s[|Head(s)| + 1..]) else [s]
  }

  function Join(pieces: seq<string>): string {
    if pieces == [] then "" else if |pieces| == 1 then pieces[0] else pieces[0] + [','] + Join(pieces[1..])
  }

  lemma {:induction false} HeadOfPiece(piece: string, rest: string)
    requires ',' !in piece
    ensures Head(piece + [','] + rest) == piece
    decreases |piece|
  {
    var s := piece + [','] + rest;
    if piece != "" {
      assert s[1..] == piece[1..] + [','] + rest;
      HeadOfPiece(piece[1..], rest);
    }
  }

  /** Splitting undoes joining, for pieces without commas. */
  lemma {:induction false} SplitJoin(pieces: seq<string>)
    requires pieces != [] && forall p | p in pieces :: ',' !in p
    ensures Split(Join(pieces)) == pieces
  {
    assert pieces[0] in pieces;
    if |pieces| > 1 {
      var rest := Join(pieces[1..]);
      HeadOfPiece(pieces[0], rest);
      assert Join(pieces)[|pieces[0]| + 1..] == rest;
      assert Join(pieces)[|pieces[0]|] == ',';
      SplitJoin(pieces[1..]);
    }
  }

  /** ... and every text is its pieces joined, none of which has a comma. */
  lemma {:induction false} JoinSplit(s: string)
    ensures Split(s) != [] && Join(Split(s)) == s && forall p | p in Split(s) :: ',' !in p
    decreases |s|
  {
    if ',' in s {
      HeadIs(s);
      var rest := s[|Head(s)| + 1..];
      JoinSplit(rest);
      JoinMore(Head(s), Split(rest));
      Rejoined(s, |Head(s)|);
    }
  }

  lemma JoinMore(piece: string, pieces: seq<string>)
    requires pieces != []
    ensures Join([piece] + pieces) == piece + [','] + Join(pieces)
  {
    assert ([piece] + pieces)[1..] == pieces;
  }

  lemma Rejoined(s: string, i: nat)
    requires i < |s|
    ensures s == s[..i] + [s[i]] + s[i + 1..]
  {
  }

  /** All non-empty pieces read as ids; `None` if one does not. */
  function ReadIds(read: string -> Option<int>, pieces: seq<string>): Option<set<int>> {
    if pieces == [] then Some({})
    else if pieces[0] == "" then ReadIds(read, pieces[1..])
    else
      match (read(pieces[0]), ReadIds(read, pieces[1..]))
      case (Some(id), Some(ids)) => Some({id} + ids)
      case _ => None
  }

  lemma {:induction false} ReadIdsIs(read: string -> Option<int>, pieces: seq<string>)
    ensures ReadIds(read, pieces).Some? <==> forall p | p in pieces && p != "" :: read(p).Some?
    ensures ReadIds(read, pieces).Some? ==>
              forall id :: id in ReadIds(read, pieces).value
                           <==> exists p :: p in pieces && p != "" && read(p) == Some(id)
  {
    if pieces != [] {
      ReadIdsIs(read, pieces[1..]);
      assert pieces == [pieces[0]] + pieces[1..];
      assert pieces[0] in pieces;
    }
  }

  /** Ids read so far joined with those still to come. */
  function Merge(ids: set<int>, more: Option<set<int>>): Option<set<int>> {
    match more case None => None case Some(s) => Some(ids + s)
  }

  lemma MergeNone(more: Option<set<int>>)
    ensures Merge({}, more) == more
  {
    match more
    case None =>
    case Some(s) => assert {} + s == s;
  }

  /** Reading the first piece of a text with a comma, then the rest. */
  lemma ReadFirst(read: string -> Option<int>, text: string, ids: set<int>)
    requires ',' in text
    ensures |Head(text)| < |text|
    ensures var rest := ReadIds(read, Split(text[|Head(text)| + 1..]));
            Merge(ids, ReadIds(read, Split(text))) ==
            if Head(text) == "" then Merge(ids, rest)
            else match read(Head(text)) case None => None case Some(id) => Merge(ids + {id}, rest)
  {
    HeadIs(text);
    var left := Split(text[|Head(text)| + 1..]);
    assert Split(text) == [Head(text)] + left;
    assert Split(text)[1..] == left;
    if Head(text) != "" && read(Head(text)).Some? && ReadIds(read, left).Some? {
      var id, more := read(Head(text)).value, ReadIds(read, left).value;
      assert ids + ({id} + more) == (ids + {id}) + more;
    }
  }

  /** Reading a text without a comma. */
  lemma ReadLast(read: string -> Option<int>, text: string, ids: set<int>)
    requires ',' !in text
    ensures Merge(ids, ReadIds(read, Split(text))) ==
            if text == "" then Some(ids)
            else match read(text) case None => None case Some(id) => Some(ids + {id})
  {
    assert Split(text) == [text];
    assert ReadIds(read, []) == Some({});
    assert ids + {} == ids;
    if text != "" && read(text).Some? {
      assert {read(text).value} + {} == {read(text).value};
    }
  }

  /**
   * The constructor's loop, erasing one piece after the other; `read` is the library's integer parser, whose failure
   * ends the construction. A text that is not empty always switches the whitelist on, even if it names no id.
   */
  method ParseWhitelist(text: string, read: string -> Option<int>) returns (hasWhitelist: bool, ids: Option<set<int>>)
    ensures hasWhitelist == (text != "")
    ensures ids == if text == "" then Some({}) else ReadIds(read, Split(text))
  {
    hasWhitelist, ids := false, Some({});
    if text == "" {
      return;
    }
    hasWhitelist := true;
    var left := text;
    MergeNone(ReadIds(read, Split(text)));
    while ',' in left
      invariant ids.Some?
      invariant ReadIds(read, Split(text)) == Merge(ids.value, ReadIds(read, Split(left)))
      decreases |left|
    {
      ReadFirst(read, left, ids.value);
      var piece := Head(left);
      if piece != "" {
        match read(piece) {
          case None =>
            ids := None;
            return;
          case Some(id) => ids := Some(ids.value + {id});
        }
      }
      left := left[|piece| + 1..];
    }
    ReadLast(read, left, ids.value);
    if left != "" {
      match read(left) {
        case None => ids := None;
        case Some(id) => ids := Some(ids.value + {id});
      }
    }
  }
}
