/** Query strings as the listing page writes them and the products route
    reads them through `URLSearchParams`: `name=value` pieces joined by `&`.
    Percent-decoding and `+` as a space are not part of this model. */
module QueryString {

  import opened Wrappers
  import opened Text

  type Param = (string, string)

  function Piece(p: Param): string
  {
    p.0 + "=" + p.1
  }

  function Pieces(params: seq<Param>): (r: seq<string>)
    ensures |r| == |params|
    ensures forall i :: 0 <= i < |r| ==> r[i] == Piece(params[i])
  {
    if params == [] then [] else [Piece(params[0])] + Pieces(params[1..])
  }

  /** The query text of a list of parameters. */
  function Encode(params: seq<Param>): string
  {
    Join(Pieces(params), '&')
  }

  /** A piece splits at its first `=`; a piece without one is a name with an
      empty value. */
  function SplitAtFirst(piece: string, sep: char): (r: (string, string))
    ensures sep !in r.0
    ensures sep !in piece ==> r == (piece, [])
    ensures sep in piece ==> r.0 + [sep] + r.1 == piece
    ensures forall c :: c in r.0 || c in r.1 ==> c in piece
  {
    if piece == [] then ([], [])
    else if piece[0] == sep then ([], piece[1..])
    else
      var rest := SplitAtFirst(piece[1..], sep);
      assert [piece[0]] + piece[1..] == piece;
      assert forall c :: c in piece[1..] ==> c in piece;
      ([piece[0]] + rest.0, rest.1)
  }

  /** The parameters `URLSearchParams` reads from the pieces; empty pieces
      (from `&&` or an empty query) are skipped. */
  function ParsePieces(pieces: seq<string>): (r: seq<Param>)
    ensures |r| <= |pieces|
    ensures forall i :: 0 <= i < |r| ==> '=' !in r[i].0
    ensures (forall j :: 0 <= j < |pieces| ==> '&' !in pieces[j]) ==>
              forall i :: 0 <= i < |r| ==> '&' !in r[i].0 && '&' !in r[i].1
  {
    if pieces == [] then []
    else
      (if pieces[0] == [] then [] else [SplitAtFirst(pieces[0], '=')])
      + ParsePieces(pieces[1..])
  }

  /** The parameters of a query: names never contain `=`, neither names nor
      values contain `&`, and the empty query has none. */
  function Parse(query: string): (r: seq<Param>)
    ensures forall i :: 0 <= i < |r| ==> '=' !in r[i].0
    ensures forall i :: 0 <= i < |r| ==> '&' !in r[i].0 && '&' !in r[i].1
    ensures query == [] ==> r == []
  {
    ParsePieces(Split(query, '&'))
  }

  /** A value put unencoded at the end of a URL that avoids the changes made
      on the way to `URLSearchParams`: no `&` (ends the piece), `+` (read as a
      space), `%` (starts an escape) or `#` (starts the fragment, which is
      never sent); no tab, line feed or carriage return (the URL parser
      removes them); and no control character or space at the end (the URL
      parser strips them from the end of the URL). */
  predicate PlainValue(s: string)
  {
    && '&' !in s && '+' !in s && '%' !in s && '#' !in s
    && '\t' !in s && '\n' !in s && '\r' !in s
    && (s == [] || s[|s| - 1] > ' ')
  }

  /** `searchParams.get(name)`: the value of the first parameter of that name,
      or nothing (the source's `null`) when there is none. */
  function Get(params: seq<Param>, name: string): (r: Option<string>)
    ensures r.Some? ==> (name, r.value) in params
    ensures r.None? <==> forall i :: 0 <= i < |params| ==> params[i].0 != name
    ensures forall i :: (0 <= i < |params| && params[i].0 == name &&
                         forall j :: 0 <= j < i ==> params[j].0 != name) ==> r == Some(params[i].1)
  {
    if params == [] then None
    else if params[0].0 == name then Some(params[0].1)
    else
      var r := Get(params[1..], name);
      assert forall i :: 1 <= i < |params| ==> params[i] == params[1..][i - 1];
      r
  }

  /** A name without `=` followed by `=` and any value reads back as that pair. */
  lemma PieceRoundTrip(p: Param)
    requires '=' !in p.0
    ensures SplitAtFirst(Piece(p), '=') == p
  {
    var s := Piece(p);
    assert '=' in s by { assert s[|p.0|] == '='; }
    var r := SplitAtFirst(s, '=');
    assert r.0 + "=" + r.1 == p.0 + "=" + p.1;
    PrefixUnique(r.0, r.1, p.0, p.1);
  }

  /** Two decompositions around a first separator agree. */
  lemma {:induction false} PrefixUnique(a: string, b: string, c: string, d: string)
    requires '=' !in a && '=' !in c
    requires a + "=" + b == c + "=" + d
    ensures a == c && b == d
    decreases |a|
  {
    var s := a + "=" + b;
    assert s[0] == '=' <==> a == [] by { if a != [] { assert s[0] == a[0]; } }
    assert s[0] == '=' <==> c == [] by { if c != [] { assert (c + "=" + d)[0] == c[0]; } }
    if a == [] {
      assert b == s[1..] == d;
    } else {
      assert (a + "=" + b)[0] == a[0] && (c + "=" + d)[0] == c[0];
      assert (a + "=" + b)[1..] == a[1..] + "=" + b;
      assert (c + "=" + d)[1..] == c[1..] + "=" + d;
      PrefixUnique(a[1..], b, c[1..], d);
      assert a == [a[0]] + a[1..] && c == [c[0]] + c[1..];
    }
  }

  lemma {:induction false} ParsePiecesOfPieces(params: seq<Param>)
    requires forall i :: 0 <= i < |params| ==> '=' !in params[i].0
    ensures ParsePieces(Pieces(params)) == params
    decreases |params|
  {
    if params != [] {
      var ps := Pieces(params);
      assert ps[0] == Piece(params[0]);
      assert |ps[0]| > 0 by { assert ps[0][|params[0].0|] == '='; }
      PieceRoundTrip(params[0]);
      assert ps[1..] == Pieces(params[1..]);
      ParsePiecesOfPieces(params[1..]);
      assert [params[0]] + params[1..] == params;
    }
  }

  /** Reading an encoded parameter list gives back the list, provided names
      contain no `=` and neither names nor values contain `&`. */
  lemma ParseEncode(params: seq<Param>)
    requires forall i :: 0 <= i < |params| ==> '=' !in params[i].0
    requires forall i :: 0 <= i < |params| ==> '&' !in params[i].0 && '&' !in params[i].1
    ensures Parse(Encode(params)) == params
  {
    var ps := Pieces(params);
    if params == [] {
      assert Encode(params) == [];
      assert Split([], '&') == [[]];
    } else {
      forall i | 0 <= i < |ps| ensures '&' !in ps[i] {
        assert ps[i] == params[i].0 + "=" + params[i].1;
      }
      SplitJoin(ps, '&');
      ParsePiecesOfPieces(params);
    }
  }
}
