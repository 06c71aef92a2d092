/** Splitting a text into literals and holes, leftmost first and without overlap, as a substituting or finding
    pattern engine does. Which holes there are is up to a matcher. */
module Scanner {
  import opened Wrappers

  datatype Found = Found(length: nat, name: string)

  datatype Piece = Literal(c: char) | Hole(raw: string, name: string)

  function TextOf(p: Piece): string {
    match p
    case Literal(c) => [c]
    case Hole(raw, _) => raw
  }

  /** What a text starts with: the hole found there, or its first character. */
  function FirstPiece(matcher: string -> Option<Found>, s: string): (p: Piece)
    requires s != ""
    ensures 0 < |TextOf(p)| <= |s| && TextOf(p) == s[..|TextOf(p)|]
  {
    match matcher(s)
    case Some(f) => if 0 < f.length <= |s| then Hole(s[..f.length], f.name) else Literal(s[0])
    case None => Literal(s[0])
  }

  function Scan(matcher: string -> Option<Found>, s: string): seq<Piece>
    decreases |s|
  {
    if s == "" then []
    else
      var p := FirstPiece(matcher, s);
      [p] + Scan(matcher, s[|TextOf(p)|..])
  }

  function Unparse(pieces: seq<Piece>): string {
    if pieces == [] then "" else TextOf(pieces[0]) + Unparse(pieces[1..])
  }

  /** The matcher finds the holes of a grammar: only those, and every one that starts the text, whatever
      follows it. */
  ghost predicate Exact(matcher: string -> Option<Found>, hole: (string, string) -> bool) {
    && (forall s :: matcher(s).Some? ==>
          0 < matcher(s).value.length <= |s| && hole(s[..matcher(s).value.length], matcher(s).value.name))
    && (forall raw, name, rest :: hole(raw, name) ==> matcher(raw + rest) == Some(Found(|raw|, name)))
  }

  /** A hole is one of the grammar, and none starts at a literal. */
  ghost predicate Heads(matcher: string -> Option<Found>, hole: (string, string) -> bool, p: Piece, rest: string) {
    match p
    case Literal(c) => matcher([c] + rest).None?
    case Hole(raw, name) => raw != "" && hole(raw, name)
  }

  ghost predicate Leftmost(matcher: string -> Option<Found>, hole: (string, string) -> bool, pieces: seq<Piece>) {
    pieces == [] || (Heads(matcher, hole, pieces[0], Unparse(pieces[1..])) && Leftmost(matcher, hole, pieces[1..]))
  }

  lemma ScanSplits(matcher: string -> Option<Found>, s: string)
    requires s != ""
    ensures Scan(matcher, s)
            == [FirstPiece(matcher, s)] + Scan(matcher, s[|TextOf(FirstPiece(matcher, s))|..])
  {
  }

  lemma FirstPieceIsAhead(matcher: string -> Option<Found>, s: string)
    requires s != ""
    ensures s == TextOf(FirstPiece(matcher, s)) + s[|TextOf(FirstPiece(matcher, s))|..]
  {
    var n := |TextOf(FirstPiece(matcher, s))|;
    assert s == s[..n] + s[n..];
  }

  lemma UnparseCons(p: Piece, pieces: seq<Piece>)
    ensures Unparse([p] + pieces) == TextOf(p) + Unparse(pieces)
  {
    assert ([p] + pieces)[1..] == pieces;
  }

  lemma {:induction false} ScanUnparses(matcher: string -> Option<Found>, s: string)
    ensures Unparse(Scan(matcher, s)) == s
    decreases |s|
  {
    if s != "" {
      var p := FirstPiece(matcher, s);
      var rest := s[|TextOf(p)|..];
      ScanUnparses(matcher, rest);
      ScanSplits(matcher, s);
      FirstPieceIsAhead(matcher, s);
      UnparseCons(p, Scan(matcher, rest));
    }
  }

  lemma FirstPieceHeads(matcher: string -> Option<Found>, hole: (string, string) -> bool, s: string)
    requires Exact(matcher, hole) && s != ""
    ensures var p := FirstPiece(matcher, s);
            Heads(matcher, hole, p, s[|TextOf(p)|..])
  {
    if matcher(s).None? {
      assert [s[0]] + s[1..] == s;
    }
  }

  lemma LeftmostCons(matcher: string -> Option<Found>, hole: (string, string) -> bool, p: Piece, pieces: seq<Piece>)
    requires Heads(matcher, hole, p, Unparse(pieces)) && Leftmost(matcher, hole, pieces)
    ensures Leftmost(matcher, hole, [p] + pieces)
  {
    assert ([p] + pieces)[1..] == pieces;
  }

  lemma {:induction false} ScanIsLeftmost(matcher: string -> Option<Found>, hole: (string, string) -> bool, s: string)
    requires Exact(matcher, hole)
    ensures Leftmost(matcher, hole, Scan(matcher, s))
    decreases |s|
  {
    if s != "" {
      var p := FirstPiece(matcher, s);
      var rest := s[|TextOf(p)|..];
      ScanIsLeftmost(matcher, hole, rest);
      ScanUnparses(matcher, rest);
      FirstPieceHeads(matcher, hole, s);
      LeftmostCons(matcher, hole, p, Scan(matcher, rest));
      ScanSplits(matcher, s);
    }
  }

  lemma ScanAfter(matcher: string -> Option<Found>, hole: (string, string) -> bool, p: Piece, rest: string)
    requires Exact(matcher, hole) && Heads(matcher, hole, p, rest)
    ensures Scan(matcher, TextOf(p) + rest) == [p] + Scan(matcher, rest)
  {
    var s := TextOf(p) + rest;
    assert s[..|TextOf(p)|] == TextOf(p) && s[|TextOf(p)|..] == rest;
    assert FirstPiece(matcher, s) == p;
  }

  /** The pieces of a text are the only ones that read it from left to right. */
  lemma {:induction false} UnparseScans(matcher: string -> Option<Found>, hole: (string, string) -> bool,
                                        pieces: seq<Piece>)
    requires Exact(matcher, hole) && Leftmost(matcher, hole, pieces)
    ensures Scan(matcher, Unparse(pieces)) == pieces
  {
    if pieces != [] {
      UnparseScans(matcher, hole, pieces[1..]);
      ScanAfter(matcher, hole, pieces[0], Unparse(pieces[1..]));
    }
  }

  predicate NoHole(pieces: seq<Piece>) {
    pieces == [] || (pieces[0].Literal? && NoHole(pieces[1..]))
  }

  /** A scan that finds nothing has missed nothing, at any position. */
  lemma {:induction false} NoHoleMeansNoMatch(matcher: string -> Option<Found>, hole: (string, string) -> bool,
                                              s: string)
    requires Exact(matcher, hole)
    ensures NoHole(Scan(matcher, s)) <==> forall i :: 0 <= i < |s| ==> matcher(s[i..]).None?
    decreases |s|
  {
    if s != "" {
      assert s[0..] == s;
      if matcher(s).None? {
        NoHoleMeansNoMatch(matcher, hole, s[1..]);
        assert Scan(matcher, s)[1..] == Scan(matcher, s[1..]);
        assert forall i :: 1 <= i < |s| ==> s[i..] == s[1..][i - 1..];
        assert forall i :: 0 <= i < |s[1..]| ==> s[1..][i..] == s[i + 1..];
      }
    }
  }
}
