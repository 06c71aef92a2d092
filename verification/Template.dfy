/** Rendering a campaign template: scanning for placeholders, looking their values up, failing closed. */
module Template {
  import opened Wrappers
  import opened Text
  import opened Scanner

  // ---------- placeholders ----------

  predicate NameStart(c: char) {
    'a' <= c <= 'z' || 'A' <= c <= 'Z' || c == '_'
  }

  predicate NameChar(c: char) {
    NameStart(c) || '0' <= c <= '9' || c == '.' || c == '-'
  }

  ghost predicate All(s: string, keep: char -> bool) {
    forall i :: 0 <= i < |s| ==> keep(s[i])
  }

  ghost predicate IsName(name: string) {
    name != "" && NameStart(name[0]) && All(name, NameChar)
  }

  ghost predicate Spelled(raw: string, left: string, name: string, right: string) {
    && raw == "{{" + (left + (name + (right + "}}")))
    && All(left, IsSpace) && All(right, IsSpace) && IsName(name)
  }

  /** What the pattern describes: two braces, white space, a name, white space, two braces. */
  ghost predicate Placeholder(raw: string, name: string) {
    exists left: string, right: string :: Spelled(raw, left, name, right)
  }

  /** White space and the closing braces. */
  function MatchEnd(s: string): (n: Option<nat>)
    ensures n.Some? ==> 2 <= n.value <= |s|
  {
    var k := Span(s, IsSpace);
    if k + 2 <= |s| && s[k] == '}' && s[k + 1] == '}' then Some(k + 2) else None
  }

  /** A name and what follows it. */
  function MatchName(s: string): (f: Option<Found>)
    ensures f.Some? ==> 2 <= f.value.length <= |s|
  {
    var n := Span(s, NameChar);
    if n == 0 || !NameStart(s[0]) then None
    else
      match MatchEnd(s[n..])
      case None => None
      case Some(k) => Some(Found(n + k, s[..n]))
  }

  /** White space and what follows it. */
  function MatchFront(s: string): (f: Option<Found>)
    ensures f.Some? ==> 2 <= f.value.length <= |s|
  {
    var l := Span(s, IsSpace);
    match MatchName(s[l..])
    case None => None
    case Some(f) => Some(Found(l + f.length, f.name))
  }

  /** The placeholder a text starts with, read off from left to right without ever going back. */
  function Match(s: string): (f: Option<Found>)
    ensures f.Some? ==> 4 <= f.value.length <= |s|
  {
    if |s| < 2 || s[0] != '{' || s[1] != '{' then None
    else
      match MatchFront(s[2..])
      case None => None
      case Some(f) => Some(Found(2 + f.length, f.name))
  }

  predicate Reads(s: string, length: nat, name: string) {
    Match(s).Some? && Match(s).value.length == length && Match(s).value.name == name
  }

  lemma PrefixKept(s: string, keep: char -> bool)
    ensures All(s[..Span(s, keep)], keep)
  {
    SpanKept(s, keep);
  }

  lemma EndIsSpelled(s: string) returns (right: string)
    requires MatchEnd(s).Some?
    ensures s[..MatchEnd(s).value] == right + "}}" && All(right, IsSpace)
  {
    right := s[..Span(s, IsSpace)];
    PrefixKept(s, IsSpace);
  }

  lemma NameIsSpelled(s: string) returns (right: string)
    requires MatchName(s).Some?
    ensures var f := MatchName(s).value;
            s[..f.length] == f.name + (right + "}}") && IsName(f.name) && All(right, IsSpace)
  {
    var n := Span(s, NameChar);
    PrefixKept(s, NameChar);
    right := EndIsSpelled(s[n..]);
    assert s[..n + MatchEnd(s[n..]).value] == s[..n] + s[n..][..MatchEnd(s[n..]).value];
  }

  lemma FrontIsSpelled(s: string) returns (left: string, right: string)
    requires MatchFront(s).Some?
    ensures var f := MatchFront(s).value;
            s[..f.length] == left + (f.name + (right + "}}")) && IsName(f.name) && All(left, IsSpace)
              && All(right, IsSpace)
  {
    var l := Span(s, IsSpace);
    PrefixKept(s, IsSpace);
    left := s[..l];
    right := NameIsSpelled(s[l..]);
    var m := MatchName(s[l..]).value.length;
    assert s[..l + m] == s[..l] + s[l..][..m];
  }

  lemma SpelledIsPlaceholder(raw: string, left: string, name: string, right: string)
    requires raw == "{{" + (left + (name + (right + "}}"))) && All(left, IsSpace) && All(right, IsSpace) && IsName(name)
    ensures Placeholder(raw, name)
  {
    assert Spelled(raw, left, name, right);
  }

  lemma AfterBraces(s: string, raw: string, tail: string)
    requires |s| >= 2 && s[0] == '{' && s[1] == '{' && |tail| <= |s| - 2 && s[2..][..|tail|] == tail
    requires raw == s[..2 + |tail|]
    ensures raw == "{{" + tail
  {
    assert raw[2..] == tail && raw[..2] == "{{";
  }

  /** A match is a placeholder. */
  lemma MatchIsPlaceholder(s: string)
    requires Match(s).Some?
    ensures Placeholder(s[..Match(s).value.length], Match(s).value.name)
  {
    var left, right := FrontIsSpelled(s[2..]);
    var name := Match(s).value.name;
    var tail := left + (name + (right + "}}"));
    AfterBraces(s, s[..Match(s).value.length], tail);
    SpelledIsPlaceholder(s[..Match(s).value.length], left, name, right);
  }

  lemma SpelledEndMatches(right: string, rest: string)
    requires All(right, IsSpace)
    ensures MatchEnd(right + ("}}" + rest)) == Some(|right| + 2)
  {
    SpanOfWord(right, "}}" + rest, IsSpace);
  }

  lemma SpelledNameMatches(name: string, s: string)
    requires IsName(name) && MatchEnd(s).Some? && !NameChar(s[0])
    ensures MatchName(name + s) == Some(Found(|name| + MatchEnd(s).value, name))
  {
    SpanOfWord(name, s, NameChar);
    assert (name + s)[|name|..] == s && (name + s)[..|name|] == name && (name + s)[0] == name[0];
  }

  lemma SpelledFrontMatches(s: string, left: string, t: string)
    requires All(left, IsSpace) && MatchName(t).Some? && !IsSpace(t[0]) && s == "{{" + (left + t)
    ensures Reads(s, 2 + |left| + MatchName(t).value.length, MatchName(t).value.name)
  {
    assert s[2..] == left + t && s[0] == '{' && s[1] == '{';
    SpanOfWord(left, t, IsSpace);
    assert (left + t)[|left|..] == t;
  }

  lemma SpelledWhole(raw: string, left: string, name: string, right: string, rest: string, t: string)
    requires Spelled(raw, left, name, right) && t == name + (right + ("}}" + rest))
    ensures raw + rest == "{{" + (left + t) && |raw| == 4 + |left| + |name| + |right|
  {
  }

  lemma SpaceIsNoName(c: char)
    ensures !(IsSpace(c) && NameChar(c))
  {
  }

  lemma EndIsNoName(right: string, rest: string)
    requires All(right, IsSpace)
    ensures !NameChar((right + ("}}" + rest))[0])
  {
    if right == "" {
      assert (right + ("}}" + rest))[0] == '}';
    } else {
      assert (right + ("}}" + rest))[0] == right[0];
      SpaceIsNoName(right[0]);
    }
  }

  /** A spelled name and its end, seen from the front braces. */
  lemma SpelledTail(name: string, right: string, rest: string) returns (t: string)
    requires All(right, IsSpace) && IsName(name)
    ensures t == name + (right + ("}}" + rest))
    ensures MatchName(t).Some? && MatchName(t).value.length == |name| + |right| + 2 && MatchName(t).value.name == name
    ensures !IsSpace(t[0])
  {
    var end := right + ("}}" + rest);
    SpelledEndMatches(right, rest);
    EndIsNoName(right, rest);
    SpelledNameMatches(name, end);
    assert (name + end)[0] == name[0];
    SpaceIsNoName(name[0]);
    t := name + end;
  }

  lemma SpelledIsMatched(raw: string, left: string, name: string, right: string, s: string, rest: string)
    requires Spelled(raw, left, name, right) && s == raw + rest
    ensures Reads(s, |raw|, name)
  {
    var t := SpelledTail(name, right, rest);
    SpelledWhole(raw, left, name, right, rest, t);
    SpelledFrontMatches(s, left, t);
  }

  /** A placeholder at the front of a text is matched, with its own length and name: there is only one way
      to read it, so no matching engine can find another. */
  lemma PlaceholderIsMatched(raw: string, name: string, rest: string)
    requires Placeholder(raw, name)
    ensures Reads(raw + rest, |raw|, name)
  {
    var left: string, right: string :| Spelled(raw, left, name, right);
    SpelledIsMatched(raw, left, name, right, raw + rest, rest);
  }

  lemma MatchIsExact()
    ensures Exact(Match, Placeholder)
  {
    forall s | Match(s).Some?
      ensures 0 < Match(s).value.length <= |s| && Placeholder(s[..Match(s).value.length], Match(s).value.name)
    {
      MatchIsPlaceholder(s);
    }
    forall raw, name, rest | Placeholder(raw, name) ensures Match(raw + rest) == Some(Found(|raw|, name)) {
      PlaceholderIsMatched(raw, name, rest);
    }
  }

  // ---------- templates as literals and placeholders ----------

  /** The pieces substitution works on. */
  function Parse(s: string): seq<Piece> {
    Scan(Match, s)
  }

  /** Splitting a template and putting the pieces together again gives the template. */
  lemma ParseRoundTrip(s: string)
    ensures Unparse(Parse(s)) == s && Leftmost(Match, Placeholder, Parse(s))
  {
    MatchIsExact();
    ScanUnparses(Match, s);
    ScanIsLeftmost(Match, Placeholder, s);
  }

  /** The other way round: the pieces of a text are the only ones that read it from left to right. */
  lemma UnparseRoundTrip(pieces: seq<Piece>)
    requires Leftmost(Match, Placeholder, pieces)
    ensures Parse(Unparse(pieces)) == pieces
  {
    MatchIsExact();
    UnparseScans(Match, Placeholder, pieces);
  }

  // ---------- looking values up ----------

  /** A personalization value; `shown` is what `str` makes of it. */
  datatype Value = Null | Text(s: string) | Other(shown: string) | Dict(entries: map<string, Value>, shown: string)

  datatype RenderError = MissingVariable(key: string) | EmptyVariable(key: string) | Unresolved

  function Shown(v: Value): string {
    match v
    case Null => "None"
    case Text(s) => s
    case Other(shown) => shown
    case Dict(_, shown) => shown
  }

  predicate IsEmpty(v: Value) {
    v.Null? || (v.Text? && Blank(v.s))
  }

  /** str.split("."), which keeps empty parts. */
  function SplitDots(key: string): seq<string>
    decreases |key|
  {
    var n := Span(key, NotDot);
    if n == |key| then [key] else [key[..n]] + SplitDots(key[n + 1..])
  }

  function JoinDots(parts: seq<string>): string {
    if parts == [] then "" else if |parts| == 1 then parts[0] else parts[0] + "." + JoinDots(parts[1..])
  }

  lemma {:induction false} SpanStops(s: string, keep: char -> bool)
    ensures Span(s, keep) < |s| ==> !keep(s[Span(s, keep)])
  {
    if s != "" && keep(s[0]) {
      SpanStops(s[1..], keep);
    }
  }

  lemma AroundDot(key: string, n: nat)
    requires n < |key| && key[n] == '.'
    ensures key == key[..n] + "." + key[n + 1..]
  {
  }

  lemma {:induction false} SplitDotsJoins(key: string)
    ensures |SplitDots(key)| > 0 && JoinDots(SplitDots(key)) == key
    decreases |key|
  {
    var n := Span(key, NotDot);
    if n < |key| {
      SpanStops(key, NotDot);
      AroundDot(key, n);
      SplitDotsJoins(key[n + 1..]);
      assert SplitDots(key)[1..] == SplitDots(key[n + 1..]);
    }
  }

  lemma {:induction false} SplitDotsParts(key: string)
    ensures forall i :: 0 <= i < |SplitDots(key)| ==> All(SplitDots(key)[i], NotDot)
    decreases |key|
  {
    PrefixKept(key, NotDot);
    var n := Span(key, NotDot);
    if n < |key| {
      SplitDotsParts(key[n + 1..]);
    } else {
      assert key[..n] == key;
    }
  }

  /** The parts of a key: joined they give the key, and none contains a dot. */
  lemma SplitDotsRoundTrip(key: string)
    ensures |SplitDots(key)| > 0 && JoinDots(SplitDots(key)) == key
    ensures forall i :: 0 <= i < |SplitDots(key)| ==> All(SplitDots(key)[i], NotDot)
  {
    SplitDotsJoins(key);
    SplitDotsParts(key);
  }

  /** The value at a path into nested mappings. */
  function Walk(v: Value, parts: seq<string>): Option<Value> {
    if parts == [] then Some(v)
    else if v.Dict? && parts[0] in v.entries then Walk(v.entries[parts[0]], parts[1..])
    else None
  }

  function Lookup(values: map<string, Value>, key: string): Result<Value, RenderError> {
    match Walk(Dict(values, ""), SplitDots(key))
    case None => Err(MissingVariable(key))
    case Some(v) => if IsEmpty(v) then Err(EmptyVariable(key)) else Ok(v)
  }

  method FindValue(values: map<string, Value>, key: string) returns (r: Result<Value, RenderError>)
    ensures r == Lookup(values, key)
  {
    var current, parts := Dict(values, ""), SplitDots(key);
    for i := 0 to |parts|
      invariant Walk(current, parts[i..]) == Walk(Dict(values, ""), parts)
    {
      if !current.Dict? || parts[i] !in current.entries {
        return Err(MissingVariable(key));
      }
      current := current.entries[parts[i]];
      assert parts[i..][1..] == parts[i + 1..];
    }
    if IsEmpty(current) {
      return Err(EmptyVariable(key));
    }
    return Ok(current);
  }

  // ---------- rendering ----------

  function Prefixed(s: string, r: Result<string, RenderError>): Result<string, RenderError> {
    match r
    case Ok(rest) => Ok(s + rest)
    case Err(e) => Err(e)
  }

  /** Every placeholder replaced by its value, or the error of the first that has none. */
  function Substitute(values: map<string, Value>, pieces: seq<Piece>): Result<string, RenderError> {
    if pieces == [] then Ok("")
    else
      match pieces[0]
      case Literal(c) => Prefixed([c], Substitute(values, pieces[1..]))
      case Hole(_, name) =>
        match Lookup(values, name)
        case Err(e) => Err(e)
        case Ok(v) => Prefixed(Shown(v), Substitute(values, pieces[1..]))
  }

  function Render(values: map<string, Value>, template: string): Result<string, RenderError> {
    match Substitute(values, Parse(template))
    case Err(e) => Err(e)
    case Ok(text) => if NoHole(Parse(text)) then Ok(text) else Err(Unresolved)
  }

  ghost predicate AllFound(values: map<string, Value>, pieces: seq<Piece>) {
    forall i :: 0 <= i < |pieces| && pieces[i].Hole? ==> Lookup(values, pieces[i].name).Ok?
  }

  /** The text a piece is replaced by. */
  function Filled(values: map<string, Value>, p: Piece): string {
    match p
    case Literal(c) => [c]
    case Hole(_, name) => match Lookup(values, name) case Ok(v) => Shown(v) case Err(_) => ""
  }

  function FilledAll(values: map<string, Value>, pieces: seq<Piece>): string {
    if pieces == [] then "" else Filled(values, pieces[0]) + FilledAll(values, pieces[1..])
  }

  lemma {:induction false} SubstituteFills(values: map<string, Value>, pieces: seq<Piece>)
    ensures Substitute(values, pieces).Ok? <==> AllFound(values, pieces)
    ensures AllFound(values, pieces) ==> Substitute(values, pieces) == Ok(FilledAll(values, pieces))
    decreases |pieces|
  {
    if pieces != [] {
      SubstituteFills(values, pieces[1..]);
      assert AllFound(values, pieces[1..]) <==> forall i :: 1 <= i < |pieces| && pieces[i].Hole? ==>
               Lookup(values, pieces[i].name).Ok? by {
        assert forall i :: 1 <= i < |pieces| ==> pieces[i] == pieces[1..][i - 1];
        assert forall i :: 0 <= i < |pieces[1..]| ==> pieces[1..][i] == pieces[i + 1];
      }
    }
  }

  /** Rendering succeeds exactly when every placeholder has a value and no placeholder appears in the text
      with the values put in; that text is then the result. */
  lemma RenderSucceedsIff(values: map<string, Value>, template: string)
    ensures Render(values, template).Ok?
            <==> AllFound(values, Parse(template)) && NoHole(Parse(FilledAll(values, Parse(template))))
    ensures Render(values, template).Ok? ==> Render(values, template).value == FilledAll(values, Parse(template))
  {
    SubstituteFills(values, Parse(template));
  }

  lemma {:induction false} FilledLiterals(values: map<string, Value>, pieces: seq<Piece>)
    requires NoHole(pieces)
    ensures AllFound(values, pieces) && FilledAll(values, pieces) == Unparse(pieces)
    decreases |pieces|
  {
    if pieces != [] {
      FilledLiterals(values, pieces[1..]);
      assert forall i :: 1 <= i < |pieces| ==> pieces[i] == pieces[1..][i - 1];
    }
  }

  /** Rendered text holds no placeholder anywhere, and rendering it again, with any values, changes nothing. */
  lemma RenderedIsFinal(values: map<string, Value>, template: string, others: map<string, Value>)
    requires Render(values, template).Ok?
    ensures forall i :: 0 <= i < |Render(values, template).value| ==> Match(Render(values, template).value[i..]).None?
    ensures Render(others, Render(values, template).value) == Render(values, template)
  {
    var text := Render(values, template).value;
    MatchIsExact();
    NoHoleMeansNoMatch(Match, Placeholder, text);
    ScanUnparses(Match, text);
    FilledLiterals(others, Parse(text));
    SubstituteFills(others, Parse(text));
  }

  lemma NoMatchWithoutName(s: string)
    requires |s| > 2 && !IsSpace(s[2]) && !NameStart(s[2])
    ensures Match(s).None?
  {
    assert s[2..][0] == s[2] && s[2..][0..] == s[2..];
    assert Span(s[2..], IsSpace) == 0;
  }

  lemma {:induction false} NoBracesNoHoles(s: string)
    requires '{' !in s
    ensures NoHole(Parse(s))
    decreases |s|
  {
    if s != "" {
      NoBracesNoHoles(s[1..]);
      assert Parse(s)[1..] == Parse(s[1..]);
    }
  }

  lemma LiteralThenHole(hole: string, name: string, tail: string)
    requires Spelled(hole, "", name, "")
    ensures Parse("{" + (hole + tail)) == [Literal('{')] + ([Hole(hole, name)] + Parse(tail))
  {
    var s := "{" + (hole + tail);
    assert s[2] == '{';
    NoMatchWithoutName(s);
    MatchIsExact();
    assert Placeholder(hole, name);
    ScanAfter(Match, Placeholder, Hole(hole, name), tail);
    ScanAfter(Match, Placeholder, Literal('{'), hole + tail);
  }

  lemma SubstituteFirst(values: map<string, Value>, p: Piece, rest: seq<Piece>, text: string)
    requires Substitute(values, rest) == Ok(text) && (p.Hole? ==> Lookup(values, p.name).Ok?)
    ensures Substitute(values, [p] + rest) == Ok(Filled(values, p) + text)
  {
    assert ([p] + rest)[1..] == rest;
  }

  lemma TailIsKept(values: map<string, Value>, tail: string)
    requires '{' !in tail
    ensures Substitute(values, Parse(tail)) == Ok(tail)
  {
    NoBracesNoHoles(tail);
    ScanUnparses(Match, tail);
    FilledLiterals(values, Parse(tail));
    SubstituteFills(values, Parse(tail));
  }

  lemma CompletedHole(other: string, filled: string)
    requires IsName(other) && filled == "{" + ("{" + (other + "}}"))
    ensures !NoHole(Parse(filled))
  {
    assert filled == "{{" + ("" + (other + ("" + "}}")));
    SpelledIsPlaceholder(filled, "", other, "");
    MatchIsExact();
    ScanAfter(Match, Placeholder, Hole(filled, other), "");
    assert filled + "" == filled;
  }

  lemma FilledIn(hole: string, name: string, tail: string, values: map<string, Value>)
    requires '{' !in tail && Lookup(values, name) == Ok(Text("{"))
    ensures Substitute(values, [Literal('{')] + ([Hole(hole, name)] + Parse(tail))) == Ok("{" + ("{" + tail))
  {
    TailIsKept(values, tail);
    SubstituteFirst(values, Hole(hole, name), Parse(tail), tail);
    SubstituteFirst(values, Literal('{'), [Hole(hole, name)] + Parse(tail), "{" + tail);
  }

  lemma NameHasNoBrace(name: string)
    requires IsName(name)
    ensures '{' !in name + "}}"
  {
  }

  lemma LeftoverFails(values: map<string, Value>, template: string, pieces: seq<Piece>, filled: string)
    requires Parse(template) == pieces && Substitute(values, pieces) == Ok(filled) && !NoHole(Parse(filled))
    ensures Render(values, template) == Err(Unresolved)
  {
  }

  /** Failing closed where no single value is at fault: braces of the template and of a value can spell a
      placeholder between them. */
  lemma ValueCompletesPlaceholder(hole: string, name: string, other: string, values: map<string, Value>)
    requires Spelled(hole, "", name, "") && IsName(other) && Lookup(values, name) == Ok(Text("{"))
    ensures Render(values, "{" + (hole + (other + "}}"))) == Err(Unresolved)
  {
    var tail := other + "}}";
    var filled := "{" + ("{" + tail);
    LiteralThenHole(hole, name, tail);
    NameHasNoBrace(other);
    FilledIn(hole, name, tail, values);
    CompletedHole(other, filled);
    LeftoverFails(values, "{" + (hole + tail), [Literal('{')] + ([Hole(hole, name)] + Parse(tail)), filled);
  }

  // ---------- the pattern, the path and the error, written out ----------

  /** A name starts with a letter or an underscore; digits, dots and hyphens may follow, too. */
  lemma NameIff(name: string)
    ensures IsName(name)
            <==> |name| > 0 && !('0' <= name[0] <= '9') && name[0] !in ".-"
                 && forall i :: 0 <= i < |name| ==>
                      || 'a' <= name[i] <= 'z' || 'A' <= name[i] <= 'Z' || '0' <= name[i] <= '9' || name[i] in "_.-"
  {
  }

  /** Down from a value, a part of the key at a time, to `v`. */
  ghost predicate Path(from: Value, parts: seq<string>, chain: seq<Value>, v: Value) {
    && |chain| == |parts| + 1 && chain[0] == from && chain[|parts|] == v
    && forall i :: 0 <= i < |parts| ==>
         chain[i].Dict? && parts[i] in chain[i].entries && chain[i + 1] == chain[i].entries[parts[i]]
  }

  lemma PathOn(from: Value, parts: seq<string>, chain: seq<Value>, v: Value)
    requires parts != [] && Path(from, parts, chain, v)
    ensures from.Dict? && parts[0] in from.entries && Path(from.entries[parts[0]], parts[1..], chain[1..], v)
  {
    var rest := parts[1..];
    assert forall i :: 0 <= i < |rest| ==> rest[i] == parts[i + 1] && chain[1..][i] == chain[i + 1];
  }

  lemma PathFrom(from: Value, parts: seq<string>, chain: seq<Value>, v: Value)
    requires parts != [] && from.Dict? && parts[0] in from.entries
    requires Path(from.entries[parts[0]], parts[1..], chain, v)
    ensures Path(from, parts, [from] + chain, v)
  {
    var longer := [from] + chain;
    assert forall i :: 0 < i < |parts| ==> parts[i] == parts[1..][i - 1] && longer[i] == chain[i - 1];
  }

  lemma {:induction false} WalkIff(from: Value, parts: seq<string>, v: Value)
    ensures Walk(from, parts) == Some(v) <==> exists chain :: Path(from, parts, chain, v)
  {
    if parts == [] {
      if Walk(from, parts) == Some(v) {
        assert Path(from, parts, [v], v);
      }
    } else {
      if from.Dict? && parts[0] in from.entries {
        WalkIff(from.entries[parts[0]], parts[1..], v);
        if chain :| Path(from.entries[parts[0]], parts[1..], chain, v) {
          PathFrom(from, parts, chain, v);
        }
      }
      if chain :| Path(from, parts, chain, v) {
        PathOn(from, parts, chain, v);
      }
    }
  }

  /** Null, or a text of white space or nothing. */
  ghost predicate Vacant(v: Value) {
    v == Null || (v.Text? && forall i :: 0 <= i < |v.s| ==> IsSpace(v.s[i]))
  }

  ghost predicate At(values: map<string, Value>, key: string, v: Value) {
    exists chain :: Path(Dict(values, ""), SplitDots(key), chain, v)
  }

  /** A key has the value its parts lead to, if there is one and it is not vacant. */
  lemma FoundIff(values: map<string, Value>, key: string, v: Value)
    ensures Lookup(values, key) == Ok(v) <==> At(values, key, v) && !Vacant(v)
    ensures Lookup(values, key) == Err(EmptyVariable(key)) <==> exists u :: At(values, key, u) && Vacant(u)
    ensures Lookup(values, key) == Err(MissingVariable(key)) <==> forall u :: !At(values, key, u)
  {
    forall u ensures Walk(Dict(values, ""), SplitDots(key)) == Some(u) <==> At(values, key, u) {
      WalkIff(Dict(values, ""), SplitDots(key), u);
    }
    forall t ensures Blank(t) <==> forall i :: 0 <= i < |t| ==> IsSpace(t[i]) {
      BlankIff(t);
    }
    var w := Walk(Dict(values, ""), SplitDots(key));
    if w.Some? {
      assert At(values, key, w.value);
      assert forall u :: At(values, key, u) ==> u == w.value;
    }
  }

  /** Piece `i` is a placeholder with this error, and the first without a value. */
  ghost predicate FailsFirstAt(values: map<string, Value>, pieces: seq<Piece>, i: nat, e: RenderError) {
    && i < |pieces| && pieces[i].Hole? && Lookup(values, pieces[i].name) == Err(e)
    && forall j :: 0 <= j < i && pieces[j].Hole? ==> Lookup(values, pieces[j].name).Ok?
  }

  lemma {:induction false} SubstituteFails(values: map<string, Value>, pieces: seq<Piece>, e: RenderError)
    requires Substitute(values, pieces) == Err(e)
    ensures exists i :: FailsFirstAt(values, pieces, i, e)
    decreases |pieces|
  {
    if pieces[0].Hole? && Lookup(values, pieces[0].name) == Err(e) {
      assert FailsFirstAt(values, pieces, 0, e);
    } else {
      var rest := pieces[1..];
      SubstituteFails(values, rest, e);
      var i: nat :| FailsFirstAt(values, rest, i, e);
      assert forall j :: 0 < j <= i + 1 ==> pieces[j] == rest[j - 1];
      assert FailsFirstAt(values, pieces, i + 1, e);
    }
  }

  /** The error of a failed rendering is that of the first placeholder without a value, or the rendered text still has
      one. */
  lemma ErrorIsTheFirst(values: map<string, Value>, template: string, e: RenderError)
    requires Render(values, template) == Err(e)
    ensures var pieces := Parse(template);
            || (exists i :: FailsFirstAt(values, pieces, i, e))
            || (e == Unresolved && AllFound(values, pieces) && !NoHole(Parse(FilledAll(values, pieces))))
  {
    SubstituteFills(values, Parse(template));
    if Substitute(values, Parse(template)).Err? {
      SubstituteFails(values, Parse(template), e);
    }
  }

  /** A text without braces is put in as it is. */
  lemma TextIsPutIn(values: map<string, Value>, raw: string, name: string, text: string)
    requires Placeholder(raw, name) && Lookup(values, name) == Ok(Text(text)) && '{' !in text
    ensures Render(values, raw) == Ok(text)
  {
    MatchIsExact();
    ScanAfter(Match, Placeholder, Hole(raw, name), "");
    assert raw + "" == raw;
    assert Parse(raw) == [Hole(raw, name)] + Parse("");
    SubstituteFirst(values, Hole(raw, name), Parse(""), "");
    assert text + "" == text;
    NoBracesNoHoles(text);
  }
}
