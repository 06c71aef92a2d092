/** Company-name and domain normalisation.

    Lower-casing and the host part of a URL come from Python's library; they are parameters here. A
    missing string is the empty one, which the source treats the same way. */
module Normalization {
  import opened Text

  const COMPANY_SUFFIXES: set<string> :=
    {"inc", "incorporated", "llc", "ltd", "limited", "corp", "corporation", "co", "company", "plc"}

  const COMMON_TWO_LEVEL_SUFFIXES: set<string> :=
    {"co.uk", "org.uk", "ac.uk", "gov.uk", "com.au", "net.au", "org.au", "co.nz", "com.br", "com.mx",
     "co.in", "co.jp", "com.sg", "com.hk"}

  predicate Alnum(c: char) {
    'a' <= c <= 'z' || '0' <= c <= '9'
  }

  predicate NotSpace(c: char) {
    c != ' '
  }

  // ---------- splitting and joining ----------

  /** The maximal runs of characters to keep: splitting on the others and dropping empty pieces. */
  function Runs(s: string, keep: char -> bool): seq<string>
    decreases |s|
  {
    if s == "" then []
    else if !keep(s[0]) then Runs(s[1..], keep)
    else [s[..Span(s, keep)]] + Runs(s[Span(s, keep)..], keep)
  }

  function Joined(words: seq<string>): string {
    if words == [] then ""
    else if |words| == 1 then words[0]
    else words[0] + " " + Joined(words[1..])
  }

  ghost predicate Word(w: string, keep: char -> bool) {
    w != "" && forall i :: 0 <= i < |w| ==> keep(w[i])
  }

  ghost predicate Words(words: seq<string>, keep: char -> bool) {
    forall i :: 0 <= i < |words| ==> Word(words[i], keep)
  }

  /** Splitting undoes joining. */
  lemma {:induction false} RunsOfJoined(words: seq<string>, keep: char -> bool)
    requires Words(words, keep) && !keep(' ')
    ensures Runs(Joined(words), keep) == words
  {
    if words != [] {
      var w, rest := words[0], if |words| == 1 then "" else " " + Joined(words[1..]);
      assert Word(w, keep);
      assert Joined(words) == w + rest;
      SpanOfWord(w, rest, keep);
      assert (w + rest)[..|w|] == w && (w + rest)[|w|..] == rest;
      if |words| > 1 {
        assert rest[1..] == Joined(words[1..]);
      }
      assert Words(words[1..], keep);
      RunsOfJoined(words[1..], keep);
    }
  }

  lemma {:induction false} RunsAreWords(s: string, keep: char -> bool)
    ensures Words(Runs(s, keep), keep)
    decreases |s|
  {
    if s != "" {
      if !keep(s[0]) {
        RunsAreWords(s[1..], keep);
      } else {
        SpanKept(s, keep);
        RunsAreWords(s[Span(s, keep)..], keep);
      }
    }
  }

  lemma {:induction false} SpanSplits(a: string, rest: string, keep: char -> bool)
    requires rest != "" && !keep(rest[0])
    ensures Span(a + rest, keep) == Span(a, keep) <= |a|
    ensures a != "" && keep(a[0]) ==> Span(a, keep) > 0
  {
    if a == "" {
      assert a + rest == rest;
    } else {
      assert (a + rest)[1..] == a[1..] + rest;
      SpanSplits(a[1..], rest, keep);
    }
  }

  /** A character that is not kept splits, ... */
  lemma {:induction false} RunsSplit(a: string, c: char, b: string, keep: char -> bool)
    requires !keep(c)
    ensures Runs(a + [c] + b, keep) == Runs(a, keep) + Runs(b, keep)
    decreases |a|
  {
    var all := a + [c] + b;
    if a == "" {
      assert all == [c] + b && all[1..] == b;
    } else if !keep(a[0]) {
      assert all[1..] == a[1..] + [c] + b;
      RunsSplit(a[1..], c, b, keep);
    } else {
      var n := Span(a, keep);
      SpanSplits(a, [c] + b, keep);
      assert a + ([c] + b) == all;
      assert all[..n] == a[..n] && all[n..] == a[n..] + [c] + b;
      RunsSplit(a[n..], c, b, keep);
    }
  }

  /** ... and what is kept throughout stays in one piece: that is all there is to splitting. */
  lemma RunOfWord(w: string, keep: char -> bool)
    requires Word(w, keep) && !keep(' ')
    ensures Runs(w, keep) == [w] && Runs("", keep) == []
  {
    assert Joined([w]) == w;
    RunsOfJoined([w], keep);
  }

  lemma {:induction false} SpanSame(s: string, keep: char -> bool, same: char -> bool)
    requires forall c :: keep(c) <==> same(c)
    ensures Span(s, keep) == Span(s, same)
  {
    if s != "" {
      SpanSame(s[1..], keep, same);
    }
  }

  lemma {:induction false} RunsSame(s: string, keep: char -> bool, same: char -> bool)
    requires forall c :: keep(c) <==> same(c)
    ensures Runs(s, keep) == Runs(s, same)
    decreases |s|
  {
    SpanSame(s, keep, same);
    if s != "" {
      RunsSame(s[1..], keep, same);
      if keep(s[0]) {
        RunsSame(s[Span(s, keep)..], keep, same);
      }
    }
  }

  // ---------- names ----------

  function WithoutSuffixes(words: seq<string>): seq<string> {
    if words == [] then []
    else if words[0] in COMPANY_SUFFIXES then WithoutSuffixes(words[1..])
    else [words[0]] + WithoutSuffixes(words[1..])
  }

  /** The words of a name that count. */
  function NameWords(lower: string -> string, value: string): seq<string> {
    WithoutSuffixes(Runs(lower(value), Alnum))
  }

  function NormalizeName(lower: string -> string, value: string): string {
    Joined(NameWords(lower, value))
  }

  function NameTokens(lower: string -> string, value: string): set<string> {
    set w | w in Runs(NormalizeName(lower, value), NotSpace)
  }

  /** All that is asked of lower-casing: it leaves lower-case letters, digits and spaces alone. */
  ghost predicate LeavesNormalAlone(lower: string -> string) {
    forall s :: (forall i :: 0 <= i < |s| ==> Alnum(s[i]) || s[i] == ' ') ==> lower(s) == s
  }

  lemma {:induction false} SuffixFree(words: seq<string>)
    ensures WithoutSuffixes(WithoutSuffixes(words)) == WithoutSuffixes(words)
    ensures forall keep :: Words(words, keep) ==> Words(WithoutSuffixes(words), keep)
  {
    if words != [] {
      SuffixFree(words[1..]);
      forall keep | Words(words, keep) ensures Words(WithoutSuffixes(words), keep) {
        assert Word(words[0], keep) && Words(words[1..], keep);
      }
    }
  }

  lemma {:induction false} JoinedIsNormal(words: seq<string>)
    requires Words(words, Alnum)
    ensures forall i :: 0 <= i < |Joined(words)| ==> Alnum(Joined(words)[i]) || Joined(words)[i] == ' '
  {
    if words != [] {
      assert Word(words[0], Alnum) && Words(words[1..], Alnum);
      JoinedIsNormal(words[1..]);
    }
  }

  lemma NameWordsAreWords(lower: string -> string, value: string)
    ensures Words(NameWords(lower, value), Alnum) && Words(NameWords(lower, value), NotSpace)
    ensures WithoutSuffixes(NameWords(lower, value)) == NameWords(lower, value)
  {
    RunsAreWords(lower(value), Alnum);
    SuffixFree(Runs(lower(value), Alnum));
    var words := NameWords(lower, value);
    forall i | 0 <= i < |words| ensures Word(words[i], NotSpace) {
      assert Word(words[i], Alnum);
    }
  }

  /** A normalised name has exactly the counting words of the original. */
  lemma NormalizedWords(lower: string -> string, value: string)
    requires LeavesNormalAlone(lower)
    ensures NameWords(lower, NormalizeName(lower, value)) == NameWords(lower, value)
  {
    var words := NameWords(lower, value);
    NameWordsAreWords(lower, value);
    JoinedIsNormal(words);
    RunsOfJoined(words, Alnum);
  }

  lemma NormalizeNameIsIdempotent(lower: string -> string, value: string)
    requires LeavesNormalAlone(lower)
    ensures NormalizeName(lower, NormalizeName(lower, value)) == NormalizeName(lower, value)
    ensures NameTokens(lower, NormalizeName(lower, value)) == NameTokens(lower, value)
  {
    NormalizedWords(lower, value);
  }

  /** Two names normalise alike exactly when their counting words agree in order, and the tokens of a
      name are those words. */
  lemma SameNormalName(lower: string -> string, a: string, b: string)
    ensures NormalizeName(lower, a) == NormalizeName(lower, b) <==> NameWords(lower, a) == NameWords(lower, b)
    ensures NameTokens(lower, a) == set w | w in NameWords(lower, a)
  {
    NameWordsAreWords(lower, a);
    NameWordsAreWords(lower, b);
    RunsOfJoined(NameWords(lower, a), NotSpace);
    RunsOfJoined(NameWords(lower, b), NotSpace);
  }

  lemma {:induction false} WithoutSuffixesMembers(words: seq<string>, w: string)
    ensures w in WithoutSuffixes(words) <==> w in words && w !in COMPANY_SUFFIXES
  {
    if words != [] {
      WithoutSuffixesMembers(words[1..], w);
    }
  }

  /** The words that count are the runs of letters and digits, but for those that say what kind of company it is. */
  lemma NameWordsAre(lower: string -> string, value: string, letters: char -> bool, w: string)
    requires forall c :: letters(c) <==> 'a' <= c <= 'z' || '0' <= c <= '9'
    ensures w in NameWords(lower, value) <==> w in Runs(lower(value), letters) && w !in COMPANY_SUFFIXES
  {
    RunsSame(lower(value), Alnum, letters);
    WithoutSuffixesMembers(Runs(lower(value), Alnum), w);
  }

  /** The ten words that do not count, and the fourteen suffixes under which names are registered. */
  lemma SuffixesAre()
    ensures COMPANY_SUFFIXES == {"inc", "incorporated", "llc", "ltd", "limited", "corp", "corporation", "co", "company",
                                 "plc"}
    ensures COMMON_TWO_LEVEL_SUFFIXES
            == {"co.uk", "org.uk", "ac.uk", "gov.uk", "com.au", "net.au", "org.au", "co.nz", "com.br", "com.mx",
                "co.in",
                "co.jp", "com.sg", "com.hk"}
  {
  }

  // ---------- domains ----------

  /** The labels of a host name, empty ones included. */
  function Labels(host: string): (r: seq<string>)
    ensures r != []
    decreases |host|
  {
    var n := Span(host, NotDot);
    if n == |host| then [host] else [host[..n]] + Labels(host[n + 1..])
  }

  function DotJoined(labels: seq<string>): string {
    if labels == [] then ""
    else if |labels| == 1 then labels[0]
    else labels[0] + "." + DotJoined(labels[1..])
  }

  /** The last two labels, or three where the last two are a suffix to register under. */
  function Registered(parts: seq<string>, suffixes: set<string>): string
    requires |parts| > 2
  {
    var suffix := DotJoined(parts[|parts| - 2..]);
    if suffix in suffixes then DotJoined(parts[|parts| - 3..]) else suffix
  }

  /** `domain` is the normalisation of a domain or URL to its bare host. */
  function RegistrableDomain(domain: string -> string, value: string): string {
    var host := domain(value);
    var parts := Labels(host);
    if host == "" then ""
    else if |parts| <= 2 then host
    else Registered(parts, COMMON_TWO_LEVEL_SUFFIXES)
  }

  ghost predicate Dotless(part: string) {
    '.' !in part
  }

  /** Joining labels and taking the name apart again gives the labels. */
  lemma {:induction false} LabelsOfJoined(labels: seq<string>)
    requires labels != [] && forall part :: part in labels ==> Dotless(part)
    ensures Labels(DotJoined(labels)) == labels
  {
    var part, rest := labels[0], if |labels| == 1 then "" else "." + DotJoined(labels[1..]);
    assert DotJoined(labels) == part + rest;
    assert Dotless(part) && forall i :: 0 <= i < |part| ==> part[i] in part;
    SpanOfWord(part, rest, NotDot);
    assert (part + rest)[..|part|] == part;
    if |labels| > 1 {
      assert (part + rest)[|part| + 1..] == DotJoined(labels[1..]);
      LabelsOfJoined(labels[1..]);
      assert labels == [part] + labels[1..];
    }
  }

  lemma LastTwo(labels: seq<string>)
    requires |labels| > 2
    ensures var n := |labels|;
            var two := labels[n - 2] + "." + labels[n - 1];
            DotJoined(labels[n - 2..]) == two && DotJoined(labels[n - 3..]) == labels[n - 3] + "." + two
  {
    var n := |labels|;
    assert labels[n - 2..][1..] == [labels[n - 1]] && labels[n - 3..][1..] == labels[n - 2..];
  }

  lemma RegisteredUnder(labels: seq<string>, suffixes: set<string>)
    requires |labels| > 2
    ensures DotJoined(labels) != ""
    ensures var n := |labels|;
            var two := labels[n - 2] + "." + labels[n - 1];
            Registered(labels, suffixes) == if two in suffixes then labels[n - 3] + "." + two else two
  {
    LastTwo(labels);
    assert DotJoined(labels) == labels[0] + "." + DotJoined(labels[1..]);
  }

  /** A name of no more than two labels is registered as it is; ... */
  lemma RegistrableIfShort(domain: string -> string, value: string, labels: seq<string>)
    requires 1 <= |labels| <= 2 && forall part :: part in labels ==> Dotless(part)
    requires domain(value) == DotJoined(labels)
    ensures RegistrableDomain(domain, value) == DotJoined(labels)
  {
    LabelsOfJoined(labels);
  }

  /** ... any other by its last two labels, or three where names are registered under the last two. */
  lemma RegistrableIs(domain: string -> string, value: string, labels: seq<string>, suffixes: set<string>)
    requires |labels| > 2 && forall part :: part in labels ==> Dotless(part)
    requires domain(value) == DotJoined(labels) && suffixes == COMMON_TWO_LEVEL_SUFFIXES
    ensures var n := |labels|;
            var two := labels[n - 2] + "." + labels[n - 1];
            RegistrableDomain(domain, value) == if two in suffixes then labels[n - 3] + "." + two else two
  {
    LabelsOfJoined(labels);
    RegisteredUnder(labels, suffixes);
  }
}
