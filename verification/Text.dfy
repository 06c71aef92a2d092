/** White space as Python sees it, the scanning of prefixes, the order of strings, and parts joined
    by a separator. */
module Text {
  /** The characters for which `str.isspace` holds, which are also those `\s` matches. */
  predicate IsSpace(c: char) {
    var code := c as int;
    || 9 <= code <= 13 || 28 <= code <= 32 || code == 0x85 || code == 0xA0 || code == 0x1680
    || 0x2000 <= code <= 0x200A || code == 0x2028 || code == 0x2029 || code == 0x202F || code == 0x205F
       || code == 0x3000
  }

  /** Stripping leaves nothing. */
  predicate Blank(s: string) {
    s == "" || (IsSpace(s[0]) && Blank(s[1..]))
  }

  /** The 29 characters of white space, one for one. */
  lemma SpacesAre(c: char)
    ensures IsSpace(c) <==> c as int in {9, 10, 11, 12, 13, 28, 29, 30, 31, 32, 133, 160, 5760,
                                         8192, 8193, 8194, 8195, 8196, 8197, 8198, 8199, 8200, 8201, 8202,
                                         8232, 8233, 8239, 8287, 12288}
  {
  }

  lemma {:induction false} BlankIff(s: string)
    ensures Blank(s) <==> forall i :: 0 <= i < |s| ==> IsSpace(s[i])
  {
    if s != "" {
      BlankIff(s[1..]);
      assert forall i :: 0 < i < |s| ==> s[i] == s[1..][i - 1];
    }
  }

  predicate NotDot(c: char) {
    c != '.'
  }

  /** The length of the longest prefix of characters to keep. */
  function Span(s: string, keep: char -> bool): (n: nat)
    ensures n <= |s|
  {
    if s == "" || !keep(s[0]) then 0 else 1 + Span(s[1..], keep)
  }

  lemma {:induction false} SpanOfWord(w: string, rest: string, keep: char -> bool)
    requires forall i :: 0 <= i < |w| ==> keep(w[i])
    requires rest == "" || !keep(rest[0])
    ensures Span(w + rest, keep) == |w|
  {
    if w != "" {
      assert (w + rest)[1..] == w[1..] + rest;
      SpanOfWord(w[1..], rest, keep);
    } else {
      assert w + rest == rest;
    }
  }

  lemma {:induction false} SpanKept(s: string, keep: char -> bool)
    ensures forall i :: 0 <= i < Span(s, keep) ==> keep(s[i])
  {
    if s != "" && keep(s[0]) {
      SpanKept(s[1..], keep);
    }
  }

  /** Lexicographic order on strings, by code point. */
  predicate TextAtLeast(a: string, b: string) {
    b == "" || (a != "" && (a[0] > b[0] || (a[0] == b[0] && TextAtLeast(a[1..], b[1..]))))
  }

  lemma {:induction false} TextOrder(a: string, b: string, c: string)
    ensures TextAtLeast(a, b) || TextAtLeast(b, a)
    ensures TextAtLeast(a, b) && TextAtLeast(b, c) ==> TextAtLeast(a, c)
    ensures TextAtLeast(a, b) && TextAtLeast(b, a) ==> a == b
    ensures TextAtLeast(a, a)
  {
    if a != "" {
      if b != "" && c != "" {
        TextOrder(a[1..], b[1..], c[1..]);
      } else if b != "" {
        TextOrder(a[1..], b[1..], "");
      } else {
        TextOrder(a[1..], "", "");
      }
    }
    if a != "" && b != "" && a[0] == b[0] && a[1..] == b[1..] {
      assert a == [a[0]] + a[1..] && b == [b[0]] + b[1..];
    }
  }

  /** Up to the first `k` characters the texts agree, and there `a` ends or has the smaller character. */
  ghost predicate DiffersAt(a: string, b: string, k: nat) {
    k <= |a| && k < |b| && a[..k] == b[..k] && (k == |a| || a[k] < b[k])
  }

  lemma StartsAlike(a: string, b: string, k: nat)
    requires DiffersAt(a, b, k)
    ensures k > 0 ==> a[0] == b[0]
  {
    if k > 0 {
      assert a[..k][0] == b[..k][0];
    }
  }

  /** A text comes before another if it is a proper beginning of it, or smaller where they first differ. */
  lemma {:induction false} BeforeIff(a: string, b: string)
    ensures !TextAtLeast(a, b) <==> exists k :: DiffersAt(a, b, k)
  {
    if b != "" && (a == "" || a[0] < b[0]) {
      assert DiffersAt(a, b, 0);
    } else if a != "" && b != "" && a[0] == b[0] {
      BeforeIff(a[1..], b[1..]);
      if k: nat :| DiffersAt(a[1..], b[1..], k) {
        assert a[..k + 1] == [a[0]] + a[1..][..k] && b[..k + 1] == [b[0]] + b[1..][..k];
        assert DiffersAt(a, b, k + 1);
      }
      if k: nat :| DiffersAt(a, b, k) {
        assert a[1..][..k - 1] == a[..k][1..] && b[1..][..k - 1] == b[..k][1..];
        assert DiffersAt(a[1..], b[1..], k - 1);
      }
    } else if k: nat :| DiffersAt(a, b, k) {
      StartsAlike(a, b, k);
    }
  }

  /** The length of the part before the first separator. */
  function HeadLength(s: string, sep: char): nat {
    if s == "" || s[0] == sep then 0 else 1 + HeadLength(s[1..], sep)
  }

  /** The length of the part after the last separator. */
  function TailLength(s: string, sep: char): nat {
    if s == "" || s[|s| - 1] == sep then 0 else 1 + TailLength(s[..|s| - 1], sep)
  }

  lemma {:induction false} HeadOf(a: string, rest: string, sep: char)
    requires sep !in a
    ensures HeadLength(a + [sep] + rest, sep) == |a|
  {
    if a == "" {
      assert (a + [sep] + rest)[0] == sep;
    } else {
      assert (a + [sep] + rest)[1..] == a[1..] + [sep] + rest;
      HeadOf(a[1..], rest, sep);
    }
  }

  lemma {:induction false} TailOf(front: string, a: string, sep: char)
    requires sep !in a
    ensures TailLength(front + [sep] + a, sep) == |a|
  {
    var whole := front + [sep] + a;
    if a == "" {
      assert whole[|whole| - 1] == sep;
    } else {
      assert whole[..|whole| - 1] == front + [sep] + a[..|a| - 1];
      assert whole[|whole| - 1] == a[|a| - 1];
      TailOf(front, a[..|a| - 1], sep);
    }
  }

  /** What is before the first separator and what is after it. */
  lemma HeadSplits(a: string, rest: string, d: string, other: string, sep: char)
    requires sep !in a && sep !in d && a + [sep] + rest == d + [sep] + other
    ensures a == d && rest == other
  {
    HeadOf(a, rest, sep);
    HeadOf(d, other, sep);
    assert a == (a + [sep] + rest)[..|a|] && d == (d + [sep] + other)[..|d|];
    assert rest == (a + [sep] + rest)[|a| + 1..] && other == (d + [sep] + other)[|d| + 1..];
  }

  lemma TailSplits(front: string, a: string, other: string, d: string, sep: char)
    requires sep !in a && sep !in d && front + [sep] + a == other + [sep] + d
    ensures front == other && a == d
  {
    TailOf(front, a, sep);
    TailOf(other, d, sep);
    assert front == (front + [sep] + a)[..|front|] && other == (other + [sep] + d)[..|other|];
    assert a == (front + [sep] + a)[|front| + 1..] && d == (other + [sep] + d)[|other| + 1..];
  }

  /** Three parts joined by a separator can be told apart when the outer two do not contain it; the middle
      one may. */
  lemma ThreeParts(a: string, b: string, c: string, d: string, e: string, f: string, sep: char)
    requires sep !in a && sep !in c && sep !in d && sep !in f
    requires a + [sep] + (b + [sep] + c) == d + [sep] + (e + [sep] + f)
    ensures a == d && b == e && c == f
  {
    HeadSplits(a, b + [sep] + c, d, e + [sep] + f, sep);
    TailSplits(b, c, e, f, sep);
  }
}
