/** Choosing which search results to fetch: one of each research purpose first, then the best of the rest. */
module UrlSelection {

  /** How good the host of a page is; 3 is not good enough. */
  type Score = string -> nat

  const TOO_LOW := 3

  predicate Better(score: Score, a: string, b: string) {
    score(a) < score(b) || (score(a) == score(b) && |a| <= |b|)
  }

  function Insert(score: Score, x: string, sorted: seq<string>): seq<string> {
    if sorted == [] || Better(score, x, sorted[0]) then [x] + sorted else [sorted[0]] + Insert(score, x, sorted[1..])
  }

  /** By score, then by length; ties keep their order. */
  function Sorted(score: Score, urls: seq<string>): seq<string> {
    if urls == [] then [] else Insert(score, urls[0], Sorted(score, urls[1..]))
  }

  function Unseen(urls: seq<string>, selected: seq<string>): seq<string> {
    if urls == [] then []
    else if urls[0] in selected then Unseen(urls[1..], selected)
    else [urls[0]] + Unseen(urls[1..], selected)
  }

  // ---------- the two passes ----------

  /** The first good enough candidate is selected. */
  function TakeFirst(score: Score, candidates: seq<string>, selected: seq<string>): seq<string> {
    if candidates == [] then selected
    else if score(candidates[0]) >= TOO_LOW then TakeFirst(score, candidates[1..], selected)
    else selected + [candidates[0]]
  }

  function FirstPass(score: Score, searches: seq<seq<string>>, limit: nat, selected: seq<string>): seq<string> {
    if searches == [] then selected
    else
      var next := TakeFirst(score, Sorted(score, Unseen(searches[0], selected)), selected);
      if |next| == limit then next else FirstPass(score, searches[1..], limit, next)
  }

  /** Every good enough candidate not selected yet, up to the limit. */
  function Fill(score: Score, candidates: seq<string>, limit: nat, selected: seq<string>): seq<string> {
    if candidates == [] || |selected| == limit then selected
    else if candidates[0] in selected || score(candidates[0]) >= TOO_LOW then
      Fill(score, candidates[1..], limit, selected)
    else Fill(score, candidates[1..], limit, selected + [candidates[0]])
  }

  function SecondPass(score: Score, searches: seq<seq<string>>, limit: nat, selected: seq<string>): seq<string> {
    if searches == [] || |selected| == limit then selected
    else SecondPass(score, searches[1..], limit, Fill(score, Sorted(score, searches[0]), limit, selected))
  }

  function Select(score: Score, searches: seq<seq<string>>, limit: nat): seq<string> {
    SecondPass(score, searches, limit, FirstPass(score, searches, limit, []))
  }

  /** The source cuts the answer to the limit at the end; there is never anything to cut. */
  method SelectFetchUrls(score: Score, searches: seq<seq<string>>, limit: nat) returns (selected: seq<string>)
    requires 1 <= limit
    ensures selected == Select(score, searches, limit)
  {
    selected := [];
    for i := 0 to |searches|
      invariant FirstPass(score, searches[i..], limit, selected) == FirstPass(score, searches, limit, [])
      invariant |selected| < limit
    {
      assert searches[i..][1..] == searches[i + 1..];
      var candidates := Sorted(score, Unseen(searches[i], selected));
      ghost var before := selected;
      for j := 0 to |candidates|
        invariant selected == before
        invariant TakeFirst(score, candidates[j..], before) == TakeFirst(score, candidates, before)
      {
        assert candidates[j..][1..] == candidates[j + 1..];
        if score(candidates[j]) >= TOO_LOW {
          continue;
        }
        selected := selected + [candidates[j]];
        break;
      }
      if |selected| == limit {
        return;
      }
    }
    ghost var first := selected;
    for i := 0 to |searches|
      invariant |selected| < limit
      invariant SecondPass(score, searches[i..], limit, selected) == SecondPass(score, searches, limit, first)
    {
      assert searches[i..][1..] == searches[i + 1..];
      var candidates := Sorted(score, searches[i]);
      ghost var before := selected;
      for j := 0 to |candidates|
        invariant |selected| < limit
        invariant Fill(score, candidates[j..], limit, selected) == Fill(score, candidates, limit, before)
      {
        assert candidates[j..][1..] == candidates[j + 1..];
        if candidates[j] in selected || score(candidates[j]) >= TOO_LOW {
          continue;
        }
        selected := selected + [candidates[j]];
        if |selected| == limit {
          return;
        }
      }
    }
  }

  // ---------- sorting ----------

  lemma {:induction false} InsertMembers(score: Score, x: string, s: seq<string>)
    ensures forall y :: y in Insert(score, x, s) <==> y == x || y in s
  {
    if s != [] && !Better(score, x, s[0]) {
      InsertMembers(score, x, s[1..]);
    }
  }

  lemma {:induction false} SortedMembers(score: Score, urls: seq<string>)
    ensures forall y :: y in Sorted(score, urls) <==> y in urls
  {
    if urls != [] {
      SortedMembers(score, urls[1..]);
      InsertMembers(score, urls[0], Sorted(score, urls[1..]));
    }
  }

  ghost predicate HeadIsBest(score: Score, s: seq<string>) {
    s == [] || ((forall y :: y in s ==> Better(score, s[0], y)) && HeadIsBest(score, s[1..]))
  }

  lemma {:induction false} InsertKeepsOrder(score: Score, x: string, s: seq<string>)
    requires HeadIsBest(score, s)
    ensures HeadIsBest(score, Insert(score, x, s))
  {
    InsertMembers(score, x, s);
    if s == [] || Better(score, x, s[0]) {
      assert ([x] + s)[1..] == s;
    } else {
      InsertKeepsOrder(score, x, s[1..]);
      assert Insert(score, x, s)[1..] == Insert(score, x, s[1..]);
    }
  }

  lemma {:induction false} SortedInOrder(score: Score, urls: seq<string>)
    ensures HeadIsBest(score, Sorted(score, urls))
  {
    if urls != [] {
      SortedInOrder(score, urls[1..]);
      InsertKeepsOrder(score, urls[0], Sorted(score, urls[1..]));
    }
  }

  lemma {:induction false} UnseenMembers(urls: seq<string>, selected: seq<string>)
    ensures forall y :: y in Unseen(urls, selected) <==> y in urls && y !in selected
  {
    if urls != [] {
      UnseenMembers(urls[1..], selected);
    }
  }

  // ---------- what is selected ----------

  predicate Eligible(score: Score, url: string) {
    score(url) < TOO_LOW
  }

  ghost predicate Distinct(urls: seq<string>) {
    forall i, j :: 0 <= i < j < |urls| ==> urls[i] != urls[j]
  }

  ghost predicate Found(searches: seq<seq<string>>, url: string) {
    exists i :: 0 <= i < |searches| && url in searches[i]
  }

  /** Distinct, good enough, and found by a search. */
  ghost predicate Sound(score: Score, searches: seq<seq<string>>, selected: seq<string>) {
    Distinct(selected) && forall url :: url in selected ==> Eligible(score, url) && Found(searches, url)
  }

  lemma {:induction false} NoneTaken(score: Score, candidates: seq<string>, selected: seq<string>)
    requires forall c :: c in candidates ==> !Eligible(score, c)
    ensures TakeFirst(score, candidates, selected) == selected
  {
    if candidates != [] {
      assert candidates[0] in candidates;
      NoneTaken(score, candidates[1..], selected);
    }
  }

  /** With candidates in order, the one taken is the best of them; nothing is taken only if none is good enough. */
  lemma TakeFirstTakesBest(score: Score, candidates: seq<string>, selected: seq<string>)
    requires HeadIsBest(score, candidates)
    ensures var next := TakeFirst(score, candidates, selected);
            || (next == selected && forall c :: c in candidates ==> !Eligible(score, c))
            || (candidates != [] && next == selected + [candidates[0]] && Eligible(score, candidates[0])
                && forall c :: c in candidates ==> Better(score, candidates[0], c))
  {
    if candidates != [] && !Eligible(score, candidates[0]) {
      NoneTaken(score, candidates, selected);
    }
  }

  /** One search in the first pass: the best of its results not selected yet, if any is good enough. */
  lemma PurposeGetsItsBest(score: Score, results: seq<string>, selected: seq<string>)
    ensures var next := TakeFirst(score, Sorted(score, Unseen(results, selected)), selected);
            || (next == selected && forall c :: c in results && Eligible(score, c) ==> c in selected)
            || exists best :: best in results && best !in selected && Eligible(score, best) && next == selected + [best]
                 && forall c :: c in results && c !in selected ==> Better(score, best, c)
  {
    var candidates := Sorted(score, Unseen(results, selected));
    SortedMembers(score, Unseen(results, selected));
    SortedInOrder(score, Unseen(results, selected));
    UnseenMembers(results, selected);
    TakeFirstTakesBest(score, candidates, selected);
  }

  /** A result of the search is selected. */
  ghost predicate Represented(results: seq<string>, selected: seq<string>) {
    exists url :: url in results && url in selected
  }

  ghost predicate HasEligible(score: Score, results: seq<string>) {
    exists url :: url in results && Eligible(score, url)
  }

  lemma FirstPassStep(score: Score, searches: seq<seq<string>>, i: nat, selected: seq<string>, next: seq<string>)
    requires i < |searches| && Sound(score, searches, selected)
    requires next == TakeFirst(score, Sorted(score, Unseen(searches[i], selected)), selected)
    ensures Sound(score, searches, next) && selected <= next && |next| <= |selected| + 1
    ensures HasEligible(score, searches[i]) ==> Represented(searches[i], next)
  {
    PurposeGetsItsBest(score, searches[i], selected);
    if next != selected {
      var best := next[|next| - 1];
      assert Found(searches, best);
      assert best in next;
    }
  }

  /** The first pass from search `i` on. */
  lemma {:induction false} FirstPassSelects(score: Score, searches: seq<seq<string>>, limit: nat, i: nat,
                                            selected: seq<string>)
    requires 1 <= limit && i <= |searches| && Sound(score, searches, selected) && |selected| <= i && |selected| < limit
    ensures var r := FirstPass(score, searches[i..], limit, selected);
            && Sound(score, searches, r) && selected <= r && |r| <= limit
            && forall k :: i <= k < |searches| && k < limit && HasEligible(score, searches[k]) ==>
                 Represented(searches[k], r)
    decreases |searches| - i
  {
    if i < |searches| {
      var next := TakeFirst(score, Sorted(score, Unseen(searches[i], selected)), selected);
      var r := FirstPass(score, searches[i..], limit, selected);
      assert searches[i..][1..] == searches[i + 1..];
      FirstPassStep(score, searches, i, selected, next);
      if |next| < limit {
        FirstPassSelects(score, searches, limit, i + 1, next);
      }
      if HasEligible(score, searches[i]) {
        var url :| url in searches[i] && url in next;
        assert url in r;
      }
    }
  }

  lemma PrefixMember(a: seq<string>, b: seq<string>, x: string)
    requires a <= b && x in a
    ensures x in b
  {
  }

  lemma {:induction false} FillSelects(score: Score, searches: seq<seq<string>>, candidates: seq<string>, limit: nat,
                                       selected: seq<string>)
    requires Sound(score, searches, selected) && |selected| <= limit
    requires forall c :: c in candidates ==> Found(searches, c)
    ensures var r := Fill(score, candidates, limit, selected);
            && Sound(score, searches, r) && selected <= r && |r| <= limit
            && (|r| == limit || forall c :: c in candidates && Eligible(score, c) ==> c in r)
    decreases |candidates|
  {
    if candidates != [] && |selected| < limit {
      var c := candidates[0];
      var next := if c in selected || score(c) >= TOO_LOW then selected else selected + [c];
      assert Sound(score, searches, next);
      FillSelects(score, searches, candidates[1..], limit, next);
      assert forall x :: x in candidates <==> x == c || x in candidates[1..];
      if Eligible(score, c) {
        assert c in next;
        PrefixMember(next, Fill(score, candidates, limit, selected), c);
      }
    }
  }

  lemma {:induction false} SecondPassSelects(score: Score, searches: seq<seq<string>>, limit: nat, i: nat,
                                             selected: seq<string>)
    requires i <= |searches| && Sound(score, searches, selected) && |selected| <= limit
    ensures var r := SecondPass(score, searches[i..], limit, selected);
            && Sound(score, searches, r) && selected <= r && |r| <= limit
            && (|r| == limit || forall k, url :: i <= k < |searches| && url in searches[k] && Eligible(score, url) ==>
                  url in r)
    decreases |searches| - i
  {
    if i < |searches| && |selected| < limit {
      var candidates := Sorted(score, searches[i]);
      SortedMembers(score, searches[i]);
      var next := Fill(score, candidates, limit, selected);
      FillSelects(score, searches, candidates, limit, selected);
      assert searches[i..][1..] == searches[i + 1..];
      SecondPassSelects(score, searches, limit, i + 1, next);
    }
  }

  /** What is selected: distinct good pages that a search found, at most `limit` of them, and all of them if
      there are fewer; and each of the first `limit` purposes that has a good result is represented. */
  lemma SelectionIsComplete(score: Score, searches: seq<seq<string>>, limit: nat)
    requires 1 <= limit
    ensures var r := Select(score, searches, limit);
            && Sound(score, searches, r) && |r| <= limit
            && (|r| == limit || forall url :: Found(searches, url) && Eligible(score, url) ==> url in r)
            && forall k :: 0 <= k < |searches| && k < limit && HasEligible(score, searches[k]) ==>
                 Represented(searches[k], r)
  {
    assert searches[0..] == searches;
    var first, r := FirstPass(score, searches, limit, []), Select(score, searches, limit);
    FirstPassSelects(score, searches, limit, 0, []);
    SecondPassSelects(score, searches, limit, 0, first);
    forall k | 0 <= k < |searches| && k < limit && HasEligible(score, searches[k]) ensures Represented(searches[k], r) {
      var url :| url in searches[k] && url in first;
      assert url in r;
    }
  }

  /** So with room for every purpose, every purpose with a good result is represented. */
  lemma EveryPurposeRepresented(score: Score, searches: seq<seq<string>>, limit: nat, k: nat)
    requires 1 <= limit && |searches| <= limit && k < |searches|
    ensures HasEligible(score, searches[k]) <==>
            exists url :: url in searches[k] && Eligible(score, url) && url in Select(score, searches, limit)
  {
    SelectionIsComplete(score, searches, limit);
  }

  // ---------- in what order ----------

  /** A better score, or as good a one and no longer a name. */
  ghost predicate AtLeastAsGood(score: Score, a: string, b: string) {
    score(a) < score(b) || (score(a) == score(b) && |a| <= |b|)
  }

  /** Those of the pages that sorting does not tell apart from a given one. */
  function Alike(score: Score, urls: seq<string>, x: string): seq<string> {
    if urls == [] then []
    else (if score(urls[0]) == score(x) && |urls[0]| == |x| then [urls[0]] else []) + Alike(score, urls[1..], x)
  }

  lemma {:induction false} InsertKeepsAlike(score: Score, x: string, s: seq<string>, y: string)
    ensures Alike(score, Insert(score, x, s), y) == Alike(score, [x] + s, y)
  {
    assert ([x] + s)[1..] == s;
    if s != [] && !Better(score, x, s[0]) {
      var rest := Insert(score, x, s[1..]);
      InsertKeepsAlike(score, x, s[1..], y);
      assert ([s[0]] + rest)[1..] == rest && ([x] + s[1..])[1..] == s[1..];
    }
  }

  /** Pages as good as each other keep their order. */
  lemma {:induction false} SortedKeepsAlike(score: Score, urls: seq<string>, y: string)
    ensures Alike(score, Sorted(score, urls), y) == Alike(score, urls, y)
  {
    if urls != [] {
      SortedKeepsAlike(score, urls[1..], y);
      InsertKeepsAlike(score, urls[0], Sorted(score, urls[1..]), y);
      assert ([urls[0]] + Sorted(score, urls[1..]))[1..] == Sorted(score, urls[1..]);
    }
  }

  /** One more search in the first pass adds the best of its pages that is good enough and not selected yet, if there is
      room and there is one. */
  ghost predicate AddsBest(score: Score, results: seq<string>, limit: nat, before: seq<string>, after: seq<string>) {
    if |before| == limit then after == before
    else
      || (after == before && forall c :: c in results && score(c) < 3 ==> c in before)
      || exists best :: best in results && best !in before && score(best) < 3 && after == before + [best]
           && forall c :: c in results && c !in before ==> AtLeastAsGood(score, best, c)
  }

  lemma {:induction false} FirstPassSnoc(score: Score, searches: seq<seq<string>>, results: seq<string>, limit: nat,
                                         selected: seq<string>)
    requires |selected| < limit
    ensures AddsBest(score, results, limit, FirstPass(score, searches, limit, selected),
                     FirstPass(score, searches + [results], limit, selected))
    ensures |FirstPass(score, searches, limit, selected)| <= limit
  {
    if searches == [] {
      assert ([] + [results])[1..] == [];
      PurposeGetsItsBest(score, results, selected);
    } else {
      assert (searches + [results])[1..] == searches[1..] + [results];
      var next := TakeFirst(score, Sorted(score, Unseen(searches[0], selected)), selected);
      PurposeGetsItsBest(score, searches[0], selected);
      if |next| < limit {
        FirstPassSnoc(score, searches[1..], results, limit, next);
      }
    }
  }

  /** So the first pass goes through the searches in order, taking the best there is of each. */
  lemma FirstPassTakesBest(score: Score, searches: seq<seq<string>>, limit: nat, k: nat)
    requires 1 <= limit && k < |searches|
    ensures AddsBest(score, searches[k], limit, FirstPass(score, searches[..k], limit, []),
                     FirstPass(score, searches[..k + 1], limit, []))
    ensures FirstPass(score, [], limit, []) == []
  {
    assert searches[..k + 1] == searches[..k] + [searches[k]];
    FirstPassSnoc(score, searches[..k], searches[k], limit, []);
  }

  /** One more search in the second pass adds its good pages not selected yet, the best first, as far as there is
      room. */
  ghost predicate AddsRest(score: Score, results: seq<string>, limit: nat, before: seq<string>, after: seq<string>) {
    && before <= after && |after| <= limit
    && (forall i :: |before| <= i < |after| ==> after[i] in results && score(after[i]) < 3 && after[i] !in before)
    && (forall i, j :: |before| <= i < j < |after| ==> AtLeastAsGood(score, after[i], after[j]))
    && (forall c :: c in results && score(c) < 3 && c !in after ==>
          |after| == limit && forall i :: |before| <= i < |after| ==> AtLeastAsGood(score, after[i], c))
  }

  /** From position `from` on the pages are in order, and at least as good as those still to come. */
  ghost predicate Leads(score: Score, from: nat, selected: seq<string>, candidates: seq<string>) {
    && (forall i, c :: from <= i < |selected| && c in candidates ==> AtLeastAsGood(score, selected[i], c))
    && (forall i, j :: from <= i < j < |selected| ==> AtLeastAsGood(score, selected[i], selected[j]))
  }

  lemma LeadsOn(score: Score, from: nat, selected: seq<string>, candidates: seq<string>)
    requires candidates != [] && HeadIsBest(score, candidates) && Leads(score, from, selected, candidates)
    requires from <= |selected|
    ensures Leads(score, from, selected, candidates[1..])
    ensures Leads(score, from, selected + [candidates[0]], candidates[1..])
  {
    var c := candidates[0];
    var next := selected + [c];
    assert c in candidates && forall x :: x in candidates[1..] ==> x in candidates;
    forall i, x | from <= i < |next| && x in candidates[1..] ensures AtLeastAsGood(score, next[i], x) {
      assert i == |selected| ==> Better(score, c, x);
    }
    forall i, j | from <= i < j < |next| ensures AtLeastAsGood(score, next[i], next[j]) {
      assert j == |selected| ==> AtLeastAsGood(score, selected[i], c);
    }
  }

  lemma {:induction false} FillAdds(score: Score, candidates: seq<string>, limit: nat, from: nat, selected: seq<string>)
    requires HeadIsBest(score, candidates) && from <= |selected| <= limit && Leads(score, from, selected, candidates)
    ensures var r := Fill(score, candidates, limit, selected);
            && selected <= r && |r| <= limit
            && (forall i :: |selected| <= i < |r| ==> r[i] in candidates && score(r[i]) < 3 && r[i] !in selected)
            && (forall i, j :: from <= i < j < |r| ==> AtLeastAsGood(score, r[i], r[j]))
            && (forall c :: c in candidates && score(c) < 3 && c !in r ==>
                  |r| == limit && forall i :: from <= i < |r| ==> AtLeastAsGood(score, r[i], c))
    decreases |candidates|
  {
    if candidates != [] && |selected| < limit {
      var c := candidates[0];
      var next := if c in selected || score(c) >= TOO_LOW then selected else selected + [c];
      LeadsOn(score, from, selected, candidates);
      FillAdds(score, candidates[1..], limit, from, next);
      assert forall x :: x in candidates <==> x == c || x in candidates[1..];
      if score(c) < 3 {
        assert c in next;
        PrefixMember(next, Fill(score, candidates, limit, selected), c);
      }
    }
  }

  lemma SearchAddsRest(score: Score, results: seq<string>, limit: nat, selected: seq<string>)
    requires |selected| <= limit
    ensures AddsRest(score, results, limit, selected, Fill(score, Sorted(score, results), limit, selected))
  {
    SortedMembers(score, results);
    SortedInOrder(score, results);
    FillAdds(score, Sorted(score, results), limit, |selected|, selected);
  }

  lemma {:induction false} SecondPassSnoc(score: Score, searches: seq<seq<string>>, results: seq<string>, limit: nat,
                                          selected: seq<string>)
    requires |selected| <= limit
    ensures AddsRest(score, results, limit, SecondPass(score, searches, limit, selected),
                     SecondPass(score, searches + [results], limit, selected))
    ensures |SecondPass(score, searches, limit, selected)| <= limit
  {
    if searches == [] {
      assert ([] + [results])[1..] == [];
      SearchAddsRest(score, results, limit, selected);
    } else {
      assert (searches + [results])[1..] == searches[1..] + [results];
      var next := Fill(score, Sorted(score, searches[0]), limit, selected);
      SearchAddsRest(score, searches[0], limit, selected);
      if |selected| < limit {
        SecondPassSnoc(score, searches[1..], results, limit, next);
      }
    }
  }

  /** The second pass goes through them in order again, taking all the rest that is good enough, until the limit is
      reached. */
  lemma SecondPassTakesRest(score: Score, searches: seq<seq<string>>, limit: nat, k: nat)
    requires 1 <= limit && k < |searches|
    ensures var first := FirstPass(score, searches, limit, []);
            AddsRest(score, searches[k], limit, SecondPass(score, searches[..k], limit, first),
                     SecondPass(score, searches[..k + 1], limit, first))
    ensures var first := FirstPass(score, searches, limit, []);
            SecondPass(score, [], limit, first) == first
            && SecondPass(score, searches[..|searches|], limit, first) == Select(score, searches, limit)
  {
    assert searches[..|searches|] == searches && searches[..k + 1] == searches[..k] + [searches[k]];
    FirstPassSnoc(score, searches, [], limit, []);
    SecondPassSnoc(score, searches[..k], searches[k], limit, FirstPass(score, searches, limit, []));
  }
}
