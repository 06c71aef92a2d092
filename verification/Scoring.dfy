/** What a comparison is worth, and in what order comparisons are reported.

    The score of a candidate is given in points for each piece of evidence, with the points written out. From it
    follow when a candidate is plausible, what an eligible one has at least,
      and the order of a decision's comparisons. */
module Scoring {
  import opened Text
  import opened Wrappers
  import opened Normalization
  import opened Matching
  import opened Resolver

  function Points(present: bool, points: int): int {
    if present then points else 0
  }

  /** Lead and candidate are known to be in the same place. */
  ghost predicate SharesPlace(lib: Library, lead: Lead, c: Candidate) {
    exists place, other :: place in [lead.countryCode, lead.region, lead.city] && other in c.geography
                           && NormalizeName(lib.lower, place) == NormalizeName(lib.lower, other) != ""
  }

  lemma OverlapIsShared(lib: Library, lead: Lead, c: Candidate, t: string)
    requires t in LeadGeography(lib, lead) * GeographyTokens(lib, c.geography)
    ensures SharesPlace(lib, lead, c)
  {
    var place :| place in [lead.countryCode, lead.region, lead.city] && NormalizeName(lib.lower, place) == t;
    var other :| other in c.geography && NormalizeName(lib.lower, other) == t;
  }

  lemma SharedIsOverlap(lib: Library, lead: Lead, c: Candidate)
    requires SharesPlace(lib, lead, c)
    ensures LeadGeography(lib, lead) * GeographyTokens(lib, c.geography) != {}
  {
    var place, other :| place in [lead.countryCode, lead.region, lead.city] && other in c.geography
                        && NormalizeName(lib.lower, place) == NormalizeName(lib.lower, other) != "";
    assert NormalizeName(lib.lower, place) in LeadGeography(lib, lead) * GeographyTokens(lib, c.geography);
  }

  lemma PlacesOverlap(lib: Library, lead: Lead, c: Candidate)
    ensures Evidence(lib, lead, c, GeographyMatch) <==> SharesPlace(lib, lead, c)
  {
    if t :| t in LeadGeography(lib, lead) * GeographyTokens(lib, c.geography) {
      OverlapIsShared(lib, lead, c, t);
    }
    if SharesPlace(lib, lead, c) {
      SharedIsOverlap(lib, lead, c);
    }
  }

  /** The domains agree, and the candidate's is verified. */
  ghost predicate VerifiedDomain(lib: Library, lead: Lead, c: Candidate) {
    lib.domain(lead.domain) == lib.domain(c.canonicalDomain) != "" && c.domainVerified
  }

  /** The names count the same words. */
  ghost predicate EqualNames(lib: Library, lead: Lead, c: Candidate) {
    NameWords(lib.lower, LeadName(lead)) == NameWords(lib.lower, c.canonicalName) != []
  }

  /** The names differ, and their words are similar by four fifths. */
  ghost predicate CloseNames(lib: Library, lead: Lead, c: Candidate) {
    var a, b := NameWords(lib.lower, LeadName(lead)), NameWords(lib.lower, c.canonicalName);
    a != b && a != [] && b != [] && lib.similarity(set w | w in a, set w | w in b) >= 0.8
  }

  lemma {:induction false} NoWordsNoName(lower: string -> string, value: string)
    ensures NormalizeName(lower, value) == "" <==> NameWords(lower, value) == []
  {
    NameWordsAreWords(lower, value);
    if NameWords(lower, value) != [] {
      assert Word(NameWords(lower, value)[0], NotSpace);
    }
  }

  lemma NamesAgree(lib: Library, lead: Lead, c: Candidate)
    ensures Evidence(lib, lead, c, NormalizedCompanyName) <==> EqualNames(lib, lead, c)
    ensures Evidence(lib, lead, c, NameSimilarity) <==> CloseNames(lib, lead, c)
  {
    var name := LeadName(lead);
    NoWordsNoName(lib.lower, name);
    NoWordsNoName(lib.lower, c.canonicalName);
    SameNormalName(lib.lower, name, c.canonicalName);
    SameNormalName(lib.lower, c.canonicalName, name);
    var a, b := NameWords(lib.lower, name), NameWords(lib.lower, c.canonicalName);
    assert a != [] ==> a[0] in NameTokens(lib.lower, name);
    assert b != [] ==> b[0] in NameTokens(lib.lower, c.canonicalName);
  }

  lemma {:induction false} TotalOf(lib: Library, lead: Lead, c: Candidate, codes: seq<Code>, n: nat)
    requires n < |codes|
    ensures Total(Noted(lib, lead, c, codes[n..]))
            == Points(Evidence(lib, lead, c, codes[n]), WeightOf(codes[n])) + Total(Noted(lib, lead, c, codes[n + 1..]))
  {
    assert codes[n..][1..] == codes[n + 1..];
    var rest := Noted(lib, lead, c, codes[n + 1..]);
    assert ([SignalFor(codes[n])] + rest)[1..] == rest;
  }

  ghost function StrongPoints(lib: Library, lead: Lead, c: Candidate): int {
    Points(VerifiedDomain(lib, lead, c), 100) + Points(c.officialCorporateUrlMatch, 95)
    + Points(c.explicitOfficialIdentityTie, 90)
  }

  ghost function OtherPoints(lib: Library, lead: Lead, c: Candidate): int {
    Points(EqualNames(lib, lead, c), 55) + Points(SharesPlace(lib, lead, c), 20)
    + Points(c.registeredIdentityMatch, 35) + Points(c.corporateSocialMatch, 25)
    + Points(c.parentRelationshipConsistent, 15) + Points(CloseNames(lib, lead, c), 10)
  }

  ghost function Deductions(c: Candidate): int {
    Points(c.conflictingAuthoritativeDomain, 100) + Points(c.conflictingGeography, 100)
    + Points(c.clearlyDifferentLegalEntity, 100) + Points(c.historicalOnly, 100)
    + Points(c.externalProviderRelationship, 100)
  }

  /** What the test for one code adds. */
  ghost function Adds(lib: Library, lead: Lead, c: Candidate, code: Code): int {
    Points(Evidence(lib, lead, c, code), WeightOf(code))
  }

  lemma TotalOfThree(lib: Library, lead: Lead, c: Candidate, codes: seq<Code>, n: nat)
    requires n + 2 < |codes|
    ensures Total(Noted(lib, lead, c, codes[n..]))
            == Adds(lib, lead, c, codes[n]) + Adds(lib, lead, c, codes[n + 1]) + Adds(lib, lead, c, codes[n + 2])
               + Total(Noted(lib, lead, c, codes[n + 3..]))
  {
    TotalOf(lib, lead, c, codes, n);
    TotalOf(lib, lead, c, codes, n + 1);
    TotalOf(lib, lead, c, codes, n + 2);
  }

  lemma StrongAdds(lib: Library, lead: Lead, c: Candidate)
    ensures Adds(lib, lead, c, ExactVerifiedCanonicalDomain) + Adds(lib, lead, c, ExactOfficialCorporateUrl)
            + Adds(lib, lead, c, ExplicitOfficialIdentityTie) == StrongPoints(lib, lead, c)
  {
  }

  lemma OtherAdds(lib: Library, lead: Lead, c: Candidate)
    ensures Adds(lib, lead, c, NormalizedCompanyName) + Adds(lib, lead, c, GeographyMatch)
            + Adds(lib, lead, c, RegisteredIdentityMatch) + Adds(lib, lead, c, CorporateSocialMatch)
            + Adds(lib, lead, c, ParentRelationshipConsistent) + Adds(lib, lead, c, NameSimilarity)
            == OtherPoints(lib, lead, c)
  {
    PlacesOverlap(lib, lead, c);
    NamesAgree(lib, lead, c);
  }

  lemma NegativeAdds(lib: Library, lead: Lead, c: Candidate)
    ensures Adds(lib, lead, c, ConflictingAuthoritativeDomain) + Adds(lib, lead, c, ConflictingGeography)
            + Adds(lib, lead, c, ClearlyDifferentLegalEntity) + Adds(lib, lead, c, HistoricalOnly)
            + Adds(lib, lead, c, ExternalProviderRelationship) == -Deductions(c)
  {
  }

  lemma TotalOfAll(lib: Library, lead: Lead, c: Candidate, codes: seq<Code>)
    requires |codes| == 14
    ensures Total(Noted(lib, lead, c, codes))
            == Adds(lib, lead, c, codes[0]) + Adds(lib, lead, c, codes[1]) + Adds(lib, lead, c, codes[2])
               + Adds(lib, lead, c, codes[3]) + Adds(lib, lead, c, codes[4]) + Adds(lib, lead, c, codes[5])
               + Adds(lib, lead, c, codes[6]) + Adds(lib, lead, c, codes[7]) + Adds(lib, lead, c, codes[8])
               + Adds(lib, lead, c, codes[9]) + Adds(lib, lead, c, codes[10]) + Adds(lib, lead, c, codes[11])
               + Adds(lib, lead, c, codes[12]) + Adds(lib, lead, c, codes[13])
  {
    assert codes[0..] == codes && codes[14..] == [];
    TotalOfThree(lib, lead, c, codes, 0);
    TotalOfThree(lib, lead, c, codes, 3);
    TotalOfThree(lib, lead, c, codes, 6);
    TotalOfThree(lib, lead, c, codes, 9);
    TotalOf(lib, lead, c, codes, 12);
    TotalOf(lib, lead, c, codes, 13);
  }

  /** The score, point by point. */
  lemma ScoreIs(lib: Library, lead: Lead, c: Candidate)
    ensures Compared(lib, lead, c).score
            == StrongPoints(lib, lead, c) + OtherPoints(lib, lead, c) - Deductions(c)
  {
    TotalOfAll(lib, lead, c, CODES);
    StrongAdds(lib, lead, c);
    OtherAdds(lib, lead, c);
    NegativeAdds(lib, lead, c);
  }

  /** A candidate is eligible exactly when there is something strong for it and nothing against it; it then has 90
      points at least, while the rest of the evidence alone never makes up for a single thing against it and a
      missing domain, URL or tie. */
  lemma EligibleIff(lib: Library, lead: Lead, c: Candidate)
    ensures Compared(lib, lead, c).eligible <==> StrongPoints(lib, lead, c) > 0 && Deductions(c) == 0
    ensures Compared(lib, lead, c).hardNegative <==> Deductions(c) > 0
    ensures Compared(lib, lead, c).eligible ==> Compared(lib, lead, c).score >= 90
  {
    ScoreIs(lib, lead, c);
  }

  /** Plausible is what has anything for it and nothing against it. */
  lemma PlausibleIff(lib: Library, lead: Lead, c: Candidate)
    ensures Plausible(lib, lead, c)
            <==> Deductions(c) == 0 && StrongPoints(lib, lead, c) + OtherPoints(lib, lead, c) > 0
  {
    ScoreIs(lib, lead, c);
  }

  // ---------- the order of the comparisons ----------

  /** Eligible ones first, then by score, then by id, the greatest first. */
  ghost predicate RanksBefore(a: Comparison, b: Comparison) {
    && (b.eligible ==> a.eligible)
    && (a.eligible == b.eligible ==> a.score >= b.score)
    && (a.eligible == b.eligible && a.score == b.score ==> TextAtLeast(a.candidateId, b.candidateId))
  }

  lemma {:induction false} DescendingRanks(cs: seq<Comparison>, i: nat, j: nat)
    requires Descending(cs) && i < j < |cs|
    ensures RanksBefore(cs[i], cs[j])
  {
    if i == 0 {
      HeadDominates(cs, j);
    } else {
      DescendingRanks(cs[1..], i - 1, j - 1);
    }
  }

  lemma {:induction false} CompareAllAt(lib: Library, lead: Lead, candidates: seq<Candidate>, i: nat)
    requires i < |candidates|
    ensures |CompareAll(lib, lead, candidates)| == |candidates|
    ensures CompareAll(lib, lead, candidates)[i] == Compared(lib, lead, candidates[i])
  {
    if i > 0 {
      CompareAllAt(lib, lead, candidates[1..], i - 1);
    } else if |candidates| > 1 {
      CompareAllAt(lib, lead, candidates[1..], 0);
    }
  }

  /** A decision carries a comparison for every candidate selected, ranked. */
  lemma ComparisonsAreRanked(lib: Library, lead: Lead, candidates: seq<Candidate>, relationships: seq<string>,
                             budget: int, d: Decision)
    requires budget > 0 && Resolve(lib, lead, candidates, relationships, budget) == Ok(d)
    ensures forall i, j :: 0 <= i < j < |d.comparisons| ==> RanksBefore(d.comparisons[i], d.comparisons[j])
    ensures multiset(d.comparisons) == multiset(CompareAll(lib, lead,
                                                           GenerateCandidates(lib, lead, candidates, budget)))
  {
    var selected := GenerateCandidates(lib, lead, candidates, budget);
    var cs := CompareAll(lib, lead, selected);
    ComparisonsAreCarried(lib, lead, selected, SortDescending(cs), relationships, budget);
    SortDescends(cs);
    SortPermutes(cs);
    forall i, j | 0 <= i < j < |d.comparisons| ensures RanksBefore(d.comparisons[i], d.comparisons[j]) {
      DescendingRanks(d.comparisons, i, j);
    }
  }

  // ---------- what a decision says for itself ----------

  lemma {:induction false} RejectedAre(cs: seq<Comparison>, id: string)
    ensures id in RejectedIds(cs) <==> exists c :: c in cs && c.hardNegative && c.candidateId == id
  {
    if cs != [] {
      RejectedAre(cs[1..], id);
      assert forall c :: c in cs <==> c == cs[0] || c in cs[1..];
    }
  }

  /** Strictly ascending, so without repetitions. */
  ghost predicate Ascending(texts: seq<string>) {
    forall i, j :: 0 <= i < j < |texts| ==> !TextAtLeast(texts[i], texts[j])
  }

  lemma PutInFront(x: string, sorted: seq<string>)
    requires Ascending(sorted) && sorted != [] && !TextAtLeast(x, sorted[0])
    ensures Ascending([x] + sorted)
  {
    var all := [x] + sorted;
    forall i, j | 0 <= i < j < |all| ensures !TextAtLeast(all[i], all[j]) {
      if i == 0 {
        TextOrder(x, sorted[j - 1], sorted[0]);
        TextOrder(sorted[j - 1], sorted[0], sorted[0]);
      } else {
        assert all[i] == sorted[i - 1] && all[j] == sorted[j - 1];
      }
    }
  }

  lemma InFrontOfRest(first: string, rest: seq<string>, sorted: seq<string>, x: string)
    requires Ascending(sorted) && sorted != [] && first == sorted[0] && !TextAtLeast(first, x)
    requires Ascending(rest) && forall y :: y in rest <==> y == x || y in sorted[1..]
    ensures Ascending([first] + rest)
  {
    var all := [first] + rest;
    forall i, j | 0 <= i < j < |all| ensures !TextAtLeast(all[i], all[j]) {
      if i == 0 {
        assert all[j] in rest;
        if all[j] != x {
          var k :| 0 < k < |sorted| && sorted[k] == all[j];
        }
      } else {
        assert all[i] == rest[i - 1] && all[j] == rest[j - 1];
      }
    }
  }

  lemma {:induction false} InsertedText(x: string, sorted: seq<string>)
    requires Ascending(sorted)
    ensures Ascending(InsertText(x, sorted))
    ensures forall y :: y in InsertText(x, sorted) <==> y == x || y in sorted
  {
    if sorted != [] {
      TextOrder(x, sorted[0], sorted[0]);
      if x != sorted[0] {
        if TextAtLeast(sorted[0], x) {
          PutInFront(x, sorted);
        } else {
          assert Ascending(sorted[1..]);
          InsertedText(x, sorted[1..]);
          InFrontOfRest(sorted[0], InsertText(x, sorted[1..]), sorted, x);
        }
      }
    }
  }

  /** The evidence a match reports: that of the winner, sorted and without repetitions. */
  lemma {:induction false} SortedSetIs(refs: seq<string>)
    ensures Ascending(SortedSet(refs)) && forall x :: x in SortedSet(refs) <==> x in refs
  {
    if refs != [] {
      SortedSetIs(refs[1..]);
      InsertedText(refs[0], SortedSet(refs[1..]));
      assert forall x :: x in refs <==> x == refs[0] || x in refs[1..];
    }
  }

  ghost predicate IsMatched(d: Decision) {
    d.status == Matched || d.status == MatchedWithRelationship
  }

  /** What goes with a decision that finds no match: a question, and the identity to be researched, after a conflict
      also what is current. A match leaves nothing open. */
  ghost predicate FollowsUp(d: Decision) {
    && (d.researchRequired <==> !IsMatched(d)) && d.questions == (if IsMatched(d) then 0 else 1)
    && d.missions == (if IsMatched(d) then [] else if d.status == Conflict then [EntityIdentity, CurrentnessMission]
                      else [EntityIdentity])
    && (!IsMatched(d) ==>
          && d.canonicalEntityId == None && d.canonicalName == d.canonicalDomain == "" && d.entityType == Unknown
          && d.decisiveSignals == [] && d.evidenceRefs == d.relationships == [] && d.confidence == UnknownConfidence
          && d.currentness == UnknownCurrentness)
  }

  /** The trace: how many candidates were selected within which budget, then the winner and its score, or the status. */
  ghost predicate Traced(d: Decision, selected: nat, budget: int) {
    && |d.trace| == 2 && d.trace[0] == Generated(selected, budget)
    && d.trace[1] == (if IsMatched(d) && d.comparisons != []
                      then Selected(d.comparisons[0].candidateId, d.comparisons[0].score) else Adjudicated(d.status))
  }

  /** Of a match, the strong signals of the comparison ranked first decide; the confidence is high if there is no second
      eligible comparison within 15 points of it. */
  ghost predicate DecidedBy(d: Decision) {
    && d.comparisons != [] && d.comparisons[0].eligible
    && (forall code :: code in d.decisiveSignals <==>
                         exists s :: s in d.comparisons[0].signals && s.strength == Strong && s.code == code)
    && (d.confidence == High || d.confidence == MediumConfidence)
    && (d.confidence == MediumConfidence <==>
          |d.comparisons| > 1 && d.comparisons[1].eligible && d.comparisons[0].score - d.comparisons[1].score < 15)
  }

  lemma {:induction false} CodesAre(signals: seq<Signal>, strength: Strength, code: Code)
    ensures code in CodesOf(signals, strength)
            <==> exists s :: s in signals && s.strength == strength && s.code == code
  {
    if signals != [] {
      CodesAre(signals[1..], strength, code);
      assert forall s :: s in signals <==> s == signals[0] || s in signals[1..];
    }
  }

  /** Eligibility rules out anything against a candidate. */
  ghost predicate Consistent(cs: seq<Comparison>) {
    forall i :: 0 <= i < |cs| && cs[i].eligible ==> !cs[i].hardNegative
  }

  lemma ComparedConsistently(lib: Library, lead: Lead, candidates: seq<Candidate>)
    ensures Consistent(SortDescending(CompareAll(lib, lead, candidates)))
  {
    var cs := CompareAll(lib, lead, candidates);
    ComparedCandidates(lib, lead, candidates);
    SortPermutes(cs);
    var sorted := SortDescending(cs);
    forall i | 0 <= i < |sorted| && sorted[i].eligible ensures !sorted[i].hardNegative {
      assert sorted[i] in multiset(cs);
      var k :| 0 <= k < |cs| && cs[k] == sorted[i];
      CompareAllAt(lib, lead, candidates, k);
    }
  }

  lemma {:induction false} NoneEligible(cs: seq<Comparison>)
    requires forall i :: 0 <= i < |cs| ==> !cs[i].eligible
    ensures Eligibles(cs) == []
  {
    if cs != [] {
      NoneEligible(cs[1..]);
    }
  }

  /** The eligible comparisons are ranked first. */
  lemma {:induction false} EligiblesComeFirst(cs: seq<Comparison>, i: nat)
    requires Descending(cs) && Consistent(cs)
    ensures i < |Eligibles(cs)| ==> i < |cs| && Eligibles(cs)[i] == cs[i] && cs[i].eligible
    ensures i < |cs| && cs[i].eligible ==> i < |Eligibles(cs)|
  {
    if cs != [] {
      if cs[0].eligible {
        if i > 0 {
          EligiblesComeFirst(cs[1..], i - 1);
        }
      } else {
        forall k | 0 <= k < |cs| ensures !cs[k].eligible {
          HeadDominates(cs, k);
        }
        NoneEligible(cs);
      }
    }
  }

  lemma AdjudicationFollowsUp(lib: Library, lead: Lead, selected: seq<Candidate>, cs: seq<Comparison>,
                              relationships: seq<string>, budget: int, d: Decision)
    requires Adjudicate(lib, lead, selected, cs, relationships, budget) == Ok(d)
    ensures FollowsUp(d) && d.rejected == RejectedIds(cs) && d.comparisons == cs
    ensures |d.trace| == 2 && d.trace[0] == Generated(|selected|, budget)
    ensures !IsMatched(d) ==> d.trace[1] == Adjudicated(d.status)
  {
  }

  lemma AdjudicationDecides(lib: Library, lead: Lead, selected: seq<Candidate>, cs: seq<Comparison>,
                            relationships: seq<string>, budget: int, d: Decision)
    requires Adjudicate(lib, lead, selected, cs, relationships, budget) == Ok(d) && IsMatched(d)
    ensures var e := Eligibles(cs);
            && e != [] && d.trace[1] == Selected(e[0].candidateId, e[0].score)
            && (CodesOf(e[0].signals, Strong) != [] ==>
                  && d.decisiveSignals == CodesOf(e[0].signals, Strong)
                  && d.confidence == if |e| == 1 || e[0].score - e[1].score >= 15 then High else MediumConfidence)
  {
    AdjudicationFollowsUp(lib, lead, selected, cs, relationships, budget, d);
  }

  /** The comparisons of a match: the first is eligible, with strong signals, and the winner's. */
  lemma MatchIsDecided(lib: Library, lead: Lead, selected: seq<Candidate>, cs: seq<Comparison>,
                       relationships: seq<string>, budget: int, d: Decision)
    requires cs == SortDescending(CompareAll(lib, lead, selected))
    requires Adjudicate(lib, lead, selected, cs, relationships, budget) == Ok(d) && IsMatched(d)
    ensures d.comparisons == cs && DecidedBy(d) && d.trace[1] == Selected(cs[0].candidateId, cs[0].score)
  {
    AdjudicationFollowsUp(lib, lead, selected, cs, relationships, budget, d);
    AdjudicationDecides(lib, lead, selected, cs, relationships, budget, d);
    SortedView(lib, lead, selected);
    SortDescends(CompareAll(lib, lead, selected));
    ComparedConsistently(lib, lead, selected);
    EligiblesComeFirst(cs, 0);
    EligiblesComeFirst(cs, 1);
    forall code ensures code in CodesOf(cs[0].signals, Strong) <==>
                          exists s :: s in cs[0].signals && s.strength == Strong && s.code == code
    {
      CodesAre(cs[0].signals, Strong, code);
    }
  }

  /** A decision accounts for itself. */
  lemma DecisionExplains(lib: Library, lead: Lead, candidates: seq<Candidate>, relationships: seq<string>, budget: int,
                         d: Decision)
    requires budget > 0 && Resolve(lib, lead, candidates, relationships, budget) == Ok(d)
    ensures FollowsUp(d) && Traced(d, |GenerateCandidates(lib, lead, candidates, budget)|, budget)
    ensures forall id :: id in d.rejected <==> exists c :: c in d.comparisons && c.hardNegative && c.candidateId == id
    ensures IsMatched(d) ==> DecidedBy(d)
  {
    var selected := GenerateCandidates(lib, lead, candidates, budget);
    var cs := SortDescending(CompareAll(lib, lead, selected));
    AdjudicationFollowsUp(lib, lead, selected, cs, relationships, budget, d);
    forall id ensures id in d.rejected <==> exists c :: c in cs && c.hardNegative && c.candidateId == id {
      RejectedAre(cs, id);
    }
    if IsMatched(d) {
      MatchIsDecided(lib, lead, selected, cs, relationships, budget, d);
    }
  }
}
