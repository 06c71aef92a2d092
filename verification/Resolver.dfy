/** Entity resolution: adjudicating a lead against its candidates.

    `Resolve` follows the source: block, compare, sort, then a chain of early returns. The results say
    what that chain decides in terms of the candidates alone, without the sort: how many of them can be
    matched, whether the order they came in matters, and what one more candidate can change. */
module Resolver {
  import opened Wrappers
  import opened Text
  import opened Matching

  datatype Status = Matched | MatchedWithRelationship | Ambiguous | Conflict | Unresolved | NoMatch

  datatype Confidence = High | MediumConfidence | UnknownConfidence

  datatype Mission = EntityIdentity | CurrentnessMission

  /** The trace events; their wording is left out. */
  datatype TraceEvent = Generated(selected: nat, budget: int) | Adjudicated(status: Status)
    | Selected(candidateId: string, score: int)

  datatype Decision = Decision(
    decisionId: string, leadId: string, status: Status, canonicalEntityId: Option<string>, entityType: EntityType,
    canonicalName: string, canonicalDomain: string, confidence: Confidence, decisiveSignals: seq<Code>,
    rejected: seq<string>, comparisons: seq<Comparison>, trace: seq<TraceEvent>, evidenceRefs: seq<string>,
    currentness: Currentness, relationships: seq<string>,
    researchRequired: bool, missions: seq<Mission>, questions: nat)

  datatype ResolveError = BadBudget | ContractViolated

  predicate IsMatch(status: Status) {
    status in {Matched, MatchedWithRelationship}
  }

  /** The model validator run on every decision. */
  predicate StateContract(d: Decision) {
    && (if IsMatch(d.status)
        then d.canonicalEntityId.Some? && d.canonicalEntityId.value != "" && d.entityType != Unknown
          && d.evidenceRefs != []
             && (d.status == MatchedWithRelationship ==> d.relationships != [])
        else d.canonicalEntityId.None?)
    && d.trace != []
    && (d.researchRequired ==> d.missions != [] || d.questions > 0)
  }

  // ---------- candidate generation and sorting ----------

  function Blocked(lib: Library, lead: Lead, candidates: seq<Candidate>): seq<Candidate> {
    if candidates == [] then []
    else
      var rest := Blocked(lib, lead, candidates[1..]);
      if IsBlockMatch(lib, lead, candidates[0]) then [candidates[0]] + rest else rest
  }

  function GenerateCandidates(lib: Library, lead: Lead, candidates: seq<Candidate>, budget: nat): seq<Candidate> {
    var selected := Blocked(lib, lead, candidates);
    if |selected| <= budget then selected else selected[..budget]
  }

  function CompareAll(lib: Library, lead: Lead, candidates: seq<Candidate>): seq<Comparison> {
    if candidates == [] then [] else [Compared(lib, lead, candidates[0])] + CompareAll(lib, lead, candidates[1..])
  }

  /** The sort key: eligibility, then score, then candidate id. */
  predicate KeyAtLeast(a: Comparison, b: Comparison) {
    if a.eligible != b.eligible then a.eligible
    else if a.score != b.score then a.score > b.score
    else TextAtLeast(a.candidateId, b.candidateId)
  }

  function Insert(x: Comparison, sorted: seq<Comparison>): seq<Comparison> {
    if sorted == [] || KeyAtLeast(x, sorted[0]) then [x] + sorted else [sorted[0]] + Insert(x, sorted[1..])
  }

  /** Descending by key; comparisons with equal keys keep their order. */
  function SortDescending(cs: seq<Comparison>): seq<Comparison> {
    if cs == [] then [] else Insert(cs[0], SortDescending(cs[1..]))
  }

  // ---------- adjudication ----------

  predicate Eligible(c: Comparison) {
    c.eligible && !c.hardNegative
  }

  function Eligibles(cs: seq<Comparison>): seq<Comparison> {
    if cs == [] then []
    else if Eligible(cs[0]) then [cs[0]] + Eligibles(cs[1..])
    else Eligibles(cs[1..])
  }

  function Plausibles(cs: seq<Comparison>): seq<Comparison> {
    if cs == [] then []
    else if !cs[0].hardNegative && cs[0].score > 0 then [cs[0]] + Plausibles(cs[1..])
    else Plausibles(cs[1..])
  }

  function CodesOf(signals: seq<Signal>, strength: Strength): seq<Code> {
    if signals == [] then []
    else if signals[0].strength == strength then [signals[0].code] + CodesOf(signals[1..], strength)
    else CodesOf(signals[1..], strength)
  }

  /** The eligible comparisons with strong evidence for another candidate than `topId`. */
  function StrongCompetitors(eligible: seq<Comparison>, topId: string): seq<Comparison> {
    if eligible == [] then []
    else if eligible[0].candidateId != topId && CodesOf(eligible[0].signals, Strong) != []
    then [eligible[0]] + StrongCompetitors(eligible[1..], topId)
    else StrongCompetitors(eligible[1..], topId)
  }

  function RejectedIds(cs: seq<Comparison>): seq<string> {
    if cs == [] then []
    else if cs[0].hardNegative then [cs[0].candidateId] + RejectedIds(cs[1..])
    else RejectedIds(cs[1..])
  }

  function IdsAndScores(cs: seq<Comparison>): seq<(string, int)> {
    if cs == [] then [] else [(cs[0].candidateId, cs[0].score)] + IdsAndScores(cs[1..])
  }

  /** `erd:<lead>:<24 hex digits>`. */
  function DecisionId(lib: Library, leadId: string, cs: seq<Comparison>): string {
    "erd:" + leadId + ":" + lib.digest(leadId, IdsAndScores(cs))
  }

  /** The first selected candidate with the given id. */
  function Lookup(selected: seq<Candidate>, id: string): Option<Candidate> {
    if selected == [] then None
    else if selected[0].candidateId == id then Some(selected[0])
    else Lookup(selected[1..], id)
  }

  function InsertText(x: string, sorted: seq<string>): seq<string> {
    if sorted == [] then [x]
    else if x == sorted[0] then sorted
    else if TextAtLeast(sorted[0], x) then [x] + sorted
    else [sorted[0]] + InsertText(x, sorted[1..])
  }

  /** The distinct strings of a list, sorted. */
  function SortedSet(refs: seq<string>): seq<string> {
    if refs == [] then [] else InsertText(refs[0], SortedSet(refs[1..]))
  }

  function Checked(d: Decision): Result<Decision, ResolveError> {
    if StateContract(d) then Ok(d) else Err(ContractViolated)
  }

  function Unmatched(lib: Library, lead: Lead, cs: seq<Comparison>, opening: TraceEvent, status: Status,
                     missions: seq<Mission>)
    : Result<Decision, ResolveError>
  {
    Checked(Decision(DecisionId(lib, lead.leadId, cs), lead.leadId, status, None, Unknown, "", "",
                     UnknownConfidence, [],
                     RejectedIds(cs), cs, [opening, Adjudicated(status)], [], UnknownCurrentness, [],
                     true, missions, 1))
  }

  /** The chain of early returns, on the sorted comparisons. */
  function Adjudicate(lib: Library, lead: Lead, selected: seq<Candidate>, cs: seq<Comparison>,
                      relationships: seq<string>, budget: int)
    : Result<Decision, ResolveError>
  {
    var opening := Generated(|selected|, budget);
    var eligible := Eligibles(cs);
    if cs == [] then Unmatched(lib, lead, cs, opening, Unresolved, [EntityIdentity])
    else if eligible == [] then
      if Plausibles(cs) != []
      then Unmatched(lib, lead, cs, opening, Ambiguous, [EntityIdentity])
      else Unmatched(lib, lead, cs, opening, NoMatch, [EntityIdentity])
    else
      var top := eligible[0];
      var topStrong := CodesOf(top.signals, Strong);
      if StrongCompetitors(eligible, top.candidateId) != []
      then Unmatched(lib, lead, cs, opening, Conflict, [EntityIdentity, CurrentnessMission])
      else if topStrong == [] && |eligible| > 1 && top.score - eligible[1].score < 20
      then Unmatched(lib, lead, cs, opening, Ambiguous, [EntityIdentity])
      else
        match Lookup(selected, top.candidateId)
        case None => Err(ContractViolated)
        case Some(winner) =>
          Checked(Decision(
            DecisionId(lib, lead.leadId, cs), lead.leadId,
            if relationships != [] then MatchedWithRelationship else Matched,
            Some(if winner.entityId != "" then winner.entityId else winner.candidateId),
            winner.entityType, winner.canonicalName, winner.canonicalDomain,
            if topStrong != [] && (|eligible| == 1 || top.score - eligible[1].score >= 15) then High
                 else MediumConfidence,
            if topStrong != [] then topStrong else CodesOf(top.signals, Medium),
            RejectedIds(cs), cs, [opening, Selected(top.candidateId, top.score)], SortedSet(winner.evidenceRefs),
            winner.currentness, relationships, false, [], 0))
  }

  function Resolve(lib: Library, lead: Lead, candidates: seq<Candidate>, relationships: seq<string>, budget: int)
    : Result<Decision, ResolveError>
  {
    if budget <= 0 then Err(BadBudget)
    else
      var selected := GenerateCandidates(lib, lead, candidates, budget);
      Adjudicate(lib, lead, selected, SortDescending(CompareAll(lib, lead, selected)), relationships, budget)
  }

  // ---------- the candidates' own view ----------

  /** A candidate that could be matched: strong evidence and nothing against it. */
  predicate Matchable(lib: Library, lead: Lead, c: Candidate) {
    HasStrong(lib, lead, c) && !HasNegative(c)
  }

  predicate Plausible(lib: Library, lead: Lead, c: Candidate) {
    !HasNegative(c) && Compared(lib, lead, c).score > 0
  }

  function Matchables(lib: Library, lead: Lead, candidates: seq<Candidate>): seq<Candidate> {
    if candidates == [] then []
    else
      var rest := Matchables(lib, lead, candidates[1..]);
      if Matchable(lib, lead, candidates[0]) then [candidates[0]] + rest else rest
  }

  ghost predicate DistinctIds(candidates: seq<Candidate>) {
    candidates == []
    || ((forall c :: c in candidates[1..] ==> c.candidateId != candidates[0].candidateId)
        && DistinctIds(candidates[1..]))
  }

  ghost predicate OneId(candidates: seq<Candidate>) {
    forall c :: c in candidates ==> c.candidateId == candidates[0].candidateId
  }

  /** The candidate whose fields a match reports: the first selected one with the matched id. */
  function Winner(lib: Library, lead: Lead, selected: seq<Candidate>): Option<Candidate> {
    var m := Matchables(lib, lead, selected);
    if m == [] then None else Lookup(selected, m[0].candidateId)
  }

  /** What the state contract asks of a matched candidate. */
  predicate Presentable(c: Candidate) {
    c.entityType != Unknown && c.evidenceRefs != [] && (c.entityId != "" || c.candidateId != "")
  }

  // ---------- sorting lemmas ----------

  lemma {:induction false} InsertPermutes(x: Comparison, s: seq<Comparison>)
    ensures multiset(Insert(x, s)) == multiset(s) + multiset{x}
    ensures |Insert(x, s)| == |s| + 1
  {
    if s == [] || KeyAtLeast(x, s[0]) {
      assert ([x] + s)[1..] == s;
    } else {
      InsertPermutes(x, s[1..]);
      assert ([s[0]] + Insert(x, s[1..]))[1..] == Insert(x, s[1..]);
      assert s == [s[0]] + s[1..];
    }
  }

  lemma {:induction false} SortPermutes(cs: seq<Comparison>)
    ensures multiset(SortDescending(cs)) == multiset(cs) && |SortDescending(cs)| == |cs|
  {
    if cs != [] {
      SortPermutes(cs[1..]);
      InsertPermutes(cs[0], SortDescending(cs[1..]));
      assert cs == [cs[0]] + cs[1..];
    }
  }

  ghost predicate Descending(cs: seq<Comparison>) {
    |cs| <= 1 || (KeyAtLeast(cs[0], cs[1]) && Descending(cs[1..]))
  }

  lemma KeyOrder(a: Comparison, b: Comparison, c: Comparison)
    ensures KeyAtLeast(a, b) || KeyAtLeast(b, a)
    ensures KeyAtLeast(a, b) && KeyAtLeast(b, c) ==> KeyAtLeast(a, c)
    ensures KeyAtLeast(a, b) && KeyAtLeast(b, a) ==> a.candidateId == b.candidateId
    ensures KeyAtLeast(a, a)
  {
    TextOrder(a.candidateId, b.candidateId, c.candidateId);
  }

  lemma {:induction false} InsertDescending(x: Comparison, s: seq<Comparison>)
    requires Descending(s)
    ensures Descending(Insert(x, s))
  {
    if s == [] || KeyAtLeast(x, s[0]) {
      assert ([x] + s)[1..] == s;
    } else {
      KeyOrder(x, s[0], s[0]);
      InsertDescending(x, s[1..]);
      assert ([s[0]] + Insert(x, s[1..]))[1..] == Insert(x, s[1..]);
    }
  }

  lemma {:induction false} HeadDominates(cs: seq<Comparison>, i: nat)
    requires Descending(cs) && i < |cs|
    ensures KeyAtLeast(cs[0], cs[i])
  {
    if i == 0 {
      KeyOrder(cs[0], cs[0], cs[0]);
    } else {
      HeadDominates(cs[1..], i - 1);
      KeyOrder(cs[0], cs[1], cs[i]);
    }
  }

  lemma {:induction false} SortDescends(cs: seq<Comparison>)
    ensures Descending(SortDescending(cs))
  {
    if cs != [] {
      SortDescends(cs[1..]);
      InsertDescending(cs[0], SortDescending(cs[1..]));
    }
  }

  lemma TailsPermute(x: Comparison, a: seq<Comparison>, b: seq<Comparison>)
    requires multiset([x] + a) == multiset([x] + b)
    ensures multiset(a) == multiset(b)
  {
    assert multiset(a) == multiset([x] + a) - multiset{x};
    assert multiset(b) == multiset([x] + b) - multiset{x};
  }

  lemma SameHead(a: seq<Comparison>, b: seq<Comparison>)
    requires Descending(a) && Descending(b) && multiset(a) == multiset(b) && a != []
    ensures b != [] && a[0] in b && b[0] in a && a[0].candidateId == b[0].candidateId
  {
    assert |multiset(a)| == |a| && |multiset(b)| == |b|;
    assert a[0] in multiset(b) && b[0] in multiset(a);
    var i :| 0 <= i < |b| && b[i] == a[0];
    var j :| 0 <= j < |a| && a[j] == b[0];
    HeadDominates(a, j);
    HeadDominates(b, i);
    KeyOrder(a[0], b[0], b[0]);
  }

  /** With distinct ids there is only one descending arrangement. */
  lemma {:induction false} DescendingIsUnique(a: seq<Comparison>, b: seq<Comparison>)
    requires Descending(a) && Descending(b) && multiset(a) == multiset(b)
    requires forall x, y :: x in a && y in a && x.candidateId == y.candidateId ==> x == y
    ensures a == b
  {
    if a == [] {
      assert |multiset(b)| == |b|;
    } else {
      SameHead(a, b);
      assert a == [a[0]] + a[1..] && b == [b[0]] + b[1..];
      TailsPermute(a[0], a[1..], b[1..]);
      DescendingIsUnique(a[1..], b[1..]);
    }
  }

  // ---------- from comparisons back to candidates ----------

  ghost function Ids(cs: seq<Comparison>): set<string> {
    if cs == [] then {} else {cs[0].candidateId} + Ids(cs[1..])
  }

  ghost function CandidateIds(candidates: seq<Candidate>): set<string> {
    if candidates == [] then {} else {candidates[0].candidateId} + CandidateIds(candidates[1..])
  }

  ghost predicate AllStrong(cs: seq<Comparison>) {
    cs == [] || (CodesOf(cs[0].signals, Strong) != [] && AllStrong(cs[1..]))
  }

  lemma TailOf(x: Comparison, s: seq<Comparison>)
    ensures Ids([x] + s) == {x.candidateId} + Ids(s)
    ensures AllStrong([x] + s) <==> CodesOf(x.signals, Strong) != [] && AllStrong(s)
  {
    assert ([x] + s)[1..] == s;
  }

  /** What sorting preserves about the eligible and the plausible comparisons. */
  lemma {:induction false} InsertKeeps(x: Comparison, s: seq<Comparison>)
    ensures |Eligibles(Insert(x, s))| == |Eligibles([x] + s)|
    ensures Ids(Eligibles(Insert(x, s))) == Ids(Eligibles([x] + s))
    ensures AllStrong(Eligibles([x] + s)) ==> AllStrong(Eligibles(Insert(x, s)))
    ensures |Plausibles(Insert(x, s))| == |Plausibles([x] + s)|
  {
    assert ([x] + s)[1..] == s;
    if s != [] && !KeyAtLeast(x, s[0]) {
      InsertKeeps(x, s[1..]);
      assert ([x] + s[1..])[1..] == s[1..];
      assert ([s[0]] + Insert(x, s[1..]))[1..] == Insert(x, s[1..]);
      TailOf(s[0], Eligibles(s[1..]));
      TailOf(x, Eligibles(s));
      TailOf(x, Eligibles(s[1..]));
      TailOf(s[0], Eligibles(Insert(x, s[1..])));
    }
  }

  lemma {:induction false} SortKeeps(cs: seq<Comparison>)
    ensures |Eligibles(SortDescending(cs))| == |Eligibles(cs)|
    ensures Ids(Eligibles(SortDescending(cs))) == Ids(Eligibles(cs))
    ensures AllStrong(Eligibles(cs)) ==> AllStrong(Eligibles(SortDescending(cs)))
    ensures |Plausibles(SortDescending(cs))| == |Plausibles(cs)|
  {
    if cs != [] {
      var sorted := SortDescending(cs[1..]);
      SortKeeps(cs[1..]);
      InsertKeeps(cs[0], sorted);
      assert ([cs[0]] + sorted)[1..] == sorted;
      TailOf(cs[0], Eligibles(sorted));
      TailOf(cs[0], Eligibles(cs[1..]));
    }
  }

  lemma {:induction false} CodesOfNonEmpty(signals: seq<Signal>, strength: Strength)
    ensures CodesOf(signals, strength) != [] <==> exists s :: s in signals && s.strength == strength
  {
    if signals != [] {
      CodesOfNonEmpty(signals[1..], strength);
    }
  }

  lemma StrongCodes(lib: Library, lead: Lead, c: Candidate)
    ensures CodesOf(Compared(lib, lead, c).signals, Strong) != [] <==> HasStrong(lib, lead, c)
  {
    CodesOfNonEmpty(Compared(lib, lead, c).signals, Strong);
    StrongSignals(lib, lead, c, CODES);
    assert forall s: Signal :: s.strength == Strong <==> IsStrong(s);
  }

  ghost predicate AnyPlausible(lib: Library, lead: Lead, selected: seq<Candidate>) {
    exists c :: c in selected && Plausible(lib, lead, c)
  }

  /** The comparisons' eligible and plausible ones are those of the matchable and plausible candidates. */
  lemma {:induction false} ComparedCandidates(lib: Library, lead: Lead, candidates: seq<Candidate>)
    ensures |CompareAll(lib, lead, candidates)| == |candidates|
    ensures |Eligibles(CompareAll(lib, lead, candidates))| == |Matchables(lib, lead, candidates)|
    ensures Ids(Eligibles(CompareAll(lib, lead, candidates))) == CandidateIds(Matchables(lib, lead, candidates))
    ensures AllStrong(Eligibles(CompareAll(lib, lead, candidates)))
    ensures Plausibles(CompareAll(lib, lead, candidates)) != [] <==> AnyPlausible(lib, lead, candidates)
  {
    if candidates != [] {
      var c, rest := candidates[0], candidates[1..];
      ComparedCandidates(lib, lead, rest);
      StrongCodes(lib, lead, c);
      assert CompareAll(lib, lead, candidates)[1..] == CompareAll(lib, lead, rest);
      TailOf(Compared(lib, lead, c), Eligibles(CompareAll(lib, lead, rest)));
      assert ([c] + Matchables(lib, lead, rest))[1..] == Matchables(lib, lead, rest);
      assert AnyPlausible(lib, lead, candidates) <==> Plausible(lib, lead, c) || AnyPlausible(lib, lead, rest) by {
        assert candidates == [c] + rest;
      }
    }
  }

  lemma {:induction false} CompetitorsById(e: seq<Comparison>, id: string)
    requires AllStrong(e)
    ensures StrongCompetitors(e, id) == [] <==> Ids(e) <= {id}
  {
    if e != [] {
      CompetitorsById(e[1..], id);
    }
  }

  lemma {:induction false} CandidateIdsMembers(candidates: seq<Candidate>, id: string)
    ensures id in CandidateIds(candidates) <==> exists c :: c in candidates && c.candidateId == id
  {
    if candidates != [] {
      CandidateIdsMembers(candidates[1..], id);
    }
  }

  lemma OneIdByIds(m: seq<Candidate>)
    requires m != []
    ensures OneId(m) <==> CandidateIds(m) <= {m[0].candidateId}
  {
    forall id ensures id in CandidateIds(m) <==> exists c :: c in m && c.candidateId == id {
      CandidateIdsMembers(m, id);
    }
  }

  lemma {:induction false} MatchablesMembers(lib: Library, lead: Lead, candidates: seq<Candidate>, c: Candidate)
    ensures c in Matchables(lib, lead, candidates) <==> c in candidates && Matchable(lib, lead, c)
  {
    if candidates != [] {
      MatchablesMembers(lib, lead, candidates[1..], c);
    }
  }

  lemma {:induction false} LookupFinds(selected: seq<Candidate>, id: string)
    ensures Lookup(selected, id).Some? <==> exists c :: c in selected && c.candidateId == id
    ensures Lookup(selected, id).Some? ==>
              Lookup(selected, id).value in selected && Lookup(selected, id).value.candidateId == id
  {
    if selected != [] {
      LookupFinds(selected[1..], id);
    }
  }

  lemma WinnerIsSelected(lib: Library, lead: Lead, selected: seq<Candidate>)
    requires Matchables(lib, lead, selected) != []
    ensures var w := Winner(lib, lead, selected);
            w.Some? && w.value in selected && w.value.candidateId == Matchables(lib, lead, selected)[0].candidateId
  {
    var m := Matchables(lib, lead, selected);
    MatchablesMembers(lib, lead, selected, m[0]);
    LookupFinds(selected, m[0].candidateId);
  }

  lemma InsertTextNonEmpty(x: string, sorted: seq<string>)
    ensures InsertText(x, sorted) != []
  {
  }

  lemma SortedSetNonEmpty(refs: seq<string>)
    ensures SortedSet(refs) == [] <==> refs == []
  {
    if refs != [] {
      InsertTextNonEmpty(refs[0], SortedSet(refs[1..]));
    }
  }

  // ---------- what resolution decides ----------

  /** What the sorted comparisons say about the selected candidates. */
  lemma SortedView(lib: Library, lead: Lead, selected: seq<Candidate>)
    ensures var cs := SortDescending(CompareAll(lib, lead, selected));
            var e, m := Eligibles(cs), Matchables(lib, lead, selected);
            && |cs| == |selected| && |e| == |m|
            && (Plausibles(cs) != [] <==> AnyPlausible(lib, lead, selected))
            && (m != [] ==>
                  && CodesOf(e[0].signals, Strong) != []
                  && (StrongCompetitors(e, e[0].candidateId) == [] <==> OneId(m))
                  && (OneId(m) ==> e[0].candidateId == m[0].candidateId))
  {
    var unsorted := CompareAll(lib, lead, selected);
    var e, m := Eligibles(SortDescending(unsorted)), Matchables(lib, lead, selected);
    ComparedCandidates(lib, lead, selected);
    SortPermutes(unsorted);
    SortKeeps(unsorted);
    assert |Plausibles(SortDescending(unsorted))| == |Plausibles(unsorted)|;
    if m != [] {
      CompetitorsById(e, e[0].candidateId);
      OneIdByIds(m);
      assert e[0].candidateId in Ids(e) && m[0].candidateId in CandidateIds(m);
    }
  }

  /** A match reports the winner's identity, on strong evidence only. */
  ghost predicate Reports(d: Decision, w: Candidate, relationships: seq<string>) {
    && d.canonicalEntityId == Some(if w.entityId != "" then w.entityId else w.candidateId)
    && d.entityType == w.entityType && d.canonicalName == w.canonicalName && d.canonicalDomain == w.canonicalDomain
    && d.evidenceRefs == SortedSet(w.evidenceRefs) && d.currentness == w.currentness
    && d.relationships == relationships && (d.status == MatchedWithRelationship <==> relationships != [])
    && d.decisiveSignals != [] && !d.researchRequired
  }

  lemma AdjudicateOutcome(lib: Library, lead: Lead, selected: seq<Candidate>, cs: seq<Comparison>,
                          relationships: seq<string>, budget: int)
    requires |cs| == |selected| && |Eligibles(cs)| == |Matchables(lib, lead, selected)|
    requires Matchables(lib, lead, selected) != [] ==> CodesOf(Eligibles(cs)[0].signals, Strong) != []
    requires Matchables(lib, lead, selected) != [] && OneId(Matchables(lib, lead, selected)) ==>
               Eligibles(cs)[0].candidateId == Matchables(lib, lead, selected)[0].candidateId
    ensures var e, m := Eligibles(cs), Matchables(lib, lead, selected);
            var r := Adjudicate(lib, lead, selected, cs, relationships, budget);
            && (selected == [] ==> r.Ok? && r.value.status == Unresolved)
            && (selected != [] && m == [] ==>
                  r.Ok? && r.value.status == if Plausibles(cs) != [] then Ambiguous else NoMatch)
            && (m != [] && StrongCompetitors(e, e[0].candidateId) != [] ==> r.Ok? && r.value.status == Conflict)
            && (m != [] && StrongCompetitors(e, e[0].candidateId) == [] && OneId(m) ==>
                  && Winner(lib, lead, selected).Some?
                  && (r.Ok? <==> Presentable(Winner(lib, lead, selected).value))
                  && (r.Ok? ==>
                        IsMatch(r.value.status) && Reports(r.value, Winner(lib, lead, selected).value, relationships))
                  && (r.Ok? && |m| == 1 ==> r.value.confidence == High))
            && (r.Ok? ==> StateContract(r.value)) && (r.Err? ==> r.error == ContractViolated)
  {
    if Matchables(lib, lead, selected) != [] {
      WinnerIsSelected(lib, lead, selected);
      SortedSetNonEmpty(Winner(lib, lead, selected).value.evidenceRefs);
    }
  }

  /** The whole adjudication in the candidates' own terms, for any candidates at all. The branch for top
      candidates that are too close to merge is never taken: AMBIGUOUS means that nothing is matchable. */
  lemma Outcome(lib: Library, lead: Lead, candidates: seq<Candidate>, relationships: seq<string>, budget: int)
    requires budget > 0
    ensures var selected := GenerateCandidates(lib, lead, candidates, budget);
            var m := Matchables(lib, lead, selected);
            var r := Resolve(lib, lead, candidates, relationships, budget);
            && (r.Ok? ==> StateContract(r.value)) && (r.Err? ==> r.error == ContractViolated)
            && (r.Ok? && r.value.status == Unresolved <==> selected == [])
            && (r.Ok? && r.value.status == Conflict <==> m != [] && !OneId(m))
            && (r.Ok? && r.value.status == Ambiguous
                <==> selected != [] && m == [] && AnyPlausible(lib, lead, selected))
            && (r.Ok? && r.value.status == NoMatch <==> selected != [] && m == [] && !AnyPlausible(lib, lead, selected))
            && (r.Ok? && IsMatch(r.value.status) <==>
                  m != [] && OneId(m) && Winner(lib, lead, selected).Some?
                    && Presentable(Winner(lib, lead, selected).value))
            && (r.Ok? && IsMatch(r.value.status) ==> Reports(r.value, Winner(lib, lead, selected).value, relationships))
            && (r.Ok? && IsMatch(r.value.status) && |m| == 1 ==> r.value.confidence == High)
  {
    var selected := GenerateCandidates(lib, lead, candidates, budget);
    SortedView(lib, lead, selected);
    AdjudicateOutcome(lib, lead, selected, SortDescending(CompareAll(lib, lead, selected)), relationships, budget);
  }

  // ---------- distinct ids: resolution counts ----------

  lemma {:induction false} BlockedMembers(lib: Library, lead: Lead, candidates: seq<Candidate>)
    ensures forall c :: c in Blocked(lib, lead, candidates) ==> c in candidates
    ensures DistinctIds(candidates) ==> DistinctIds(Blocked(lib, lead, candidates))
  {
    if candidates != [] {
      var rest := Blocked(lib, lead, candidates[1..]);
      BlockedMembers(lib, lead, candidates[1..]);
      assert ([candidates[0]] + rest)[1..] == rest;
    }
  }

  lemma {:induction false} MatchablesDistinct(lib: Library, lead: Lead, candidates: seq<Candidate>)
    requires DistinctIds(candidates)
    ensures DistinctIds(Matchables(lib, lead, candidates))
    ensures forall c :: c in Matchables(lib, lead, candidates) ==> c in candidates
  {
    if candidates != [] {
      var rest := Matchables(lib, lead, candidates[1..]);
      MatchablesDistinct(lib, lead, candidates[1..]);
      assert ([candidates[0]] + rest)[1..] == rest;
    }
  }

  lemma {:induction false} PrefixDistinct(candidates: seq<Candidate>, n: nat)
    requires DistinctIds(candidates) && n <= |candidates|
    ensures DistinctIds(candidates[..n])
  {
    if n > 0 {
      assert candidates[..n][1..] == candidates[1..][..n - 1];
      PrefixDistinct(candidates[1..], n - 1);
    }
  }

  lemma {:induction false} LookupDistinct(selected: seq<Candidate>, c: Candidate)
    requires DistinctIds(selected) && c in selected
    ensures Lookup(selected, c.candidateId) == Some(c)
  {
    if selected[0] != c {
      LookupDistinct(selected[1..], c);
    }
  }

  lemma GeneratedDistinct(lib: Library, lead: Lead, candidates: seq<Candidate>, budget: nat)
    requires DistinctIds(candidates)
    ensures DistinctIds(GenerateCandidates(lib, lead, candidates, budget))
  {
    var blocked := Blocked(lib, lead, candidates);
    BlockedMembers(lib, lead, candidates);
    if |blocked| > budget {
      PrefixDistinct(blocked, budget);
    }
  }

  /** Resolution counts: exactly one matchable candidate is a match (and always one of high confidence, naming
      that very candidate), two or more are a conflict. A match that would break the state contract raises
      instead of being returned. */
  ghost predicate Counts(lib: Library, lead: Lead, candidates: seq<Candidate>, relationships: seq<string>, budget: nat)
  {
    var m := Matchables(lib, lead, GenerateCandidates(lib, lead, candidates, budget));
    var r := Resolve(lib, lead, candidates, relationships, budget);
    && (r.Ok? && r.value.status == Conflict <==> |m| >= 2)
    && (|m| == 1 ==> if Presentable(m[0])
                     then r.Ok? && IsMatch(r.value.status) && r.value.confidence == High
                       && Reports(r.value, m[0], relationships)
                     else r == Err(ContractViolated))
    && (|m| != 1 ==> r.Ok? && !IsMatch(r.value.status))
  }

  /** Distinct ids make resolution count. */
  lemma ResolutionCounts(lib: Library, lead: Lead, candidates: seq<Candidate>, relationships: seq<string>, budget: int)
    requires budget > 0 && DistinctIds(candidates)
    ensures Counts(lib, lead, candidates, relationships, budget)
  {
    var selected := GenerateCandidates(lib, lead, candidates, budget);
    var m := Matchables(lib, lead, selected);
    GeneratedDistinct(lib, lead, candidates, budget);
    MatchablesDistinct(lib, lead, selected);
    Outcome(lib, lead, candidates, relationships, budget);
    if m != [] {
      LookupDistinct(selected, m[0]);
      assert |m| >= 2 ==> m[1..][0] == m[1];
    }
  }

  // ---------- order independence ----------

  function FlatMap<B>(f: Candidate -> seq<B>, s: seq<Candidate>): seq<B> {
    if s == [] then [] else f(s[0]) + FlatMap(f, s[1..])
  }

  lemma {:induction false} FlatMapConcat<B>(f: Candidate -> seq<B>, s: seq<Candidate>, t: seq<Candidate>)
    ensures FlatMap(f, s + t) == FlatMap(f, s) + FlatMap(f, t)
  {
    if s == [] {
      assert s + t == t;
    } else {
      assert (s + t)[1..] == s[1..] + t;
      FlatMapConcat(f, s[1..], t);
    }
  }

  lemma RemoveOne(x: Candidate, rest: seq<Candidate>, before: seq<Candidate>, after: seq<Candidate>)
    requires multiset([x] + rest) == multiset(before + ([x] + after))
    ensures multiset(rest) == multiset(before + after)
  {
    assert multiset([x] + rest) == multiset{x} + multiset(rest);
    assert multiset(before + ([x] + after)) == multiset(before) + (multiset{x} + multiset(after));
    assert multiset(before + after) == multiset(before) + multiset(after);
    assert multiset(rest) == multiset([x] + rest) - multiset{x};
  }

  lemma Reshuffle<B>(x: seq<B>, rest: seq<B>, p: seq<B>, q: seq<B>)
    requires multiset(rest) == multiset(p + q)
    ensures multiset(x + rest) == multiset(p + (x + q))
  {
    assert multiset(x + rest) == multiset(x) + multiset(rest);
    assert multiset(p + (x + q)) == multiset(p) + (multiset(x) + multiset(q));
    assert multiset(p + q) == multiset(p) + multiset(q);
  }

  lemma FlatMapAt<B>(f: Candidate -> seq<B>, before: seq<Candidate>, x: Candidate, after: seq<Candidate>)
    ensures FlatMap(f, before + ([x] + after)) == FlatMap(f, before) + (f(x) + FlatMap(f, after))
  {
    FlatMapConcat(f, before, [x] + after);
    assert ([x] + after)[1..] == after;
  }

  lemma {:induction false} FlatMapPermutes<B>(f: Candidate -> seq<B>, s: seq<Candidate>, t: seq<Candidate>)
    requires multiset(s) == multiset(t)
    ensures multiset(FlatMap(f, s)) == multiset(FlatMap(f, t))
  {
    if s == [] {
      assert |multiset(t)| == |t|;
    } else {
      var x, rest := s[0], s[1..];
      assert x in multiset(t);
      var i :| 0 <= i < |t| && t[i] == x;
      var before, after := t[..i], t[i + 1..];
      assert t == before + ([x] + after) && s == [x] + rest;
      RemoveOne(x, rest, before, after);
      FlatMapPermutes(f, rest, before + after);
      FlatMapConcat(f, before, after);
      FlatMapAt(f, before, x, after);
      Reshuffle(f(x), FlatMap(f, rest), FlatMap(f, before), FlatMap(f, after));
    }
  }

  lemma {:induction false} BlockedIsFlatMap(lib: Library, lead: Lead, s: seq<Candidate>)
    ensures Blocked(lib, lead, s) == FlatMap((c: Candidate) => if IsBlockMatch(lib, lead, c) then [c] else [], s)
  {
    if s != [] {
      BlockedIsFlatMap(lib, lead, s[1..]);
    }
  }

  lemma {:induction false} CompareAllIsFlatMap(lib: Library, lead: Lead, s: seq<Candidate>)
    ensures CompareAll(lib, lead, s) == FlatMap((c: Candidate) => [Compared(lib, lead, c)], s)
  {
    if s != [] {
      CompareAllIsFlatMap(lib, lead, s[1..]);
    }
  }

  lemma {:induction false} ComparedIds(lib: Library, lead: Lead, s: seq<Candidate>, x: Comparison)
    requires x in CompareAll(lib, lead, s)
    ensures exists c :: c in s && x == Compared(lib, lead, c)
  {
    if x != Compared(lib, lead, s[0]) {
      ComparedIds(lib, lead, s[1..], x);
    }
  }

  lemma {:induction false} DistinctMeans(s: seq<Candidate>, a: Candidate, b: Candidate)
    requires DistinctIds(s) && a in s && b in s && a.candidateId == b.candidateId
    ensures a == b
  {
    if s[0] != a && s[0] != b {
      DistinctMeans(s[1..], a, b);
    }
  }

  lemma SortedComparisonsPermute(lib: Library, lead: Lead, s: seq<Candidate>, t: seq<Candidate>)
    requires DistinctIds(s) && multiset(s) == multiset(t)
    ensures SortDescending(CompareAll(lib, lead, s)) == SortDescending(CompareAll(lib, lead, t))
  {
    var a, b := CompareAll(lib, lead, s), CompareAll(lib, lead, t);
    CompareAllIsFlatMap(lib, lead, s);
    CompareAllIsFlatMap(lib, lead, t);
    FlatMapPermutes((c: Candidate) => [Compared(lib, lead, c)], s, t);
    SortPermutes(a);
    SortPermutes(b);
    SortDescends(a);
    SortDescends(b);
    forall x, y | x in SortDescending(a) && y in SortDescending(a) && x.candidateId == y.candidateId ensures x == y {
      assert x in multiset(SortDescending(a)) && y in multiset(SortDescending(a));
      ComparedIds(lib, lead, s, x);
      ComparedIds(lib, lead, s, y);
      var c :| c in s && x == Compared(lib, lead, c);
      var d :| d in s && y == Compared(lib, lead, d);
      DistinctMeans(s, c, d);
    }
    DescendingIsUnique(SortDescending(a), SortDescending(b));
  }

  lemma LookupPermutes(s: seq<Candidate>, t: seq<Candidate>, id: string)
    requires DistinctIds(s) && multiset(s) == multiset(t)
    ensures Lookup(s, id) == Lookup(t, id)
  {
    LookupFinds(s, id);
    LookupFinds(t, id);
    if Lookup(t, id).Some? {
      assert Lookup(t, id).value in multiset(s);
      LookupDistinct(s, Lookup(t, id).value);
    }
    if Lookup(s, id).Some? {
      assert Lookup(s, id).value in multiset(t);
    }
  }

  lemma BlockedPermutes(lib: Library, lead: Lead, s: seq<Candidate>, t: seq<Candidate>)
    requires multiset(s) == multiset(t)
    ensures multiset(Blocked(lib, lead, s)) == multiset(Blocked(lib, lead, t))
    ensures |Blocked(lib, lead, s)| == |Blocked(lib, lead, t)|
  {
    BlockedIsFlatMap(lib, lead, s);
    BlockedIsFlatMap(lib, lead, t);
    FlatMapPermutes((c: Candidate) => if IsBlockMatch(lib, lead, c) then [c] else [], s, t);
    assert |multiset(Blocked(lib, lead, s))| == |Blocked(lib, lead, s)|;
    assert |multiset(Blocked(lib, lead, t))| == |Blocked(lib, lead, t)|;
  }

  lemma AdjudicatePermutes(lib: Library, lead: Lead, a: seq<Candidate>, b: seq<Candidate>, cs: seq<Comparison>,
                           relationships: seq<string>, budget: int)
    requires DistinctIds(a) && multiset(a) == multiset(b) && |a| == |b|
    ensures Adjudicate(lib, lead, a, cs, relationships, budget) == Adjudicate(lib, lead, b, cs, relationships, budget)
  {
    var e := Eligibles(cs);
    if e != [] {
      LookupPermutes(a, b, e[0].candidateId);
    }
  }

  // ---------- beyond the budget ----------

  lemma {:induction false} DistinctCount(s: seq<Candidate>, x: Candidate)
    requires DistinctIds(s)
    ensures multiset(s)[x] <= 1
  {
    if s != [] {
      DistinctCount(s[1..], x);
      assert s == [s[0]] + s[1..];
    }
  }

  lemma SameIdMember(from: seq<Candidate>, a: seq<Candidate>, b: seq<Candidate>, c: Candidate)
    requires DistinctIds(from) && (forall x :: x in a ==> x in from) && (forall x :: x in b ==> x in from)
    requires CandidateIds(a) == CandidateIds(b) && c in a
    ensures c in b
  {
    CandidateIdsMembers(a, c.candidateId);
    CandidateIdsMembers(b, c.candidateId);
    var d :| d in b && d.candidateId == c.candidateId;
    DistinctMeans(from, c, d);
  }

  /** Distinct candidates drawn from the same ones are told apart by their ids. */
  lemma SameIdsPermute(from: seq<Candidate>, a: seq<Candidate>, b: seq<Candidate>)
    requires DistinctIds(from) && DistinctIds(a) && DistinctIds(b)
    requires (forall c :: c in a ==> c in from) && (forall c :: c in b ==> c in from)
    requires CandidateIds(a) == CandidateIds(b)
    ensures multiset(a) == multiset(b)
  {
    forall c ensures multiset(a)[c] == multiset(b)[c] {
      DistinctCount(a, c);
      DistinctCount(b, c);
      if c in a {
        SameIdMember(from, a, b, c);
      }
      if c in b {
        SameIdMember(from, b, a, c);
      }
    }
  }

  lemma {:induction false} IdsMembers(cs: seq<Comparison>, id: string)
    ensures id in Ids(cs) <==> exists c :: c in cs && c.candidateId == id
  {
    if cs != [] {
      IdsMembers(cs[1..], id);
    }
  }

  lemma IdsPermute(a: seq<Comparison>, b: seq<Comparison>)
    requires multiset(a) == multiset(b)
    ensures Ids(a) == Ids(b)
  {
    assert forall c :: c in a <==> c in multiset(a);
    assert forall c :: c in b <==> c in multiset(b);
    forall id ensures id in Ids(a) <==> id in Ids(b) {
      IdsMembers(a, id);
      IdsMembers(b, id);
    }
  }

  lemma {:induction false} CompareAllIds(lib: Library, lead: Lead, s: seq<Candidate>)
    ensures Ids(CompareAll(lib, lead, s)) == CandidateIds(s)
  {
    if s != [] {
      CompareAllIds(lib, lead, s[1..]);
      assert CompareAll(lib, lead, s)[1..] == CompareAll(lib, lead, s[1..]);
    }
  }

  /** Every decision carries the comparisons of what was selected. */
  lemma ComparisonsAreCarried(lib: Library, lead: Lead, selected: seq<Candidate>, cs: seq<Comparison>,
                              relationships: seq<string>, budget: int)
    ensures var r := Adjudicate(lib, lead, selected, cs, relationships, budget);
            r.Ok? ==> r.value.comparisons == cs
  {
  }

  lemma CarriedIds(lib: Library, lead: Lead, s: seq<Candidate>, relationships: seq<string>, budget: int)
    requires Resolve(lib, lead, s, relationships, budget).Ok?
    ensures Ids(Resolve(lib, lead, s, relationships, budget).value.comparisons)
            == CandidateIds(GenerateCandidates(lib, lead, s, budget))
  {
    var selected := GenerateCandidates(lib, lead, s, budget);
    var cs := CompareAll(lib, lead, selected);
    ComparisonsAreCarried(lib, lead, selected, SortDescending(cs), relationships, budget);
    SortPermutes(cs);
    IdsPermute(SortDescending(cs), cs);
    CompareAllIds(lib, lead, selected);
  }

  lemma GeneratedMembers(lib: Library, lead: Lead, candidates: seq<Candidate>, budget: nat)
    ensures forall c :: c in GenerateCandidates(lib, lead, candidates, budget) ==> c in candidates
  {
    BlockedMembers(lib, lead, candidates);
  }

  lemma SameSelectionSameDecision(lib: Library, lead: Lead, s: seq<Candidate>, t: seq<Candidate>,
                                  relationships: seq<string>, budget: int)
    requires budget > 0 && DistinctIds(GenerateCandidates(lib, lead, s, budget))
    requires multiset(GenerateCandidates(lib, lead, s, budget)) == multiset(GenerateCandidates(lib, lead, t, budget))
    ensures Resolve(lib, lead, s, relationships, budget) == Resolve(lib, lead, t, relationships, budget)
  {
    var a, b := GenerateCandidates(lib, lead, s, budget), GenerateCandidates(lib, lead, t, budget);
    assert |multiset(a)| == |a| && |multiset(b)| == |b|;
    SortedComparisonsPermute(lib, lead, a, b);
    AdjudicatePermutes(lib, lead, a, b, SortDescending(CompareAll(lib, lead, a)), relationships, budget);
  }

  lemma {:induction false} DistinctFrom(s: seq<Candidate>)
    requires forall c :: multiset(s)[c] <= 1
    requires forall a, b :: a in s && b in s && a.candidateId == b.candidateId ==> a == b
    ensures DistinctIds(s)
  {
    if s != [] {
      assert s == [s[0]] + s[1..];
      assert multiset(s) == multiset{s[0]} + multiset(s[1..]);
      assert multiset(s)[s[0]] <= 1;
      forall c ensures multiset(s[1..])[c] <= 1 {
        assert multiset(s)[c] <= 1;
      }
      DistinctFrom(s[1..]);
    }
  }

  lemma DistinctPermutes(s: seq<Candidate>, t: seq<Candidate>)
    requires DistinctIds(s) && multiset(s) == multiset(t)
    ensures DistinctIds(t)
  {
    forall c ensures multiset(t)[c] <= 1 {
      DistinctCount(s, c);
    }
    forall a, b | a in t && b in t && a.candidateId == b.candidateId ensures a == b {
      assert a in multiset(s) && b in multiset(s);
      DistinctMeans(s, a, b);
    }
    DistinctFrom(t);
  }

  /** As long as the same candidates are selected every field of the decision is the same, and a decision is
      never the same if others are. */
  ghost predicate OrderFollowsSelection(lib: Library, lead: Lead, s: seq<Candidate>, t: seq<Candidate>,
                                        relationships: seq<string>, budget: nat)
  {
    var same := CandidateIds(GenerateCandidates(lib, lead, s, budget))
         == CandidateIds(GenerateCandidates(lib, lead, t, budget));
    && (same ==> Resolve(lib, lead, s, relationships, budget) == Resolve(lib, lead, t, relationships, budget))
    && (Resolve(lib, lead, s, relationships, budget).Ok? ==>
          (same <==> Resolve(lib, lead, s, relationships, budget) == Resolve(lib, lead, t, relationships, budget)))
  }

  /** With distinct ids the order of the candidates matters exactly through what the budget cuts. */
  lemma OrderMattersOnlyThroughTheBudget(lib: Library, lead: Lead, s: seq<Candidate>, t: seq<Candidate>,
                                         relationships: seq<string>, budget: int)
    requires DistinctIds(s) && multiset(s) == multiset(t) && budget > 0
    ensures OrderFollowsSelection(lib, lead, s, t, relationships, budget)
  {
    var a, b := GenerateCandidates(lib, lead, s, budget), GenerateCandidates(lib, lead, t, budget);
    DistinctPermutes(s, t);
    GeneratedDistinct(lib, lead, s, budget);
    GeneratedDistinct(lib, lead, t, budget);
    GeneratedMembers(lib, lead, s, budget);
    GeneratedMembers(lib, lead, t, budget);
    if CandidateIds(a) == CandidateIds(b) {
      forall c | c in b ensures c in s {
        assert c in multiset(t);
      }
      SameIdsPermute(s, a, b);
      SameSelectionSameDecision(lib, lead, s, t, relationships, budget);
    }
    if Resolve(lib, lead, s, relationships, budget).Ok?
         && Resolve(lib, lead, s, relationships, budget) == Resolve(lib, lead, t, relationships, budget) {
      CarriedIds(lib, lead, s, relationships, budget);
      CarriedIds(lib, lead, t, relationships, budget);
    }
  }

  /** Within the budget nothing is cut, and the order does not matter at all. */
  lemma OrderDoesNotMatter(lib: Library, lead: Lead, s: seq<Candidate>, t: seq<Candidate>, relationships: seq<string>,
                           budget: int)
    requires DistinctIds(s) && multiset(s) == multiset(t) && |Blocked(lib, lead, s)| <= budget
    ensures Resolve(lib, lead, s, relationships, budget) == Resolve(lib, lead, t, relationships, budget)
  {
    BlockedPermutes(lib, lead, s, t);
    BlockedMembers(lib, lead, s);
    if budget > 0 {
      SameSelectionSameDecision(lib, lead, s, t, relationships, budget);
    }
  }

  lemma FirstIsKept(lib: Library, lead: Lead, s: seq<Candidate>)
    requires s != [] && IsBlockMatch(lib, lead, s[0])
    ensures CandidateIds(GenerateCandidates(lib, lead, s, 1)) == {s[0].candidateId}
  {
    assert GenerateCandidates(lib, lead, s, 1) == [s[0]];
    assert [s[0]][1..] == [];
  }

  /** Beyond it the order does matter: a budget of one keeps the first block match, whichever that is. */
  lemma BudgetOfOneKeepsTheFirst(lib: Library, lead: Lead, s: seq<Candidate>, t: seq<Candidate>,
                                 relationships: seq<string>)
    requires DistinctIds(s) && multiset(s) == multiset(t) && s != [] && t != []
    requires IsBlockMatch(lib, lead, s[0]) && IsBlockMatch(lib, lead, t[0]) && s[0].candidateId != t[0].candidateId
    requires Resolve(lib, lead, s, relationships, 1).Ok?
    ensures Resolve(lib, lead, s, relationships, 1) != Resolve(lib, lead, t, relationships, 1)
  {
    FirstIsKept(lib, lead, s);
    FirstIsKept(lib, lead, t);
    OrderMattersOnlyThroughTheBudget(lib, lead, s, t, relationships, 1);
  }

  // ---------- no stealing ----------

  lemma {:induction false} MatchablesIsFlatMap(lib: Library, lead: Lead, s: seq<Candidate>)
    ensures Matchables(lib, lead, s) == FlatMap((c: Candidate) => if Matchable(lib, lead, c) then [c] else [], s)
  {
    if s != [] {
      MatchablesIsFlatMap(lib, lead, s[1..]);
    }
  }

  lemma MatchablesConcat(lib: Library, lead: Lead, s: seq<Candidate>, t: seq<Candidate>)
    ensures Matchables(lib, lead, s + t) == Matchables(lib, lead, s) + Matchables(lib, lead, t)
  {
    MatchablesIsFlatMap(lib, lead, s);
    MatchablesIsFlatMap(lib, lead, t);
    MatchablesIsFlatMap(lib, lead, s + t);
    FlatMapConcat((c: Candidate) => if Matchable(lib, lead, c) then [c] else [], s, t);
  }

  lemma BlockedConcat(lib: Library, lead: Lead, s: seq<Candidate>, t: seq<Candidate>)
    ensures Blocked(lib, lead, s + t) == Blocked(lib, lead, s) + Blocked(lib, lead, t)
  {
    BlockedIsFlatMap(lib, lead, s);
    BlockedIsFlatMap(lib, lead, t);
    BlockedIsFlatMap(lib, lead, s + t);
    FlatMapConcat((c: Candidate) => if IsBlockMatch(lib, lead, c) then [c] else [], s, t);
  }

  lemma {:induction false} LookupPrefix(s: seq<Candidate>, t: seq<Candidate>, id: string)
    requires Lookup(s, id).Some?
    ensures Lookup(s + t, id) == Lookup(s, id)
  {
    assert (s + t)[1..] == s[1..] + t;
    if s[0].candidateId != id {
      LookupPrefix(s[1..], t, id);
    }
  }

  /** What the budget leaves of the further candidates' block matches. */
  function Remaining(lib: Library, lead: Lead, s: seq<Candidate>, extra: seq<Candidate>, budget: nat): seq<Candidate> {
    var room, b := budget - |GenerateCandidates(lib, lead, s, budget)|, Blocked(lib, lead, extra);
    if |b| <= room then b else b[..room]
  }

  function Take(s: seq<Candidate>, n: nat): seq<Candidate> {
    if |s| <= n then s else s[..n]
  }

  lemma TakeConcat(a: seq<Candidate>, b: seq<Candidate>, n: nat)
    ensures Take(a + b, n) == Take(a, n) + Take(b, n - |Take(a, n)|)
  {
  }

  /** The candidates selected first stay selected, and what room is left goes to the further ones. */
  lemma SelectionExtends(lib: Library, lead: Lead, s: seq<Candidate>, extra: seq<Candidate>, budget: nat)
    ensures GenerateCandidates(lib, lead, s + extra, budget)
            == GenerateCandidates(lib, lead, s, budget) + Remaining(lib, lead, s, extra, budget)
  {
    BlockedConcat(lib, lead, s, extra);
    TakeConcat(Blocked(lib, lead, s), Blocked(lib, lead, extra), budget);
  }

  /** The identity a match reports, and the evidence for it. */
  ghost predicate SameIdentity(a: Decision, b: Decision) {
    && a.canonicalEntityId == b.canonicalEntityId && a.entityType == b.entityType
    && a.canonicalName == b.canonicalName && a.canonicalDomain == b.canonicalDomain
    && a.currentness == b.currentness && a.evidenceRefs == b.evidenceRefs
  }

  /** Further candidates can turn a match only into the same match or a conflict: never into a match with
      someone else, and never into a weaker answer. The budget may cut whatever it cuts. */
  lemma NoStealing(lib: Library, lead: Lead, s: seq<Candidate>, extra: seq<Candidate>, relationships: seq<string>,
                   budget: int)
    requires Resolve(lib, lead, s, relationships, budget).Ok?
    requires IsMatch(Resolve(lib, lead, s, relationships, budget).value.status)
    ensures var before, after := Resolve(lib, lead, s, relationships, budget).value,
                                 Resolve(lib, lead, s + extra, relationships, budget);
            && after.Ok?
            && (after.value.status == Conflict
                || (after.value.status == before.status && SameIdentity(before, after.value)))
  {
    var a, b := GenerateCandidates(lib, lead, s, budget), Remaining(lib, lead, s, extra, budget);
    SelectionExtends(lib, lead, s, extra, budget);
    Outcome(lib, lead, s, relationships, budget);
    Outcome(lib, lead, s + extra, relationships, budget);
    MatchablesConcat(lib, lead, a, b);
    var m := Matchables(lib, lead, a);
    WinnerIsSelected(lib, lead, a);
    LookupPrefix(a, b, m[0].candidateId);
    assert (m + Matchables(lib, lead, b))[0] == m[0];
  }
}
