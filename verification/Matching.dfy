/** Leads, candidates, blocking and the comparison of one candidate with a lead.

    The source adds signals one test after another. `Compared` says what that amounts to: the list of
    all signal codes, filtered by whether their evidence is present. `CompareCandidate` is the source's
    step-by-step form, proved to produce it. */
module Matching {
  import opened Normalization

  /** What the matcher takes from Python's library. `domain` is the host of a domain or URL, `host` the
      host part of a page's URL, `similarity` the ratio of two token strings, `digest` a hash. */
  datatype Library = Library(
    lower: string -> string,
    domain: string -> string,
    host: string -> string,
    similarity: (set<string>, set<string>) -> real,
    digest: (string, seq<(string, int)>) -> string)

  /** The lead fields that are used; a missing string is the empty one. */
  datatype Lead = Lead(leadId: string, displayName: string, legalName: string, domain: string,
                       countryCode: string, region: string, city: string)

  datatype EntityType =
    | LegalEntity | OperatingEntity | Brand | BusinessUnit | ParentCompany | HoldingCompany
    | Franchisee | Licensor | Licensee | ExternalProvider | Unknown

  datatype Currentness = Current | Historical | UnknownCurrentness | NotEstablished | ConflictingCurrentness

  datatype Candidate = Candidate(
    candidateId: string, entityId: string, entityType: EntityType, canonicalName: string, canonicalDomain: string,
    aliases: seq<string>, geography: seq<string>,
    domainVerified: bool, officialCorporateUrlMatch: bool, explicitOfficialIdentityTie: bool,
    registeredIdentityMatch: bool, corporateSocialMatch: bool, parentRelationshipConsistent: bool,
    historicalOnly: bool, clearlyDifferentLegalEntity: bool, conflictingAuthoritativeDomain: bool,
    conflictingGeography: bool, externalProviderRelationship: bool,
    currentness: Currentness, evidenceRefs: seq<string>)

  datatype Code =
    | ExactVerifiedCanonicalDomain | ExactOfficialCorporateUrl | ExplicitOfficialIdentityTie
    | NormalizedCompanyName | GeographyMatch | RegisteredIdentityMatch
    | CorporateSocialMatch | ParentRelationshipConsistent
    | NameSimilarity
    | ConflictingAuthoritativeDomain | ConflictingGeography | ClearlyDifferentLegalEntity | HistoricalOnly
    | ExternalProviderRelationship

  datatype Strength = Strong | Medium | Weak | Negative

  datatype Signal = Signal(code: Code, strength: Strength, weight: int)

  datatype Comparison = Comparison(candidateId: string, score: int, signals: seq<Signal>, hardNegative: bool,
                                   eligible: bool)

  // ---------- the evidence for each signal ----------

  function LeadName(lead: Lead): string {
    if lead.legalName != "" then lead.legalName else lead.displayName
  }

  function GeographyTokens(lib: Library, values: seq<string>): set<string> {
    set v | v in values && NormalizeName(lib.lower, v) != "" :: NormalizeName(lib.lower, v)
  }

  function LeadGeography(lib: Library, lead: Lead): set<string> {
    GeographyTokens(lib, [lead.countryCode, lead.region, lead.city])
  }

  predicate SameDomain(lib: Library, lead: Lead, c: Candidate) {
    lib.domain(lead.domain) != "" && lib.domain(lead.domain) == lib.domain(c.canonicalDomain)
  }

  predicate SameName(lib: Library, lead: Lead, c: Candidate) {
    var name := NormalizeName(lib.lower, LeadName(lead));
    name != "" && name == NormalizeName(lib.lower, c.canonicalName)
  }

  predicate SimilarName(lib: Library, lead: Lead, c: Candidate) {
    var candidateTokens, leadTokens := NameTokens(lib.lower, c.canonicalName), NameTokens(lib.lower, LeadName(lead));
    && leadTokens != {} && candidateTokens != {}
    && lib.similarity(leadTokens, candidateTokens) >= 0.8
    && NormalizeName(lib.lower, LeadName(lead)) != NormalizeName(lib.lower, c.canonicalName)
  }

  predicate Evidence(lib: Library, lead: Lead, c: Candidate, code: Code) {
    match code
    case ExactVerifiedCanonicalDomain => SameDomain(lib, lead, c) && c.domainVerified
    case ExactOfficialCorporateUrl => c.officialCorporateUrlMatch
    case ExplicitOfficialIdentityTie => c.explicitOfficialIdentityTie
    case NormalizedCompanyName => SameName(lib, lead, c)
    case GeographyMatch => LeadGeography(lib, lead) * GeographyTokens(lib, c.geography) != {}
    case RegisteredIdentityMatch => c.registeredIdentityMatch
    case CorporateSocialMatch => c.corporateSocialMatch
    case ParentRelationshipConsistent => c.parentRelationshipConsistent
    case NameSimilarity => SimilarName(lib, lead, c)
    case ConflictingAuthoritativeDomain => c.conflictingAuthoritativeDomain
    case ConflictingGeography => c.conflictingGeography
    case ClearlyDifferentLegalEntity => c.clearlyDifferentLegalEntity
    case HistoricalOnly => c.historicalOnly
    case ExternalProviderRelationship => c.externalProviderRelationship
  }

  function StrengthOf(code: Code): Strength {
    match code
    case ExactVerifiedCanonicalDomain => Strong
    case ExactOfficialCorporateUrl => Strong
    case ExplicitOfficialIdentityTie => Strong
    case NameSimilarity => Weak
    case NormalizedCompanyName => Medium
    case GeographyMatch => Medium
    case RegisteredIdentityMatch => Medium
    case CorporateSocialMatch => Medium
    case ParentRelationshipConsistent => Medium
    case _ => Negative
  }

  function WeightOf(code: Code): int {
    match code
    case ExactVerifiedCanonicalDomain => 100
    case ExactOfficialCorporateUrl => 95
    case ExplicitOfficialIdentityTie => 90
    case NormalizedCompanyName => 55
    case GeographyMatch => 20
    case RegisteredIdentityMatch => 35
    case CorporateSocialMatch => 25
    case ParentRelationshipConsistent => 15
    case NameSimilarity => 10
    case _ => -100
  }

  const CODES: seq<Code> := [
    ExactVerifiedCanonicalDomain, ExactOfficialCorporateUrl, ExplicitOfficialIdentityTie,
    NormalizedCompanyName, GeographyMatch, RegisteredIdentityMatch, CorporateSocialMatch, ParentRelationshipConsistent,
    NameSimilarity,
    ConflictingAuthoritativeDomain, ConflictingGeography, ClearlyDifferentLegalEntity, HistoricalOnly,
    ExternalProviderRelationship]

  // ---------- the comparison, specified ----------

  function SignalFor(code: Code): Signal {
    Signal(code, StrengthOf(code), WeightOf(code))
  }

  /** The signals for those of the given codes whose evidence is present, in order. */
  function Noted(lib: Library, lead: Lead, c: Candidate, codes: seq<Code>): seq<Signal> {
    if codes == [] then []
    else
      var rest := Noted(lib, lead, c, codes[1..]);
      if Evidence(lib, lead, c, codes[0]) then [SignalFor(codes[0])] + rest else rest
  }

  function Total(signals: seq<Signal>): int {
    if signals == [] then 0 else signals[0].weight + Total(signals[1..])
  }

  predicate HasStrong(lib: Library, lead: Lead, c: Candidate) {
    || Evidence(lib, lead, c, ExactVerifiedCanonicalDomain)
    || Evidence(lib, lead, c, ExactOfficialCorporateUrl)
    || Evidence(lib, lead, c, ExplicitOfficialIdentityTie)
  }

  predicate HasNegative(c: Candidate) {
    || c.conflictingAuthoritativeDomain || c.conflictingGeography || c.clearlyDifferentLegalEntity
    || c.historicalOnly || c.externalProviderRelationship
  }

  function Compared(lib: Library, lead: Lead, c: Candidate): Comparison {
    var signals := Noted(lib, lead, c, CODES);
    Comparison(c.candidateId, Total(signals), signals, HasNegative(c), HasStrong(lib, lead, c) && !HasNegative(c))
  }

  predicate IsStrong(s: Signal) {
    s.strength == Strong
  }

  /** A code is signalled exactly when it was looked for and its evidence is present. */
  lemma {:induction false} NotedExactly(lib: Library, lead: Lead, c: Candidate, codes: seq<Code>, code: Code)
    ensures SignalFor(code) in Noted(lib, lead, c, codes) <==> code in codes && Evidence(lib, lead, c, code)
    ensures forall s :: s in Noted(lib, lead, c, codes) ==> s == SignalFor(s.code)
  {
    if codes != [] {
      NotedExactly(lib, lead, c, codes[1..], code);
    }
  }

  /** The places the tests have in a table of codes. */
  ghost predicate Table(codes: seq<Code>) {
    && |codes| == 14
    && codes[0] == ExactVerifiedCanonicalDomain && codes[1] == ExactOfficialCorporateUrl
       && codes[2] == ExplicitOfficialIdentityTie
    && codes[3] == NormalizedCompanyName && codes[4] == GeographyMatch && codes[5] == RegisteredIdentityMatch
    && codes[6] == CorporateSocialMatch && codes[7] == ParentRelationshipConsistent && codes[8] == NameSimilarity
    && codes[9] == ConflictingAuthoritativeDomain && codes[10] == ConflictingGeography
    && codes[11] == ClearlyDifferentLegalEntity && codes[12] == HistoricalOnly
       && codes[13] == ExternalProviderRelationship
  }

  /** A comparison carries a strong signal exactly when strong evidence exists, whatever its score. */
  lemma StrongSignals(lib: Library, lead: Lead, c: Candidate, codes: seq<Code>)
    requires Table(codes)
    ensures (exists s :: s in Noted(lib, lead, c, codes) && IsStrong(s)) <==> HasStrong(lib, lead, c)
  {
    NotedExactly(lib, lead, c, codes, codes[0]);
    NotedExactly(lib, lead, c, codes, codes[1]);
    NotedExactly(lib, lead, c, codes, codes[2]);
    if s :| s in Noted(lib, lead, c, codes) && IsStrong(s) {
      NotedExactly(lib, lead, c, codes, s.code);
      assert s == SignalFor(s.code);
    }
    if HasStrong(lib, lead, c) {
      var code := if Evidence(lib, lead, c, codes[0]) then codes[0]
                  else if Evidence(lib, lead, c, codes[1]) then codes[1] else codes[2];
      assert SignalFor(code) in Noted(lib, lead, c, codes) && IsStrong(SignalFor(code));
    }
  }

  lemma {:induction false} TotalSnoc(signals: seq<Signal>, s: Signal)
    ensures Total(signals + [s]) == Total(signals) + s.weight
  {
    if signals != [] {
      assert (signals + [s])[1..] == signals[1..] + [s];
      TotalSnoc(signals[1..], s);
    }
  }

  // ---------- the comparison, step by step ----------

  /** The running state of the step-by-step form. */
  datatype Tally = Tally(signals: seq<Signal>, score: int)

  /** What has been found so far, and what the codes from `n` on still contribute, make up the whole. */
  ghost predicate Underway(lib: Library, lead: Lead, c: Candidate, codes: seq<Code>, n: nat, t: Tally) {
    match t
    case Tally(signals, score) =>
      n <= |codes| && signals + Noted(lib, lead, c, codes[n..]) == Noted(lib, lead, c, codes) && score == Total(signals)
  }

  /** One test: append the signal and its weight when its evidence is present. */
  method Note(t: Tally, present: bool, code: Code, strength: Strength, weight: int,
              ghost lib: Library, ghost lead: Lead, ghost c: Candidate, ghost codes: seq<Code>, ghost n: nat)
    returns (t': Tally)
    requires n < |codes| && codes[n] == code && Signal(code, strength, weight) == SignalFor(code)
    requires present == Evidence(lib, lead, c, code)
    requires Underway(lib, lead, c, codes, n, t)
    ensures Underway(lib, lead, c, codes, n + 1, t')
  {
    assert codes[n..][1..] == codes[n + 1..];
    if present {
      TotalSnoc(t.signals, Signal(code, strength, weight));
      t' := Tally(t.signals + [Signal(code, strength, weight)], t.score + weight);
    } else {
      t' := t;
    }
  }

  method NoteDomain(lib: Library, lead: Lead, c: Candidate, ghost codes: seq<Code>) returns (t: Tally)
    requires Table(codes)
    ensures Underway(lib, lead, c, codes, 1, t)
  {
    t := Tally([], 0);
    assert codes[0..] == codes;
    var leadDomain, candidateDomain := lib.domain(lead.domain), lib.domain(c.canonicalDomain);
    t := Note(t, leadDomain != "" && candidateDomain != "" && leadDomain == candidateDomain && c.domainVerified,
              ExactVerifiedCanonicalDomain, Strong, 100, lib, lead, c, codes, 0);
  }

  method NoteStrong(lib: Library, lead: Lead, c: Candidate, ghost codes: seq<Code>) returns (t: Tally)
    requires Table(codes)
    ensures Underway(lib, lead, c, codes, 3, t)
  {
    t := NoteDomain(lib, lead, c, codes);
    t := Note(t, c.officialCorporateUrlMatch, ExactOfficialCorporateUrl, Strong, 95, lib, lead, c, codes, 1);
    t := Note(t, c.explicitOfficialIdentityTie, ExplicitOfficialIdentityTie, Strong, 90, lib, lead, c, codes, 2);
  }

  method NoteShared(shared: bool, ghost lib: Library, ghost lead: Lead, ghost c: Candidate, before: Tally,
                    ghost codes: seq<Code>)
    returns (t: Tally)
    requires Table(codes) && shared == Evidence(lib, lead, c, GeographyMatch)
    requires Underway(lib, lead, c, codes, 4, before)
    ensures Underway(lib, lead, c, codes, 5, t)
  {
    t := Note(before, shared, GeographyMatch, Medium, 20, lib, lead, c, codes, 4);
  }

  lemma Overlap(a: set<string>, b: set<string>)
    ensures (a != {} && b != {} && a * b != {}) == (a * b != {})
  {
    if a * b != {} {
      var x :| x in a * b;
      assert x in a && x in b;
    }
  }

  method NoteGeography(lib: Library, lead: Lead, c: Candidate, before: Tally, ghost codes: seq<Code>) returns (t: Tally)
    requires Table(codes)
    requires Underway(lib, lead, c, codes, 4, before)
    ensures Underway(lib, lead, c, codes, 5, t)
  {
    var leadGeo, candidateGeo := LeadGeography(lib, lead), GeographyTokens(lib, c.geography);
    var shared := leadGeo != {} && candidateGeo != {} && leadGeo * candidateGeo != {};
    assert shared == Evidence(lib, lead, c, GeographyMatch) by {
      Overlap(leadGeo, candidateGeo);
    }
    t := NoteShared(shared, lib, lead, c, before, codes);
  }

  method NoteNames(lib: Library, lead: Lead, c: Candidate, before: Tally, ghost codes: seq<Code>) returns (t: Tally)
    requires Table(codes)
    requires Underway(lib, lead, c, codes, 3, before)
    ensures Underway(lib, lead, c, codes, 5, t)
  {
    t := before;
    var leadName, candidateName := NormalizeName(lib.lower, LeadName(lead)), NormalizeName(lib.lower, c.canonicalName);
    t := Note(t, leadName != "" && candidateName != "" && leadName == candidateName,
              NormalizedCompanyName, Medium, 55, lib, lead, c, codes, 3);
    t := NoteGeography(lib, lead, c, t, codes);
  }

  method NoteTies(lib: Library, lead: Lead, c: Candidate, before: Tally, ghost codes: seq<Code>) returns (t: Tally)
    requires Table(codes)
    requires Underway(lib, lead, c, codes, 5, before)
    ensures Underway(lib, lead, c, codes, 9, t)
  {
    t := Note(before, c.registeredIdentityMatch, RegisteredIdentityMatch, Medium, 35, lib, lead, c, codes, 5);
    t := Note(t, c.corporateSocialMatch, CorporateSocialMatch, Medium, 25, lib, lead, c, codes, 6);
    t := Note(t, c.parentRelationshipConsistent, ParentRelationshipConsistent, Medium, 15, lib, lead, c, codes, 7);
    var candidateTokens, leadTokens := NameTokens(lib.lower, c.canonicalName), NameTokens(lib.lower, LeadName(lead));
    var differ := NormalizeName(lib.lower, LeadName(lead)) != NormalizeName(lib.lower, c.canonicalName);
    t := Note(t, leadTokens != {} && candidateTokens != {} && lib.similarity(leadTokens, candidateTokens) >= 0.8
              && differ,
              NameSimilarity, Weak, 10, lib, lead, c, codes, 8);
  }

  /** The negative tests, in the order they are tried. */
  function Negatives(c: Candidate): seq<(Code, bool)> {
    [(ConflictingAuthoritativeDomain, c.conflictingAuthoritativeDomain), (ConflictingGeography, c.conflictingGeography),
     (ClearlyDifferentLegalEntity, c.clearlyDifferentLegalEntity), (HistoricalOnly, c.historicalOnly),
     (ExternalProviderRelationship, c.externalProviderRelationship)]
  }

  lemma NegativesInOrder(lib: Library, lead: Lead, c: Candidate, codes: seq<Code>, i: nat)
    requires i < 5 && Table(codes)
    ensures Negatives(c)[i].0 == codes[9 + i] && Negatives(c)[i].1 == Evidence(lib, lead, c, codes[9 + i])
    ensures SignalFor(codes[9 + i]) == Signal(codes[9 + i], Negative, -100)
  {
    if i == 0 {} else if i == 1 {} else if i == 2 {} else if i == 3 {} else {}
  }

  ghost predicate AnyNegative(c: Candidate, n: nat) {
    exists k :: 0 <= k < n && k < 5 && Negatives(c)[k].1
  }

  lemma AllNegatives(c: Candidate)
    ensures AnyNegative(c, 5) <==> HasNegative(c)
  {
    var negatives := Negatives(c);
    assert negatives[0].1 == c.conflictingAuthoritativeDomain && negatives[1].1 == c.conflictingGeography
        && negatives[2].1 == c.clearlyDifferentLegalEntity && negatives[3].1 == c.historicalOnly
        && negatives[4].1 == c.externalProviderRelationship;
  }

  method NoteNegatives(lib: Library, lead: Lead, c: Candidate, before: Tally, ghost codes: seq<Code>)
    returns (t: Tally, hardNegative: bool)
    requires Table(codes)
    requires Underway(lib, lead, c, codes, 9, before)
    ensures Underway(lib, lead, c, codes, 14, t) && hardNegative == HasNegative(c)
  {
    t, hardNegative := before, false;
    var negatives := Negatives(c);
    var i := 0;
    while i < 5
      invariant 0 <= i <= 5 && Underway(lib, lead, c, codes, 9 + i, t)
      invariant hardNegative == AnyNegative(c, i)
    {
      NegativesInOrder(lib, lead, c, codes, i);
      t := Note(t, negatives[i].1, negatives[i].0, Negative, -100, lib, lead, c, codes, 9 + i);
      if negatives[i].1 {
        hardNegative := true;
      }
      i := i + 1;
    }
    AllNegatives(c);
  }

  method CompareCandidate(lib: Library, lead: Lead, c: Candidate) returns (r: Comparison)
    ensures r == Compared(lib, lead, c)
  {
    var t := NoteStrong(lib, lead, c, CODES);
    t := NoteNames(lib, lead, c, t, CODES);
    t := NoteTies(lib, lead, c, t, CODES);
    var hardNegative: bool;
    t, hardNegative := NoteNegatives(lib, lead, c, t, CODES);
    assert CODES[14..] == [];
    assert t.signals + [] == t.signals;
    var strong := exists s :: s in t.signals && IsStrong(s);
    StrongSignals(lib, lead, c, CODES);
    r := Comparison(c.candidateId, t.score, t.signals, hardNegative, !hardNegative && strong);
  }

  // ---------- blocking ----------

  /** The tokens of the candidate's name and of its aliases. */
  function AliasTokens(lib: Library, names: seq<string>): set<string> {
    if names == [] then {} else NameTokens(lib.lower, names[0]) + AliasTokens(lib, names[1..])
  }

  method CandidateAliasTokens(lib: Library, c: Candidate) returns (tokens: set<string>)
    ensures tokens == AliasTokens(lib, [c.canonicalName] + c.aliases)
  {
    var names := [c.canonicalName] + c.aliases;
    tokens := {};
    var i := 0;
    while i < |names|
      invariant 0 <= i <= |names| && tokens + AliasTokens(lib, names[i..]) == AliasTokens(lib, names)
    {
      tokens := tokens + NameTokens(lib.lower, names[i]);
      i := i + 1;
    }
  }

  predicate IsBlockMatch(lib: Library, lead: Lead, c: Candidate) {
    var leadDomain, candidateDomain := lib.domain(lead.domain), lib.domain(c.canonicalDomain);
    var leadTokens, aliasTokens := NameTokens(lib.lower, LeadName(lead)),
         AliasTokens(lib, [c.canonicalName] + c.aliases);
    || (leadDomain != "" && candidateDomain != ""
        && (leadDomain == candidateDomain
            || RegistrableDomain(lib.domain, leadDomain) == RegistrableDomain(lib.domain, candidateDomain)))
    || leadTokens * aliasTokens != {}
    || (LeadGeography(lib, lead) * GeographyTokens(lib, c.geography) != {} && leadTokens * aliasTokens != {})
  }
}
