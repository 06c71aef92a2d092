/** From fetched evidence to candidates, and through to the decision.

    The source fills lists in loops; each loop is a method here, proved against a function. The
    end-to-end result says that first-party evidence always leads to a match or a conflict. */
module CandidateProvider {
  import opened Wrappers
  import opened Normalization
  import opened Matching
  import Resolver

  datatype EvidenceInput = EvidenceInput(evidenceId: string, url: string)

  /** An extracted entity. Its type is already upper-cased; None is a type outside the vocabulary. */
  datatype Extracted = Extracted(name: string, entityType: Option<EntityType>, domain: string,
                                 relationshipToTarget: string, evidenceIds: seq<string>)

  /** None is a value outside the vocabulary. */
  datatype CurrentnessClaim = CurrentnessClaim(entityName: string, currentness: Option<Currentness>)

  /** `UnboundTarget` is the read of a local variable that was never assigned. */
  datatype Produced = Candidates(candidates: seq<Candidate>) | UnboundTarget

  // ---------- evidence, looked up by id ----------

  /** The dictionary of the evidence: a later item with the same id replaces the earlier one's url. */
  function ById(evidence: seq<EvidenceInput>): map<string, string> {
    if evidence == [] then map[]
    else
      var last := evidence[|evidence| - 1];
      ById(evidence[..|evidence| - 1])[last.evidenceId := last.url]
  }

  /** The dictionary's keys in insertion order. */
  function KeysInOrder(evidence: seq<EvidenceInput>): seq<string> {
    if evidence == [] then []
    else
      var earlier, last := KeysInOrder(evidence[..|evidence| - 1]), evidence[|evidence| - 1];
      if last.evidenceId in earlier then earlier else earlier + [last.evidenceId]
  }

  lemma {:induction false} KeysAreKeys(evidence: seq<EvidenceInput>)
    ensures forall id :: id in KeysInOrder(evidence) <==> id in ById(evidence)
    ensures KeysInOrder(evidence) == [] <==> evidence == []
  {
    if evidence != [] {
      KeysAreKeys(evidence[..|evidence| - 1]);
    }
  }

  function Known(ids: seq<string>, byId: map<string, string>): seq<string> {
    if ids == [] then []
    else if ids[0] in byId then [ids[0]] + Known(ids[1..], byId)
    else Known(ids[1..], byId)
  }

  function OnDomain(lib: Library, ids: seq<string>, byId: map<string, string>, target: string): seq<string> {
    if ids == [] then []
    else
      var rest := OnDomain(lib, ids[1..], byId, target);
      if ids[0] in byId && RegistrableDomain(lib.domain, lib.host(byId[ids[0]])) == target
      then [ids[0]] + rest
      else rest
  }

  // ---------- one extracted entity ----------

  function CurrentnessForName(lib: Library, name: string, claims: seq<CurrentnessClaim>): Currentness {
    if claims == [] then UnknownCurrentness
    else if NormalizeName(lib.lower, claims[0].entityName) == NormalizeName(lib.lower, name)
      && claims[0].currentness.Some?
    then claims[0].currentness.value
    else CurrentnessForName(lib, name, claims[1..])
  }

  /** The entity gets past the type and evidence filters, where the target domain is computed. */
  predicate Reaches(e: Extracted, byId: map<string, string>) {
    e.entityType.Some? && e.entityType.value != Unknown && Known(e.evidenceIds, byId) != []
  }

  predicate SameFirstPartyDomain(lib: Library, lead: Lead, e: Extracted, byId: map<string, string>) {
    var target := RegistrableDomain(lib.domain, lead.domain);
    target != ""
    && exists id :: id in e.evidenceIds && id in byId && lib.domain(lib.host(byId[id])) != ""
                    && RegistrableDomain(lib.domain, lib.domain(lib.host(byId[id]))) == target
  }

  predicate NamesLead(lib: Library, lead: Lead, e: Extracted) {
    var name := NormalizeName(lib.lower, e.name);
    name != "" && (name == NormalizeName(lib.lower, lead.displayName)
                   || name == NormalizeName(lib.lower, lead.legalName))
  }

  predicate Kept(lib: Library, lead: Lead, e: Extracted, byId: map<string, string>) {
    || NamesLead(lib, lead, e)
    || (lib.domain(lead.domain) != "" && lib.domain(e.domain) == lib.domain(lead.domain))
    || (SameFirstPartyDomain(lib, lead, e, byId) && e.relationshipToTarget == "")
  }

  function EffectiveDomain(lib: Library, lead: Lead, e: Extracted, byId: map<string, string>): string {
    if lib.domain(e.domain) != "" then lib.domain(e.domain)
    else if SameFirstPartyDomain(lib, lead, e, byId) && e.relationshipToTarget == "" then lead.domain
    else ""
  }

  function TypeText(t: EntityType): string {
    match t
    case LegalEntity => "LEGAL_ENTITY"
    case OperatingEntity => "OPERATING_ENTITY"
    case Brand => "BRAND"
    case BusinessUnit => "BUSINESS_UNIT"
    case ParentCompany => "PARENT_COMPANY"
    case HoldingCompany => "HOLDING_COMPANY"
    case Franchisee => "FRANCHISEE"
    case Licensor => "LICENSOR"
    case Licensee => "LICENSEE"
    case ExternalProvider => "EXTERNAL_PROVIDER"
    case Unknown => "UNKNOWN"
  }

  function DomainText(domain: string): string {
    if domain == "" then "None" else domain
  }

  /** The key whose digest identifies a candidate; a missing domain is written out as a word. */
  function IdKey(lib: Library, name: string, domain: string, t: EntityType): string {
    NormalizeName(lib.lower, name) + "|" + DomainText(domain) + "|" + TypeText(t)
  }

  function CandidateId(lib: Library, name: string, domain: string, t: EntityType): string {
    "research:" + lib.digest(IdKey(lib, name, domain, t), [])
  }

  function ResearchCandidate(id: string, t: EntityType, name: string, domain: string, verified: bool, tied: bool,
                             currentness: Currentness, refs: seq<string>): Candidate {
    Candidate(id, "", t, name, domain, [], [], verified, verified, tied, false, false, false,
              false, false, false, false, false, currentness, refs)
  }

  function Make(lib: Library, lead: Lead, e: Extracted, byId: map<string, string>,
                claims: seq<CurrentnessClaim>): Candidate
    requires Reaches(e, byId)
  {
    var domain := EffectiveDomain(lib, lead, e, byId);
    var verified := domain != "" && lib.domain(lead.domain) != "" && domain == lib.domain(lead.domain)
                    && SameFirstPartyDomain(lib, lead, e, byId) && e.relationshipToTarget == "";
    ResearchCandidate(CandidateId(lib, e.name, domain, e.entityType.value), e.entityType.value, e.name, domain,
                      verified, verified && NamesLead(lib, lead, e), CurrentnessForName(lib, e.name, claims),
                      Known(e.evidenceIds, byId))
  }

  // ---------- the whole list, specified ----------

  /** The candidates of the entities kept, one per id, in order. */
  function FromEntities(lib: Library, lead: Lead, entities: seq<Extracted>, byId: map<string, string>,
                        claims: seq<CurrentnessClaim>, seen: set<string>): seq<Candidate>
    decreases |entities|
  {
    if entities == [] then []
    else if !Reaches(entities[0], byId) || !Kept(lib, lead, entities[0], byId) then
      FromEntities(lib, lead, entities[1..], byId, claims, seen)
    else
      var c := Make(lib, lead, entities[0], byId, claims);
      if c.candidateId in seen then FromEntities(lib, lead, entities[1..], byId, claims, seen)
      else [c] + FromEntities(lib, lead, entities[1..], byId, claims, seen + {c.candidateId})
  }

  predicate AnyReaches(entities: seq<Extracted>, byId: map<string, string>) {
    exists i :: 0 <= i < |entities| && Reaches(entities[i], byId)
  }

  predicate FirstParty(c: Candidate) {
    c.domainVerified || c.officialCorporateUrlMatch
  }

  predicate AnyFirstParty(candidates: seq<Candidate>) {
    exists i :: 0 <= i < |candidates| && FirstParty(candidates[i])
  }

  function FallbackName(lead: Lead): string {
    if lead.displayName != "" then lead.displayName else if lead.legalName != "" then lead.legalName else lead.domain
  }

  function Fallback(lib: Library, lead: Lead, refs: seq<string>): Candidate {
    var name := FallbackName(lead);
    ResearchCandidate(CandidateId(lib, name, lead.domain, Brand), Brand, name, lead.domain, true, true, Current, refs)
  }

  function Produce(lib: Library, lead: Lead, entities: seq<Extracted>, evidence: seq<EvidenceInput>,
                   claims: seq<CurrentnessClaim>): Produced
  {
    var byId := ById(evidence);
    var fromEntities := FromEntities(lib, lead, entities, byId, claims, {});
    if AnyFirstParty(fromEntities) || lib.domain(lead.domain) == "" then Candidates(fromEntities)
    else if evidence != [] && !AnyReaches(entities, byId) then UnboundTarget
    else
      var refs := OnDomain(lib, KeysInOrder(evidence), byId, RegistrableDomain(lib.domain, lead.domain));
      if refs == [] then Candidates(fromEntities) else Candidates(fromEntities + [Fallback(lib, lead, refs)])
  }

  // ---------- the whole list, step by step ----------

  method IndexEvidence(evidence: seq<EvidenceInput>) returns (byId: map<string, string>)
    ensures byId == ById(evidence)
  {
    byId := map[];
    for i := 0 to |evidence|
      invariant byId == ById(evidence[..i])
    {
      assert evidence[..i + 1][..i] == evidence[..i];
      byId := byId[evidence[i].evidenceId := evidence[i].url];
    }
    assert evidence[..|evidence|] == evidence;
  }

  method CandidateObjects(lib: Library, lead: Lead, entities: seq<Extracted>, evidence: seq<EvidenceInput>,
                          claims: seq<CurrentnessClaim>)
    returns (r: Produced)
    ensures r == Produce(lib, lead, entities, evidence, claims)
  {
    var byId := IndexEvidence(evidence);
    var result: seq<Candidate>, seen: set<string> := [], {};
    var target: Option<string> := None;
    var i := 0;
    while i < |entities|
      invariant 0 <= i <= |entities|
      invariant result + FromEntities(lib, lead, entities[i..], byId, claims, seen)
                == FromEntities(lib, lead, entities, byId, claims, {})
      invariant target.Some? <==> exists k :: 0 <= k < i && Reaches(entities[k], byId)
      invariant target.Some? ==> target.value == RegistrableDomain(lib.domain, lead.domain)
    {
      var e := entities[i];
      assert entities[i..][0] == e && entities[i..][1..] == entities[i + 1..];
      if Reaches(e, byId) {
        target := Some(RegistrableDomain(lib.domain, lead.domain));
        if Kept(lib, lead, e, byId) {
          var c := Make(lib, lead, e, byId, claims);
          if c.candidateId !in seen {
            seen := seen + {c.candidateId};
            result := result + [c];
          }
        }
      }
      i := i + 1;
    }
    assert entities[i..] == [] && result + [] == result;
    if AnyFirstParty(result) || lib.domain(lead.domain) == "" {
      return Candidates(result);
    }
    if evidence != [] && target.None? {
      return UnboundTarget;
    }
    KeysAreKeys(evidence);
    var refs := if evidence == [] then [] else OnDomain(lib, KeysInOrder(evidence), byId, target.value);
    if refs == [] {
      r := Candidates(result);
    } else {
      r := Candidates(result + [Fallback(lib, lead, refs)]);
    }
  }

  lemma {:induction false} NothingFromEntities(lib: Library, lead: Lead, entities: seq<Extracted>,
                                               byId: map<string, string>,
                                               claims: seq<CurrentnessClaim>, seen: set<string>)
    requires !AnyReaches(entities, byId)
    ensures FromEntities(lib, lead, entities, byId, claims, seen) == []
    decreases |entities|
  {
    if entities != [] {
      assert !Reaches(entities[0], byId);
      forall i | 0 <= i < |entities[1..]| ensures !Reaches(entities[1..][i], byId) {
        assert entities[1..][i] == entities[i + 1];
      }
      NothingFromEntities(lib, lead, entities[1..], byId, claims, seen);
    }
  }

  /** The local variable is read unassigned exactly when there is a lead domain and evidence, and no
      extracted entity got as far as the assignment. */
  lemma UnboundExactly(lib: Library, lead: Lead, entities: seq<Extracted>, evidence: seq<EvidenceInput>,
                       claims: seq<CurrentnessClaim>)
    ensures Produce(lib, lead, entities, evidence, claims).UnboundTarget? <==>
            lib.domain(lead.domain) != "" && evidence != [] && !AnyReaches(entities, ById(evidence))
  {
    if !AnyReaches(entities, ById(evidence)) {
      NothingFromEntities(lib, lead, entities, ById(evidence), claims, {});
    }
  }

  // ---------- end to end ----------

  /** What every candidate built from evidence has. */
  ghost predicate WellBuilt(lib: Library, lead: Lead, c: Candidate) {
    && Resolver.Presentable(c)
    && !HasNegative(c)
    && (FirstParty(c) ==>
          c.officialCorporateUrlMatch && c.canonicalDomain == lib.domain(lead.domain) && c.canonicalDomain != "")
  }

  lemma {:induction false} EntitiesWellBuilt(lib: Library, lead: Lead, entities: seq<Extracted>,
                                             byId: map<string, string>,
                                             claims: seq<CurrentnessClaim>, seen: set<string>)
    ensures forall c :: c in FromEntities(lib, lead, entities, byId, claims, seen) ==> WellBuilt(lib, lead, c)
    decreases |entities|
  {
    if entities != [] {
      EntitiesWellBuilt(lib, lead, entities[1..], byId, claims, seen);
      if Reaches(entities[0], byId) {
        var c := Make(lib, lead, entities[0], byId, claims);
        EntitiesWellBuilt(lib, lead, entities[1..], byId, claims, seen + {c.candidateId});
      }
    }
  }

  lemma {:induction false} OnDomainMembers(lib: Library, ids: seq<string>, byId: map<string, string>, target: string,
                                           id: string)
    requires id in ids && id in byId && RegistrableDomain(lib.domain, lib.host(byId[id])) == target
    ensures OnDomain(lib, ids, byId, target) != []
  {
    if ids[0] != id {
      OnDomainMembers(lib, ids[1..], byId, target, id);
    }
  }

  /** The fetched page with this evidence id lies on the lead's registrable domain. */
  predicate OnLeadDomain(lib: Library, lead: Lead, evidence: seq<EvidenceInput>, id: string) {
    id in ById(evidence)
    && RegistrableDomain(lib.domain, lib.host(ById(evidence)[id])) == RegistrableDomain(lib.domain, lead.domain)
  }

  lemma ProducesFirstParty(lib: Library, lead: Lead, entities: seq<Extracted>, evidence: seq<EvidenceInput>,
                           claims: seq<CurrentnessClaim>, id: string)
    requires lib.domain(lead.domain) == lead.domain != ""
    requires OnLeadDomain(lib, lead, evidence, id) && AnyReaches(entities, ById(evidence))
    ensures var r := Produce(lib, lead, entities, evidence, claims);
            && r.Candidates?
            && (forall c :: c in r.candidates ==> WellBuilt(lib, lead, c))
            && exists c :: c in r.candidates && FirstParty(c)
  {
    var byId := ById(evidence);
    EntitiesWellBuilt(lib, lead, entities, byId, claims, {});
    KeysAreKeys(evidence);
    OnDomainMembers(lib, KeysInOrder(evidence), byId, RegistrableDomain(lib.domain, lead.domain), id);
    var fromEntities := FromEntities(lib, lead, entities, byId, claims, {});
    var fallback := Fallback(lib, lead,
                             OnDomain(lib, KeysInOrder(evidence), byId, RegistrableDomain(lib.domain, lead.domain)));
    if AnyFirstParty(fromEntities) {
      var i :| 0 <= i < |fromEntities| && FirstParty(fromEntities[i]);
      assert fromEntities[i] in fromEntities;
    } else {
      assert fallback in fromEntities + [fallback] && FirstParty(fallback);
    }
  }

  lemma {:induction false} BlockedKeeps(lib: Library, lead: Lead, candidates: seq<Candidate>, c: Candidate)
    requires c in candidates && IsBlockMatch(lib, lead, c)
    ensures c in Resolver.Blocked(lib, lead, candidates)
  {
    if candidates[0] != c {
      BlockedKeeps(lib, lead, candidates[1..], c);
    }
  }

  /** Within the budget the candidates resolve to a match or a conflict, by a decision in good order. */
  predicate Decides(lib: Library, lead: Lead, candidates: seq<Candidate>, budget: int) {
    budget > 0 && |Resolver.Blocked(lib, lead, candidates)| <= budget ==>
      var d := Resolver.Resolve(lib, lead, candidates, [], budget);
      d.Ok? && (d.value.status == Resolver.Matched || d.value.status == Resolver.Conflict)
        && Resolver.StateContract(d.value)
  }

  lemma FirstPartyDecides(lib: Library, lead: Lead, candidates: seq<Candidate>, budget: int)
    requires lib.domain(lead.domain) == lead.domain != ""
    requires budget > 0 && |Resolver.Blocked(lib, lead, candidates)| <= budget
    requires (forall c :: c in candidates ==> WellBuilt(lib, lead, c)) && exists c :: c in candidates && FirstParty(c)
    ensures Decides(lib, lead, candidates, budget)
  {
    var c :| c in candidates && FirstParty(c);
    assert WellBuilt(lib, lead, c) && IsBlockMatch(lib, lead, c);
    BlockedKeeps(lib, lead, candidates, c);
    Resolver.BlockedMembers(lib, lead, candidates);
    var selected := Resolver.Blocked(lib, lead, candidates);
    assert Resolver.Matchable(lib, lead, c);
    Resolver.MatchablesMembers(lib, lead, selected, c);
    Resolver.WinnerIsSelected(lib, lead, selected);
    assert WellBuilt(lib, lead, Resolver.Winner(lib, lead, selected).value);
    Resolver.Outcome(lib, lead, candidates, [], budget);
  }

  /** For a lead whose domain is already normalised: evidence on its registrable domain, one extracted
      entity past the filters and a sufficient budget always resolve to a match or a conflict, and the
      decision never breaks the state contract. */
  lemma FirstPartyEvidenceDecides(lib: Library, lead: Lead, entities: seq<Extracted>, evidence: seq<EvidenceInput>,
                                  claims: seq<CurrentnessClaim>, id: string, budget: int)
    requires lib.domain(lead.domain) == lead.domain != ""
    requires OnLeadDomain(lib, lead, evidence, id) && AnyReaches(entities, ById(evidence))
    ensures var r := Produce(lib, lead, entities, evidence, claims);
            r.Candidates? && Decides(lib, lead, r.candidates, budget)
  {
    ProducesFirstParty(lib, lead, entities, evidence, claims, id);
    var candidates := Produce(lib, lead, entities, evidence, claims).candidates;
    if budget > 0 && |Resolver.Blocked(lib, lead, candidates)| <= budget {
      FirstPartyDecides(lib, lead, candidates, budget);
    }
  }

  lemma SharedIdOutcome(lib: Library, lead: Lead, a: Candidate, b: Candidate)
    requires lib.domain(lead.domain) != "" && a.canonicalDomain == b.canonicalDomain == lead.domain
    requires a.candidateId == b.candidateId && Resolver.Presentable(a)
    requires !HasStrong(lib, lead, a) && HasStrong(lib, lead, b) && !HasNegative(b)
    ensures var d := Resolver.Resolve(lib, lead, [a] + [b], [], 25);
            d.Ok? && d.value.status == Resolver.Matched && d.value.currentness == a.currentness
  {
    var both := [a] + [b];
    assert both[1..] == [b] && [b][1..] == [];
    assert IsBlockMatch(lib, lead, a) && IsBlockMatch(lib, lead, b);
    assert Resolver.Blocked(lib, lead, [b]) == [b] + Resolver.Blocked(lib, lead, []);
    assert Resolver.Blocked(lib, lead, both) == [a] + Resolver.Blocked(lib, lead, [b]);
    assert Resolver.Matchables(lib, lead, [b]) == [b] + Resolver.Matchables(lib, lead, []);
    assert Resolver.Matchables(lib, lead, both) == Resolver.Matchables(lib, lead, [b]);
    assert Resolver.GenerateCandidates(lib, lead, both, 25) == both;
    Resolver.Outcome(lib, lead, both, [], 25);
  }

  /** The appended candidate does not consult the ids already used. Here an entity of the lead's name and
      domain, but related to the lead rather than being it, shares its id; the match then reports the
      related entity's fields, because the winner is looked up by id. */
  lemma FallbackCanRepeatAnId(lib: Library, lead: Lead, e: Extracted, page: EvidenceInput)
    requires lib.domain(lead.domain) == lead.domain != "" && lib.domain(e.domain) == lead.domain
    requires lead.displayName != "" && e.name == lead.displayName && e.entityType == Some(Brand)
    requires e.relationshipToTarget != "" && e.evidenceIds == [page.evidenceId]
    requires RegistrableDomain(lib.domain, lib.host(page.url)) == RegistrableDomain(lib.domain, lead.domain)
    ensures var r := Produce(lib, lead, [e], [page], []);
            && r.Candidates? && |r.candidates| == 2 && r.candidates[0].candidateId == r.candidates[1].candidateId
            && !FirstParty(r.candidates[0]) && FirstParty(r.candidates[1])
            && r.candidates[0].currentness != r.candidates[1].currentness
            && var d := Resolver.Resolve(lib, lead, r.candidates, [], 25);
               d.Ok? && d.value.status == Resolver.Matched && d.value.currentness == r.candidates[0].currentness
  {
    var evidence, byId := [page], map[page.evidenceId := page.url];
    assert evidence[..0] == [] && ById(evidence) == byId && KeysInOrder(evidence) == [page.evidenceId];
    assert [page.evidenceId][1..] == [] && [e][1..] == [];
    assert Known(e.evidenceIds, byId) == [page.evidenceId];
    assert Reaches([e][0], byId);
    var a := Make(lib, lead, e, byId, []);
    assert FromEntities(lib, lead, [e], byId, [], {}) == [a] + FromEntities(lib, lead, [], byId, [], {a.candidateId})
           == [a];
    assert OnDomain(lib, [page.evidenceId], byId, RegistrableDomain(lib.domain, lead.domain)) == [page.evidenceId];
    var b := Fallback(lib, lead, [page.evidenceId]);
    assert Produce(lib, lead, [e], evidence, []) == Candidates([a] + [b]);
    SharedIdOutcome(lib, lead, a, b);
  }

  // ---------- which pages to fetch ----------

  datatype SearchHit = SearchHit(url: string, sourceDomain: string)

  predicate Wanted(lib: Library, leadDomain: string, hit: SearchHit) {
    var target := RegistrableDomain(lib.domain, leadDomain);
    target == "" || RegistrableDomain(lib.domain, hit.sourceDomain) == target
  }

  /** The hit is on the lead's registrable domain, or the lead has none. */
  ghost predicate OfLead(lib: Library, leadDomain: string, hit: SearchHit) {
    RegistrableDomain(lib.domain, leadDomain) != "" ==>
      RegistrableDomain(lib.domain, hit.sourceDomain) == RegistrableDomain(lib.domain, leadDomain)
  }

  /** The page is among the first `n` hits. */
  ghost predicate HitAmong(lib: Library, leadDomain: string, hits: seq<SearchHit>, n: nat, u: string) {
    exists k :: 0 <= k < n && k < |hits| && hits[k].url == u && OfLead(lib, leadDomain, hits[k])
  }

  /** Every hit on the page `later` comes after one on the page `u`. */
  ghost predicate HitBefore(lib: Library, leadDomain: string, hits: seq<SearchHit>, u: string, later: string) {
    forall k :: 0 <= k < |hits| && OfLead(lib, leadDomain, hits[k]) && hits[k].url == later ==>
      HitAmong(lib, leadDomain, hits, k, u)
  }

  /** The distinct pages of the first `n` hits, in the order of their first hits. */
  ghost predicate PagesOf(lib: Library, leadDomain: string, hits: seq<SearchHit>, n: nat, selected: seq<string>) {
    && (forall i, j :: 0 <= i < j < |selected| ==> selected[i] != selected[j])
    && (forall i, j :: 0 <= i < j < |selected| ==> HitBefore(lib, leadDomain, hits, selected[i], selected[j]))
    && (forall u :: u in selected ==> HitAmong(lib, leadDomain, hits, n, u))
    && (forall k :: 0 <= k < n && k < |hits| && OfLead(lib, leadDomain, hits[k]) ==> hits[k].url in selected)
  }

  lemma HitSoon(lib: Library, leadDomain: string, hits: seq<SearchHit>, n: nat, u: string, later: string,
                selected: seq<string>)
    requires n <= |hits| && PagesOf(lib, leadDomain, hits, n, selected) && u in selected && later !in selected
    ensures HitBefore(lib, leadDomain, hits, u, later)
  {
    var j :| 0 <= j < n && j < |hits| && hits[j].url == u && OfLead(lib, leadDomain, hits[j]);
    forall k | 0 <= k < |hits| && OfLead(lib, leadDomain, hits[k]) && hits[k].url == later
      ensures HitAmong(lib, leadDomain, hits, k, u)
    {
      assert k >= n;
    }
  }

  lemma PageAdded(lib: Library, leadDomain: string, hits: seq<SearchHit>, i: nat, selected: seq<string>)
    requires i < |hits| && PagesOf(lib, leadDomain, hits, i, selected)
    ensures !OfLead(lib, leadDomain, hits[i]) || hits[i].url in selected ==>
              PagesOf(lib, leadDomain, hits, i + 1, selected)
    ensures OfLead(lib, leadDomain, hits[i]) && hits[i].url !in selected ==>
              PagesOf(lib, leadDomain, hits, i + 1, selected + [hits[i].url])
  {
    forall u | u in selected ensures HitAmong(lib, leadDomain, hits, i + 1, u) {
      var j :| 0 <= j < i && j < |hits| && hits[j].url == u && OfLead(lib, leadDomain, hits[j]);
    }
    if OfLead(lib, leadDomain, hits[i]) && hits[i].url !in selected {
      forall a | 0 <= a < |selected| ensures HitBefore(lib, leadDomain, hits, selected[a], hits[i].url) {
        HitSoon(lib, leadDomain, hits, i, selected[a], hits[i].url, selected);
      }
      assert HitAmong(lib, leadDomain, hits, i + 1, hits[i].url);
    }
  }

  lemma WantedIff(lib: Library, leadDomain: string, hit: SearchHit)
    ensures Wanted(lib, leadDomain, hit) <==> OfLead(lib, leadDomain, hit)
  {
  }

  /** Distinct pages of the lead's own domain in the order of their first hits: those of as many hits as it takes to
      find as many as allowed, or of all of them. */
  method SelectFetchUrls(lib: Library, leadDomain: string, hits: seq<SearchHit>, maxUrls: nat)
    returns (selected: seq<string>, ghost read: nat)
    requires maxUrls >= 1
    ensures |selected| <= maxUrls && read <= |hits| && (|selected| < maxUrls ==> read == |hits|)
    ensures PagesOf(lib, leadDomain, hits, read, selected)
  {
    selected := [];
    var i := 0;
    while i < |hits|
      invariant 0 <= i <= |hits| && |selected| < maxUrls
      invariant PagesOf(lib, leadDomain, hits, i, selected)
    {
      PageAdded(lib, leadDomain, hits, i, selected);
      WantedIff(lib, leadDomain, hits[i]);
      if Wanted(lib, leadDomain, hits[i]) {
        if hits[i].url !in selected {
          selected := selected + [hits[i].url];
        }
        if |selected| >= maxUrls {
          return selected, i + 1;
        }
      }
      i := i + 1;
    }
    read := i;
  }
}
