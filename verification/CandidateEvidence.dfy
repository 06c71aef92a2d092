/** What the flags of a produced candidate rest on.

    A candidate is said to be verified only with a page of the lead's own site among its evidence. Which entities become
    candidates, and with what flags, is given here in terms of the pages fetched and the claims extracted. */
module CandidateEvidence {
  import opened Wrappers
  import opened Normalization
  import opened Matching
  import opened CandidateProvider
  import Resolver

  // ---------- pages ----------

  /** The evidence has this page under the id: the last item to have the id. */
  ghost predicate PageOf(evidence: seq<EvidenceInput>, id: string, url: string) {
    exists k :: 0 <= k < |evidence| && evidence[k] == EvidenceInput(id, url)
                && forall j :: k < j < |evidence| ==> evidence[j].evidenceId != id
  }

  lemma {:induction false} LookedUp(evidence: seq<EvidenceInput>, id: string, url: string)
    ensures PageOf(evidence, id, url) <==> id in ById(evidence) && ById(evidence)[id] == url
    ensures id in ById(evidence) <==> exists k :: 0 <= k < |evidence| && evidence[k].evidenceId == id
  {
    if evidence != [] {
      var n := |evidence| - 1;
      LookedUp(evidence[..n], id, url);
      assert forall k :: 0 <= k < n ==> evidence[..n][k] == evidence[k];
      if evidence[n].evidenceId == id {
        assert evidence[n] == EvidenceInput(id, evidence[n].url);
      } else if PageOf(evidence[..n], id, url) {
        var k :| 0 <= k < n && evidence[..n][k] == EvidenceInput(id, url)
                 && forall j :: k < j < n ==> evidence[..n][j].evidenceId != id;
        assert evidence[k] == EvidenceInput(id, url);
        assert forall j :: k < j <= n ==> evidence[j].evidenceId != id;
      }
    }
  }

  /** The page's host has the registrable domain of the lead. */
  ghost predicate OnSite(lib: Library, lead: Lead, url: string) {
    RegistrableDomain(lib.domain, lib.host(url)) == RegistrableDomain(lib.domain, lead.domain)
  }

  /** The same of its normalised host, if there is one. */
  ghost predicate HostOnSite(lib: Library, lead: Lead, url: string) {
    lib.domain(lib.host(url)) != ""
    && RegistrableDomain(lib.domain, lib.domain(lib.host(url))) == RegistrableDomain(lib.domain, lead.domain) != ""
  }

  /** One of the entity's pages is on the lead's site. */
  ghost predicate FoundOnSite(lib: Library, lead: Lead, evidence: seq<EvidenceInput>, e: Extracted) {
    exists id, url :: id in e.evidenceIds && PageOf(evidence, id, url) && HostOnSite(lib, lead, url)
  }

  lemma FoundIff(lib: Library, lead: Lead, evidence: seq<EvidenceInput>, e: Extracted)
    ensures SameFirstPartyDomain(lib, lead, e, ById(evidence)) <==> FoundOnSite(lib, lead, evidence, e)
  {
    var byId := ById(evidence);
    if SameFirstPartyDomain(lib, lead, e, byId) {
      var id :| id in e.evidenceIds && id in byId && lib.domain(lib.host(byId[id])) != ""
                && RegistrableDomain(lib.domain, lib.domain(lib.host(byId[id])))
                   == RegistrableDomain(lib.domain, lead.domain);
      LookedUp(evidence, id, byId[id]);
      assert HostOnSite(lib, lead, byId[id]);
    }
    if FoundOnSite(lib, lead, evidence, e) {
      var id, url :| id in e.evidenceIds && PageOf(evidence, id, url) && HostOnSite(lib, lead, url);
      LookedUp(evidence, id, url);
    }
  }

  // ---------- one entity ----------

  /** It has the lead's name, displayed or legal. */
  ghost predicate HasLeadsName(lib: Library, lead: Lead, e: Extracted) {
    var name := NormalizeName(lib.lower, e.name);
    name != "" && (name == NormalizeName(lib.lower, lead.displayName)
                   || name == NormalizeName(lib.lower, lead.legalName))
  }

  /** It has a known type and a page to show. */
  ghost predicate Substantial(evidence: seq<EvidenceInput>, e: Extracted) {
    e.entityType.Some? && e.entityType.value != Unknown
    && exists id, k :: id in e.evidenceIds && 0 <= k < |evidence| && evidence[k].evidenceId == id
  }

  /** It claims the lead's domain, has its name, or was found on its site and is not said to be related to it. */
  ghost predicate Concerns(lib: Library, lead: Lead, evidence: seq<EvidenceInput>, e: Extracted) {
    || HasLeadsName(lib, lead, e)
    || lib.domain(e.domain) == lib.domain(lead.domain) != ""
    || (FoundOnSite(lib, lead, evidence, e) && e.relationshipToTarget == "")
  }

  /** It is the lead itself: not something related, found on the lead's site, and with its domain or none. */
  ghost predicate ShownToBeLead(lib: Library, lead: Lead, evidence: seq<EvidenceInput>, e: Extracted) {
    && e.relationshipToTarget == "" && FoundOnSite(lib, lead, evidence, e) && lib.domain(lead.domain) != ""
    && (if lib.domain(e.domain) != "" then lib.domain(e.domain) else lead.domain) == lib.domain(lead.domain)
  }

  /** The claim is about this name, in a word of the vocabulary. */
  ghost predicate About(lib: Library, claims: seq<CurrentnessClaim>, name: string, k: int) {
    0 <= k < |claims| && claims[k].currentness.Some?
    && NormalizeName(lib.lower, claims[k].entityName) == NormalizeName(lib.lower, name)
  }

  /** What the claims say first about the name, if anything. */
  ghost predicate ClaimedToBe(lib: Library, claims: seq<CurrentnessClaim>, name: string, currentness: Currentness) {
    || (exists k :: About(lib, claims, name, k) && currentness == claims[k].currentness.value
                    && forall j :: j < k ==> !About(lib, claims, name, j))
    || (currentness == UnknownCurrentness && forall k :: !About(lib, claims, name, k))
  }

  /** Nothing is said of the candidate but what the flags and the evidence say. */
  ghost predicate OtherwiseBare(c: Candidate) {
    && c.entityId == "" && c.aliases == [] && c.geography == [] && !HasNegative(c)
    && !c.registeredIdentityMatch && !c.corporateSocialMatch && !c.parentRelationshipConsistent
  }

  /** The candidate that such an entity makes. */
  ghost predicate Describes(lib: Library, lead: Lead, evidence: seq<EvidenceInput>, claims: seq<CurrentnessClaim>,
                            e: Extracted, c: Candidate)
  {
    && e.entityType == Some(c.entityType) && c.canonicalName == e.name && OtherwiseBare(c)
    && (c.domainVerified <==> ShownToBeLead(lib, lead, evidence, e))
    && (c.officialCorporateUrlMatch <==> ShownToBeLead(lib, lead, evidence, e))
    && (c.explicitOfficialIdentityTie <==> ShownToBeLead(lib, lead, evidence, e) && HasLeadsName(lib, lead, e))
    && (forall id :: id in c.evidenceRefs <==>
                       id in e.evidenceIds && exists k :: 0 <= k < |evidence| && evidence[k].evidenceId == id)
    && c.canonicalDomain == (if lib.domain(e.domain) != "" then lib.domain(e.domain)
                             else if FoundOnSite(lib, lead, evidence, e) && e.relationshipToTarget == ""
                             then lead.domain else "")
    && ClaimedToBe(lib, claims, e.name, c.currentness)
  }

  lemma {:induction false} ClaimsSay(lib: Library, claims: seq<CurrentnessClaim>, name: string)
    ensures ClaimedToBe(lib, claims, name, CurrentnessForName(lib, name, claims))
  {
    if claims != [] {
      ClaimsSay(lib, claims[1..], name);
      assert forall k :: About(lib, claims[1..], name, k) <==> k >= 0 && About(lib, claims, name, k + 1);
      if About(lib, claims, name, 0) {
        assert forall j :: j < 0 ==> !About(lib, claims, name, j);
      } else if k :| About(lib, claims[1..], name, k) && forall j :: j < k ==> !About(lib, claims[1..], name, j) {
        assert About(lib, claims, name, k + 1);
        forall j | j < k + 1 ensures !About(lib, claims, name, j) {
          assert j > 0 ==> !About(lib, claims[1..], name, j - 1);
        }
      } else {
        forall k ensures !About(lib, claims, name, k) {
          assert !About(lib, claims[1..], name, k - 1);
        }
      }
    }
  }

  lemma {:induction false} KnownAre(ids: seq<string>, evidence: seq<EvidenceInput>, id: string)
    ensures id in Known(ids, ById(evidence))
            <==> id in ids && exists k :: 0 <= k < |evidence| && evidence[k].evidenceId == id
  {
    if ids != [] {
      KnownAre(ids[1..], evidence, id);
      LookedUp(evidence, ids[0], "");
    }
  }

  lemma SubstantialIff(evidence: seq<EvidenceInput>, e: Extracted)
    ensures Reaches(e, ById(evidence)) <==> Substantial(evidence, e)
  {
    var known := Known(e.evidenceIds, ById(evidence));
    if known != [] {
      KnownAre(e.evidenceIds, evidence, known[0]);
    }
    if Substantial(evidence, e) {
      var id, k :| id in e.evidenceIds && 0 <= k < |evidence| && evidence[k].evidenceId == id;
      KnownAre(e.evidenceIds, evidence, id);
    }
  }

  lemma ConcernsIff(lib: Library, lead: Lead, evidence: seq<EvidenceInput>, e: Extracted)
    ensures Kept(lib, lead, e, ById(evidence)) <==> Concerns(lib, lead, evidence, e)
  {
    FoundIff(lib, lead, evidence, e);
  }

  lemma MadeAsDescribed(lib: Library, lead: Lead, evidence: seq<EvidenceInput>, claims: seq<CurrentnessClaim>,
                        e: Extracted)
    requires Reaches(e, ById(evidence))
    ensures Describes(lib, lead, evidence, claims, e, Make(lib, lead, e, ById(evidence), claims))
  {
    FoundIff(lib, lead, evidence, e);
    ClaimsSay(lib, claims, e.name);
    forall id ensures id in Known(e.evidenceIds, ById(evidence)) <==>
                        id in e.evidenceIds && exists k :: 0 <= k < |evidence| && evidence[k].evidenceId == id
    {
      KnownAre(e.evidenceIds, evidence, id);
    }
  }

  // ---------- all of them ----------

  /** The entity becomes a candidate unless an earlier one has taken its id. */
  ghost predicate Considered(lib: Library, lead: Lead, evidence: seq<EvidenceInput>, e: Extracted) {
    Substantial(evidence, e) && Concerns(lib, lead, evidence, e)
  }

  ghost function IdOf(lib: Library, lead: Lead, evidence: seq<EvidenceInput>, e: Extracted): string
    requires Substantial(evidence, e)
  {
    var domain := if lib.domain(e.domain) != "" then lib.domain(e.domain)
                  else if FoundOnSite(lib, lead, evidence, e) && e.relationshipToTarget == "" then lead.domain else "";
    CandidateId(lib, e.name, domain, e.entityType.value)
  }

  /** The first entity considered with its id. */
  ghost predicate FirstOfId(lib: Library, lead: Lead, evidence: seq<EvidenceInput>, entities: seq<Extracted>, k: nat) {
    k < |entities| && Considered(lib, lead, evidence, entities[k])
    && forall j :: 0 <= j < k && Considered(lib, lead, evidence, entities[j]) ==>
         IdOf(lib, lead, evidence, entities[j]) != IdOf(lib, lead, evidence, entities[k])
  }

  lemma EntityConsidered(lib: Library, lead: Lead, evidence: seq<EvidenceInput>, claims: seq<CurrentnessClaim>,
                         e: Extracted)
    ensures Considered(lib, lead, evidence, e) <==> Reaches(e, ById(evidence)) && Kept(lib, lead, e, ById(evidence))
    ensures Considered(lib, lead, evidence, e) ==>
              Make(lib, lead, e, ById(evidence), claims).candidateId == IdOf(lib, lead, evidence, e)
  {
    SubstantialIff(evidence, e);
    ConcernsIff(lib, lead, evidence, e);
    FoundIff(lib, lead, evidence, e);
  }

  /** The entity at `k` is considered, its id not used before, and the candidate is the one it makes. */
  ghost predicate MadeAt(lib: Library, lead: Lead, entities: seq<Extracted>, byId: map<string, string>,
                         claims: seq<CurrentnessClaim>, seen: set<string>, k: nat, c: Candidate)
  {
    && k < |entities| && Reaches(entities[k], byId) && Kept(lib, lead, entities[k], byId)
    && c == Make(lib, lead, entities[k], byId, claims) && c.candidateId !in seen
    && forall j :: 0 <= j < k && Reaches(entities[j], byId) && Kept(lib, lead, entities[j], byId) ==>
         Make(lib, lead, entities[j], byId, claims).candidateId != c.candidateId
  }

  lemma MadeLater(lib: Library, lead: Lead, entities: seq<Extracted>, byId: map<string, string>,
                  claims: seq<CurrentnessClaim>, seen: set<string>, k: nat, c: Candidate)
    requires k > 0 && entities != []
    ensures var e := entities[0];
            var used := if Reaches(e, byId) && Kept(lib, lead, e, byId)
                        then {Make(lib, lead, e, byId, claims).candidateId} else {};
            MadeAt(lib, lead, entities, byId, claims, seen, k, c)
            <==> MadeAt(lib, lead, entities[1..], byId, claims, seen + used, k - 1, c)
  {
    var rest := entities[1..];
    assert forall j :: 0 <= j < |rest| ==> rest[j] == entities[j + 1];
    if MadeAt(lib, lead, entities, byId, claims, seen, k, c) {
      forall j | 0 <= j < k - 1 && Reaches(rest[j], byId) && Kept(lib, lead, rest[j], byId)
        ensures Make(lib, lead, rest[j], byId, claims).candidateId != c.candidateId
      {
        assert rest[j] == entities[j + 1];
      }
    }
    var e := entities[0];
    var used := if Reaches(e, byId) && Kept(lib, lead, e, byId)
                then {Make(lib, lead, e, byId, claims).candidateId} else {};
    if MadeAt(lib, lead, rest, byId, claims, seen + used, k - 1, c) {
      forall j | 0 <= j < k && Reaches(entities[j], byId) && Kept(lib, lead, entities[j], byId)
        ensures Make(lib, lead, entities[j], byId, claims).candidateId != c.candidateId
      {
        assert j > 0 ==> rest[j - 1] == entities[j];
      }
    }
  }

  lemma FirstIsMade(lib: Library, lead: Lead, entities: seq<Extracted>, byId: map<string, string>,
                    claims: seq<CurrentnessClaim>, seen: set<string>, used: set<string>, c: Candidate)
    requires entities != []
    requires used == if Reaches(entities[0], byId) && Kept(lib, lead, entities[0], byId)
                     then {Make(lib, lead, entities[0], byId, claims).candidateId} else {}
    ensures c in FromEntities(lib, lead, entities, byId, claims, seen)
            <==> MadeAt(lib, lead, entities, byId, claims, seen, 0, c)
                 || c in FromEntities(lib, lead, entities[1..], byId, claims, seen + used)
  {
    if used == {} || used <= seen {
      assert seen + used == seen;
    }
  }

  lemma {:induction false} FromEntitiesAreMade(lib: Library, lead: Lead, entities: seq<Extracted>,
                                               byId: map<string, string>, claims: seq<CurrentnessClaim>,
                                               seen: set<string>, c: Candidate)
    ensures c in FromEntities(lib, lead, entities, byId, claims, seen)
            <==> exists k :: MadeAt(lib, lead, entities, byId, claims, seen, k, c)
    decreases |entities|
  {
    if entities != [] {
      var e, rest := entities[0], entities[1..];
      var used := if Reaches(e, byId) && Kept(lib, lead, e, byId)
                  then {Make(lib, lead, e, byId, claims).candidateId} else {};
      FirstIsMade(lib, lead, entities, byId, claims, seen, used, c);
      FromEntitiesAreMade(lib, lead, rest, byId, claims, seen + used, c);
      if k: nat :| MadeAt(lib, lead, entities, byId, claims, seen, k, c) {
        if k > 0 {
          MadeLater(lib, lead, entities, byId, claims, seen, k, c);
        }
      }
      if k: nat :| MadeAt(lib, lead, rest, byId, claims, seen + used, k, c) {
        MadeLater(lib, lead, entities, byId, claims, seen, k + 1, c);
        assert MadeAt(lib, lead, entities, byId, claims, seen, k + 1, c);
      }
    }
  }

  /** The candidate appended for the lead itself: all of its pages that are on the site, and every flag set. */
  ghost predicate IsAppended(lib: Library, lead: Lead, evidence: seq<EvidenceInput>, c: Candidate) {
    && c.entityType == Brand && c.canonicalDomain == lead.domain && c.currentness == Current
    && c.canonicalName == (if lead.displayName != "" then lead.displayName
                           else if lead.legalName != "" then lead.legalName else lead.domain)
    && c.domainVerified && c.officialCorporateUrlMatch && c.explicitOfficialIdentityTie && OtherwiseBare(c)
    && forall id :: id in c.evidenceRefs <==> exists url :: PageOf(evidence, id, url) && OnSite(lib, lead, url)
  }

  lemma {:induction false} OnDomainAre(lib: Library, ids: seq<string>, byId: map<string, string>, target: string,
                                       id: string)
    ensures id in OnDomain(lib, ids, byId, target)
            <==> id in ids && id in byId && RegistrableDomain(lib.domain, lib.host(byId[id])) == target
  {
    if ids != [] {
      OnDomainAre(lib, ids[1..], byId, target, id);
    }
  }

  ghost function SiteRefs(lib: Library, lead: Lead, evidence: seq<EvidenceInput>): seq<string> {
    OnDomain(lib, KeysInOrder(evidence), ById(evidence), RegistrableDomain(lib.domain, lead.domain))
  }

  lemma SiteRefsAre(lib: Library, lead: Lead, evidence: seq<EvidenceInput>, id: string)
    ensures id in SiteRefs(lib, lead, evidence)
            <==> exists url :: PageOf(evidence, id, url) && OnSite(lib, lead, url)
  {
    var byId := ById(evidence);
    OnDomainAre(lib, KeysInOrder(evidence), byId, RegistrableDomain(lib.domain, lead.domain), id);
    KeysAreKeys(evidence);
    if id in byId {
      LookedUp(evidence, id, byId[id]);
    }
    if url :| PageOf(evidence, id, url) && OnSite(lib, lead, url) {
      LookedUp(evidence, id, url);
    }
  }

  lemma FallbackIsAppended(lib: Library, lead: Lead, evidence: seq<EvidenceInput>)
    ensures IsAppended(lib, lead, evidence, Fallback(lib, lead, SiteRefs(lib, lead, evidence)))
  {
    forall id ensures id in SiteRefs(lib, lead, evidence)
                      <==> exists url :: PageOf(evidence, id, url) && OnSite(lib, lead, url)
    {
      SiteRefsAre(lib, lead, evidence, id);
    }
  }

  lemma FirstOfIdIsMade(lib: Library, lead: Lead, entities: seq<Extracted>, evidence: seq<EvidenceInput>,
                        claims: seq<CurrentnessClaim>, k: nat)
    ensures FirstOfId(lib, lead, evidence, entities, k)
            <==> k < |entities| && Reaches(entities[k], ById(evidence))
                 && MadeAt(lib, lead, entities, ById(evidence), claims, {}, k,
                           Make(lib, lead, entities[k], ById(evidence), claims))
  {
    if k < |entities| {
      forall j: nat | j <= k
        ensures Considered(lib, lead, evidence, entities[j])
                <==> Reaches(entities[j], ById(evidence)) && Kept(lib, lead, entities[j], ById(evidence))
        ensures Considered(lib, lead, evidence, entities[j]) ==>
                  Make(lib, lead, entities[j], ById(evidence), claims).candidateId
                  == IdOf(lib, lead, evidence, entities[j])
      {
        EntityConsidered(lib, lead, evidence, claims, entities[j]);
      }
    }
  }

  /** Every candidate is that of an entity, or the one appended; ... */
  lemma CandidatesComeFrom(lib: Library, lead: Lead, entities: seq<Extracted>, evidence: seq<EvidenceInput>,
                           claims: seq<CurrentnessClaim>, candidates: seq<Candidate>, c: Candidate)
    requires Produce(lib, lead, entities, evidence, claims) == Candidates(candidates) && c in candidates
    ensures (exists k: nat :: k < |entities| && FirstOfId(lib, lead, evidence, entities, k)
                              && Describes(lib, lead, evidence, claims, entities[k], c))
            || IsAppended(lib, lead, evidence, c)
  {
    var byId := ById(evidence);
    FromEntitiesAreMade(lib, lead, entities, byId, claims, {}, c);
    if k: nat :| MadeAt(lib, lead, entities, byId, claims, {}, k, c) {
      FirstOfIdIsMade(lib, lead, entities, evidence, claims, k);
      MadeAsDescribed(lib, lead, evidence, claims, entities[k]);
      assert FirstOfId(lib, lead, evidence, entities, k);
    } else {
      FallbackIsAppended(lib, lead, evidence);
    }
  }

  /** ... and every first entity of an id has its candidate. */
  lemma EveryFirstIsMade(lib: Library, lead: Lead, entities: seq<Extracted>, evidence: seq<EvidenceInput>,
                         claims: seq<CurrentnessClaim>, candidates: seq<Candidate>, k: nat)
    requires Produce(lib, lead, entities, evidence, claims) == Candidates(candidates)
    requires FirstOfId(lib, lead, evidence, entities, k)
    ensures exists c :: c in candidates && c.candidateId == IdOf(lib, lead, evidence, entities[k])
                        && Describes(lib, lead, evidence, claims, entities[k], c)
  {
    var byId := ById(evidence);
    FirstOfIdIsMade(lib, lead, entities, evidence, claims, k);
    var c := Make(lib, lead, entities[k], byId, claims);
    EntityConsidered(lib, lead, evidence, claims, entities[k]);
    MadeAsDescribed(lib, lead, evidence, claims, entities[k]);
    FromEntitiesAreMade(lib, lead, entities, byId, claims, {}, c);
    assert c in candidates;
  }

  // ---------- nothing is verified without the site ----------

  ghost predicate ShowsSite(lib: Library, lead: Lead, evidence: seq<EvidenceInput>, id: string) {
    exists url :: PageOf(evidence, id, url) && (OnSite(lib, lead, url) || HostOnSite(lib, lead, url))
  }

  lemma AppendedIffNeeded(lib: Library, lead: Lead, entities: seq<Extracted>, evidence: seq<EvidenceInput>,
                          claims: seq<CurrentnessClaim>, candidates: seq<Candidate>)
    requires Produce(lib, lead, entities, evidence, claims) == Candidates(candidates)
    ensures var made := FromEntities(lib, lead, entities, ById(evidence), claims, {});
            if AnyFirstParty(made) || lib.domain(lead.domain) == "" || SiteRefs(lib, lead, evidence) == []
            then candidates == made
            else candidates == made + [Fallback(lib, lead, SiteRefs(lib, lead, evidence))]
  {
  }

  lemma AppendedShowsSite(lib: Library, lead: Lead, entities: seq<Extracted>, evidence: seq<EvidenceInput>,
                          claims: seq<CurrentnessClaim>, candidates: seq<Candidate>, c: Candidate)
    requires Produce(lib, lead, entities, evidence, claims) == Candidates(candidates) && c in candidates
    requires c !in FromEntities(lib, lead, entities, ById(evidence), claims, {})
    ensures exists id :: id in c.evidenceRefs && ShowsSite(lib, lead, evidence, id)
  {
    AppendedIffNeeded(lib, lead, entities, evidence, claims, candidates);
    var refs := SiteRefs(lib, lead, evidence);
    assert c == Fallback(lib, lead, refs) && refs[0] in c.evidenceRefs;
    SiteRefsAre(lib, lead, evidence, refs[0]);
    assert ShowsSite(lib, lead, evidence, refs[0]);
  }

  ghost predicate AppearsBefore(evidence: seq<EvidenceInput>, id: string, later: string) {
    forall k :: 0 <= k < |evidence| && evidence[k].evidenceId == later ==>
      exists j :: 0 <= j < k && evidence[j].evidenceId == id
  }

  /** Each id once, in the order in which the ids first appear. */
  ghost predicate InOrderOfAppearance(evidence: seq<EvidenceInput>, ids: seq<string>) {
    forall i, j :: 0 <= i < j < |ids| ==> ids[i] != ids[j] && AppearsBefore(evidence, ids[i], ids[j])
  }

  lemma KeyAppears(evidence: seq<EvidenceInput>, id: string)
    ensures id in KeysInOrder(evidence) <==> exists k :: 0 <= k < |evidence| && evidence[k].evidenceId == id
  {
    KeysAreKeys(evidence);
    LookedUp(evidence, id, "");
  }

  lemma AppearsStill(evidence: seq<EvidenceInput>, n: nat, id: string, later: string)
    requires n < |evidence| && AppearsBefore(evidence[..n], id, later)
    requires exists k :: 0 <= k < n && evidence[..n][k].evidenceId == id
    ensures n + 1 == |evidence| ==> AppearsBefore(evidence, id, later)
  {
    assert forall k :: 0 <= k < n ==> evidence[..n][k] == evidence[k];
    var first :| 0 <= first < n && evidence[..n][first].evidenceId == id;
    forall k | 0 <= k < |evidence| && evidence[k].evidenceId == later && n + 1 == |evidence|
      ensures exists j :: 0 <= j < k && evidence[j].evidenceId == id
    {
      if k < n {
        assert evidence[..n][k].evidenceId == later;
        var j :| 0 <= j < k && evidence[..n][j].evidenceId == id;
        assert evidence[j].evidenceId == id;
      } else {
        assert evidence[first].evidenceId == id;
      }
    }
  }

  lemma NewKey(evidence: seq<EvidenceInput>, n: nat, id: string)
    requires n + 1 == |evidence| && evidence[n].evidenceId !in KeysInOrder(evidence[..n])
    requires id in KeysInOrder(evidence[..n])
    ensures id != evidence[n].evidenceId && AppearsBefore(evidence, id, evidence[n].evidenceId)
  {
    KeyAppears(evidence[..n], id);
    KeyAppears(evidence[..n], evidence[n].evidenceId);
    assert forall k :: 0 <= k < n ==> evidence[..n][k] == evidence[k];
    var first :| 0 <= first < n && evidence[..n][first].evidenceId == id;
    assert evidence[first].evidenceId == id;
    forall k | 0 <= k < |evidence| && evidence[k].evidenceId == evidence[n].evidenceId
      ensures exists j :: 0 <= j < k && evidence[j].evidenceId == id
    {
      assert k >= n;
    }
  }

  lemma {:induction false} KeysInOrderOfAppearance(evidence: seq<EvidenceInput>)
    ensures InOrderOfAppearance(evidence, KeysInOrder(evidence))
  {
    if evidence != [] {
      var n := |evidence| - 1;
      var earlier, ids := KeysInOrder(evidence[..n]), KeysInOrder(evidence);
      KeysInOrderOfAppearance(evidence[..n]);
      forall i, j | 0 <= i < j < |ids| ensures ids[i] != ids[j] && AppearsBefore(evidence, ids[i], ids[j]) {
        KeyAppears(evidence[..n], ids[i]);
        if j < |earlier| {
          AppearsStill(evidence, n, ids[i], ids[j]);
        } else {
          NewKey(evidence, n, ids[i]);
        }
      }
    }
  }

  lemma {:induction false} OnDomainKeepsOrder(lib: Library, evidence: seq<EvidenceInput>, ids: seq<string>,
                                              byId: map<string, string>, target: string)
    requires InOrderOfAppearance(evidence, ids)
    ensures InOrderOfAppearance(evidence, OnDomain(lib, ids, byId, target))
  {
    if ids != [] {
      var rest := OnDomain(lib, ids[1..], byId, target);
      assert forall i :: 0 <= i < |ids[1..]| ==> ids[1..][i] == ids[i + 1];
      OnDomainKeepsOrder(lib, evidence, ids[1..], byId, target);
      forall x | x in rest ensures ids[0] != x && AppearsBefore(evidence, ids[0], x) {
        OnDomainAre(lib, ids[1..], byId, target, x);
        var k :| 0 <= k < |ids[1..]| && ids[1..][k] == x;
        assert ids[k + 1] == x;
      }
      var all := [ids[0]] + rest;
      forall i, j | 0 <= i < j < |all| ensures all[i] != all[j] && AppearsBefore(evidence, all[i], all[j]) {
        assert all[j] == rest[j - 1] && rest[j - 1] in rest && (i > 0 ==> all[i] == rest[i - 1]);
      }
    }
  }

  /** Some entity is shown to be the lead, and the first considered with its id. */
  ghost predicate SomeoneIsLead(lib: Library, lead: Lead, entities: seq<Extracted>, evidence: seq<EvidenceInput>) {
    exists k: nat :: k < |entities| && FirstOfId(lib, lead, evidence, entities, k)
                     && ShownToBeLead(lib, lead, evidence, entities[k])
  }

  lemma FirstPartyIsLead(lib: Library, lead: Lead, entities: seq<Extracted>, evidence: seq<EvidenceInput>,
                         claims: seq<CurrentnessClaim>, c: Candidate)
    requires c in FromEntities(lib, lead, entities, ById(evidence), claims, {})
    requires c.domainVerified || c.officialCorporateUrlMatch
    ensures SomeoneIsLead(lib, lead, entities, evidence)
  {
    FromEntitiesAreMade(lib, lead, entities, ById(evidence), claims, {}, c);
    var k: nat :| MadeAt(lib, lead, entities, ById(evidence), claims, {}, k, c);
    FirstOfIdIsMade(lib, lead, entities, evidence, claims, k);
    MadeAsDescribed(lib, lead, evidence, claims, entities[k]);
    assert FirstOfId(lib, lead, evidence, entities, k);
  }

  lemma LeadIsFirstParty(lib: Library, lead: Lead, entities: seq<Extracted>, evidence: seq<EvidenceInput>,
                         claims: seq<CurrentnessClaim>, k: nat) returns (c: Candidate)
    requires k < |entities| && FirstOfId(lib, lead, evidence, entities, k)
    requires ShownToBeLead(lib, lead, evidence, entities[k])
    ensures c in FromEntities(lib, lead, entities, ById(evidence), claims, {}) && c.domainVerified
  {
    FirstOfIdIsMade(lib, lead, entities, evidence, claims, k);
    c := Make(lib, lead, entities[k], ById(evidence), claims);
    MadeAsDescribed(lib, lead, evidence, claims, entities[k]);
    FromEntitiesAreMade(lib, lead, entities, ById(evidence), claims, {}, c);
  }

  lemma FirstPartyMember(candidates: seq<Candidate>, c: Candidate)
    requires c in candidates && c.domainVerified
    ensures AnyFirstParty(candidates)
  {
    var i :| 0 <= i < |candidates| && candidates[i] == c;
    assert FirstParty(candidates[i]);
  }

  lemma FirstPartyIffLead(lib: Library, lead: Lead, entities: seq<Extracted>, evidence: seq<EvidenceInput>,
                          claims: seq<CurrentnessClaim>)
    ensures AnyFirstParty(FromEntities(lib, lead, entities, ById(evidence), claims, {}))
            <==> SomeoneIsLead(lib, lead, entities, evidence)
  {
    var made := FromEntities(lib, lead, entities, ById(evidence), claims, {});
    if AnyFirstParty(made) {
      var i :| 0 <= i < |made| && FirstParty(made[i]);
      FirstPartyIsLead(lib, lead, entities, evidence, claims, made[i]);
    }
    if SomeoneIsLead(lib, lead, entities, evidence) {
      var k: nat :| k < |entities| && FirstOfId(lib, lead, evidence, entities, k)
                    && ShownToBeLead(lib, lead, evidence, entities[k]);
      var c := LeadIsFirstParty(lib, lead, entities, evidence, claims, k);
      FirstPartyMember(made, c);
    }
  }

  /** The lead's own candidate is appended exactly when the lead has a domain, a page of its site was fetched, and no
      entity is shown to be the lead; its evidence are the pages of the site in their order. */
  lemma AppendedIff(lib: Library, lead: Lead, entities: seq<Extracted>, evidence: seq<EvidenceInput>,
                    claims: seq<CurrentnessClaim>, candidates: seq<Candidate>, made: seq<Candidate>)
    requires Produce(lib, lead, entities, evidence, claims) == Candidates(candidates)
    requires made == FromEntities(lib, lead, entities, ById(evidence), claims, {})
    ensures var needed := lib.domain(lead.domain) != "" && !SomeoneIsLead(lib, lead, entities, evidence)
                          && exists id, url :: PageOf(evidence, id, url) && OnSite(lib, lead, url);
            if needed then
              |candidates| == |made| + 1 && candidates[..|made|] == made
              && IsAppended(lib, lead, evidence, candidates[|made|])
              && InOrderOfAppearance(evidence, candidates[|made|].evidenceRefs)
            else candidates == made
  {
    var refs := SiteRefs(lib, lead, evidence);
    FirstPartyIffLead(lib, lead, entities, evidence, claims);
    AppendedIffNeeded(lib, lead, entities, evidence, claims, candidates);
    FallbackIsAppended(lib, lead, evidence);
    KeysInOrderOfAppearance(evidence);
    OnDomainKeepsOrder(lib, evidence, KeysInOrder(evidence), ById(evidence),
                       RegistrableDomain(lib.domain, lead.domain));
    if refs != [] {
      SiteRefsAre(lib, lead, evidence, refs[0]);
    }
    if id, url :| PageOf(evidence, id, url) && OnSite(lib, lead, url) {
      SiteRefsAre(lib, lead, evidence, id);
    }
  }

  /** A candidate is verified, or has its URL or identity confirmed, only with a page of the lead's site among its own
      evidence. */
  lemma VerifiedOnlyOnSite(lib: Library, lead: Lead, entities: seq<Extracted>, evidence: seq<EvidenceInput>,
                           claims: seq<CurrentnessClaim>, candidates: seq<Candidate>, c: Candidate)
    requires Produce(lib, lead, entities, evidence, claims) == Candidates(candidates) && c in candidates
    requires c.domainVerified || c.officialCorporateUrlMatch || c.explicitOfficialIdentityTie
    ensures exists id :: id in c.evidenceRefs && ShowsSite(lib, lead, evidence, id)
  {
    var byId := ById(evidence);
    FromEntitiesAreMade(lib, lead, entities, byId, claims, {}, c);
    if k: nat :| MadeAt(lib, lead, entities, byId, claims, {}, k, c) {
      MadeAsDescribed(lib, lead, evidence, claims, entities[k]);
      var id, url :| id in entities[k].evidenceIds && PageOf(evidence, id, url) && HostOnSite(lib, lead, url);
      LookedUp(evidence, id, url);
      assert ShowsSite(lib, lead, evidence, id);
    } else {
      AppendedShowsSite(lib, lead, entities, evidence, claims, candidates, c);
    }
  }

  /** So no lead is matched, with whatever budget, unless a page of its site was fetched. */
  lemma MatchedOnlyOnSite(lib: Library, lead: Lead, entities: seq<Extracted>, evidence: seq<EvidenceInput>,
                          claims: seq<CurrentnessClaim>, candidates: seq<Candidate>, relationships: seq<string>,
                          budget: int, d: Resolver.Decision)
    requires Produce(lib, lead, entities, evidence, claims) == Candidates(candidates)
    requires Resolver.Resolve(lib, lead, candidates, relationships, budget) == Ok(d)
    requires d.status == Resolver.Matched || d.status == Resolver.MatchedWithRelationship
    ensures exists id :: ShowsSite(lib, lead, evidence, id)
  {
    var selected := Resolver.GenerateCandidates(lib, lead, candidates, budget);
    Resolver.Outcome(lib, lead, candidates, relationships, budget);
    var c := Resolver.Matchables(lib, lead, selected)[0];
    Resolver.MatchablesMembers(lib, lead, selected, c);
    Resolver.GeneratedMembers(lib, lead, candidates, budget);
    VerifiedOnlyOnSite(lib, lead, entities, evidence, claims, candidates, c);
  }
}
