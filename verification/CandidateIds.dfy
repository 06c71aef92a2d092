/** When the ids of the candidates are distinct, as counting and order independence of the resolution ask.

    The digest is a parameter; what is asked of it is that two keys at hand do not collide. */
module CandidateIds {
  import opened Wrappers
  import opened Text
  import opened Normalization
  import opened Matching
  import opened CandidateProvider
  import Resolver

  // ---------- an id names what it was made of ----------

  lemma NameHasNoBar(lib: Library, name: string)
    ensures '|' !in NormalizeName(lib.lower, name)
  {
    NameWordsAreWords(lib.lower, name);
    JoinedIsNormal(NameWords(lib.lower, name));
  }

  function TypeTextLength(t: EntityType): (n: nat)
    ensures n == |TypeText(t)|
  {
    match t
    case LegalEntity => 12
    case OperatingEntity => 16
    case Brand => 5
    case BusinessUnit => 13
    case ParentCompany => 14
    case HoldingCompany => 15
    case Franchisee => 10
    case Licensor => 8
    case Licensee => 8
    case ExternalProvider => 17
    case Unknown => 7
  }

  /** The lengths of the type names tell the types apart, but for two that differ in a letter. */
  lemma TypeTextNames(t: EntityType, u: EntityType)
    requires TypeText(t) == TypeText(u)
    ensures t == u
  {
    assert TypeTextLength(t) == |TypeText(t)| == |TypeText(u)| == TypeTextLength(u);
    assert TypeText(Licensor)[6] != TypeText(Licensee)[6];
  }

  lemma TypeTextHasNoBar(t: EntityType)
    ensures '|' !in TypeText(t)
  {
  }

  /** What an id is the digest of: normalised name, domain, the word None where there is none, and type. */
  lemma IdIs(lib: Library, name: string, domain: string, t: EntityType)
    ensures CandidateId(lib, name, domain, t)
            == "research:" + lib.digest(NormalizeName(lib.lower, name) + "|" + (if domain != "" then domain else "None")
                                        + "|" + TypeText(t), [])
  {
  }

  /** Two keys agree exactly when normalised names, domains and types do, whatever the domains contain. */
  lemma SameKey(lib: Library, name: string, domain: string, t: EntityType, other: string, place: string, u: EntityType)
    ensures IdKey(lib, name, domain, t) == IdKey(lib, other, place, u) <==>
            NormalizeName(lib.lower, name) == NormalizeName(lib.lower, other) && DomainText(domain) == DomainText(place)
              && t == u
  {
    var a, b := NormalizeName(lib.lower, name), NormalizeName(lib.lower, other);
    assert IdKey(lib, name, domain, t) == a + "|" + (DomainText(domain) + "|" + TypeText(t));
    assert IdKey(lib, other, place, u) == b + "|" + (DomainText(place) + "|" + TypeText(u));
    NameHasNoBar(lib, name);
    NameHasNoBar(lib, other);
    TypeTextHasNoBar(t);
    TypeTextHasNoBar(u);
    if IdKey(lib, name, domain, t) == IdKey(lib, other, place, u) {
      ThreeParts(a, DomainText(domain), TypeText(t), b, DomainText(place), TypeText(u), '|');
      TypeTextNames(t, u);
    }
  }

  predicate NoCollision(lib: Library, a: string, b: string) {
    lib.digest(a, []) == lib.digest(b, []) ==> a == b
  }

  lemma SameId(lib: Library, name: string, domain: string, t: EntityType, other: string, place: string, u: EntityType)
    requires NoCollision(lib, IdKey(lib, name, domain, t), IdKey(lib, other, place, u))
    ensures CandidateId(lib, name, domain, t) == CandidateId(lib, other, place, u) <==>
            NormalizeName(lib.lower, name) == NormalizeName(lib.lower, other) && DomainText(domain) == DomainText(place)
              && t == u
  {
    var a, b := lib.digest(IdKey(lib, name, domain, t), []), lib.digest(IdKey(lib, other, place, u), []);
    var tag := "research:";
    assert (tag + a)[|tag|..] == a && (tag + b)[|tag|..] == b;
    SameKey(lib, name, domain, t, other, place, u);
  }

  // ---------- the candidates of the entities ----------

  /** Some entity that is kept gives this id. */
  ghost predicate Gives(lib: Library, lead: Lead, entities: seq<Extracted>, byId: map<string, string>,
                        claims: seq<CurrentnessClaim>, id: string) {
    exists e :: e in entities && Reaches(e, byId) && Kept(lib, lead, e, byId)
      && Make(lib, lead, e, byId, claims).candidateId == id
  }

  lemma {:induction false} EntityIds(lib: Library, lead: Lead, entities: seq<Extracted>, byId: map<string, string>,
                                     claims: seq<CurrentnessClaim>, seen: set<string>, id: string)
    ensures (exists c :: c in FromEntities(lib, lead, entities, byId, claims, seen) && c.candidateId == id) <==>
            id !in seen && Gives(lib, lead, entities, byId, claims, id)
    decreases |entities|
  {
    if entities != [] {
      var e, rest := entities[0], entities[1..];
      assert forall x :: x in entities <==> x == e || x in rest;
      if Reaches(e, byId) && Kept(lib, lead, e, byId) {
        var c := Make(lib, lead, e, byId, claims);
        if c.candidateId in seen {
          EntityIds(lib, lead, rest, byId, claims, seen, id);
        } else {
          EntityIds(lib, lead, rest, byId, claims, seen + {c.candidateId}, id);
          var later := FromEntities(lib, lead, rest, byId, claims, seen + {c.candidateId});
          assert forall x :: x in [c] + later <==> x == c || x in later;
        }
      } else {
        EntityIds(lib, lead, rest, byId, claims, seen, id);
      }
    }
  }

  /** One candidate an id. */
  lemma {:induction false} EntitiesDistinct(lib: Library, lead: Lead, entities: seq<Extracted>,
                                            byId: map<string, string>,
                                            claims: seq<CurrentnessClaim>, seen: set<string>)
    ensures Resolver.DistinctIds(FromEntities(lib, lead, entities, byId, claims, seen))
    decreases |entities|
  {
    if entities != [] {
      var e, rest := entities[0], entities[1..];
      if Reaches(e, byId) && Kept(lib, lead, e, byId) && Make(lib, lead, e, byId, claims).candidateId !in seen {
        var c := Make(lib, lead, e, byId, claims);
        var later := FromEntities(lib, lead, rest, byId, claims, seen + {c.candidateId});
        EntitiesDistinct(lib, lead, rest, byId, claims, seen + {c.candidateId});
        assert ([c] + later)[1..] == later;
        EntityIds(lib, lead, rest, byId, claims, seen + {c.candidateId}, c.candidateId);
      } else {
        EntitiesDistinct(lib, lead, rest, byId, claims, seen);
      }
    }
  }

  lemma {:induction false} DistinctAppend(s: seq<Candidate>, x: Candidate)
    ensures Resolver.DistinctIds(s + [x]) <==> Resolver.DistinctIds(s) && forall c :: c in s ==>
              c.candidateId != x.candidateId
  {
    if s == [] {
      assert s + [x] == [x] && [x][1..] == [];
    } else {
      assert (s + [x])[1..] == s[1..] + [x];
      DistinctAppend(s[1..], x);
      assert forall c :: c in s <==> c == s[0] || c in s[1..];
    }
  }

  // ---------- the whole list ----------

  /** The candidate for the lead itself is appended. */
  predicate Appends(lib: Library, lead: Lead, entities: seq<Extracted>, evidence: seq<EvidenceInput>,
                    claims: seq<CurrentnessClaim>)
  {
    && lib.domain(lead.domain) != ""
    && !AnyFirstParty(FromEntities(lib, lead, entities, ById(evidence), claims, {}))
    && OnDomain(lib, KeysInOrder(evidence), ById(evidence), RegistrableDomain(lib.domain, lead.domain)) != []
  }

  /** A brand kept with the lead's domain and the name the appended candidate gets. */
  predicate Twin(lib: Library, lead: Lead, e: Extracted, byId: map<string, string>) {
    && Reaches(e, byId) && Kept(lib, lead, e, byId) && e.entityType == Some(Brand)
    && DomainText(EffectiveDomain(lib, lead, e, byId)) == DomainText(lead.domain)
    && NormalizeName(lib.lower, e.name) == NormalizeName(lib.lower, FallbackName(lead))
  }

  predicate AnyTwin(lib: Library, lead: Lead, entities: seq<Extracted>, byId: map<string, string>) {
    exists i :: 0 <= i < |entities| && Twin(lib, lead, entities[i], byId)
  }

  /** The key of the appended candidate collides with that of no entity. */
  predicate NoCollisions(lib: Library, lead: Lead, entities: seq<Extracted>, byId: map<string, string>) {
    forall i :: 0 <= i < |entities| && Reaches(entities[i], byId) ==>
      NoCollision(lib, IdKey(lib, entities[i].name, EffectiveDomain(lib, lead, entities[i], byId),
                             entities[i].entityType.value),
                  IdKey(lib, FallbackName(lead), lead.domain, Brand))
  }

  lemma TwinsShareTheId(lib: Library, lead: Lead, entities: seq<Extracted>, byId: map<string, string>,
                        claims: seq<CurrentnessClaim>)
    requires NoCollisions(lib, lead, entities, byId)
    ensures Gives(lib, lead, entities, byId, claims, CandidateId(lib, FallbackName(lead), lead.domain, Brand)) <==>
            AnyTwin(lib, lead, entities, byId)
  {
    forall e | e in entities && Reaches(e, byId)
      ensures (Kept(lib, lead, e, byId)
               && Make(lib, lead, e, byId, claims).candidateId
                  == CandidateId(lib, FallbackName(lead), lead.domain, Brand))
              <==> Twin(lib, lead, e, byId)
    {
      SameId(lib, e.name, EffectiveDomain(lib, lead, e, byId), e.entityType.value, FallbackName(lead), lead.domain,
             Brand);
    }
    assert forall e :: e in entities <==> exists i :: 0 <= i < |entities| && entities[i] == e;
  }

  /** The ids of the candidates are distinct unless the candidate for the lead itself is appended although a
      brand of its name and domain was kept: the appended one does not consult the ids already used. */
  lemma DistinctIff(lib: Library, lead: Lead, entities: seq<Extracted>, evidence: seq<EvidenceInput>,
                    claims: seq<CurrentnessClaim>)
    requires NoCollisions(lib, lead, entities, ById(evidence))
    ensures var r := Produce(lib, lead, entities, evidence, claims);
            r.Candidates? ==>
              (Resolver.DistinctIds(r.candidates) <==>
               !(Appends(lib, lead, entities, evidence, claims) && AnyTwin(lib, lead, entities, ById(evidence))))
  {
    var byId := ById(evidence);
    var own := FromEntities(lib, lead, entities, byId, claims, {});
    EntitiesDistinct(lib, lead, entities, byId, claims, {});
    if Appends(lib, lead, entities, evidence, claims) {
      var x := Fallback(lib, lead, OnDomain(lib, KeysInOrder(evidence), byId,
                                            RegistrableDomain(lib.domain, lead.domain)));
      DistinctAppend(own, x);
      EntityIds(lib, lead, entities, byId, claims, {}, x.candidateId);
      TwinsShareTheId(lib, lead, entities, byId, claims);
    }
  }

  /** So what the provider produces is counted, and its order matters only through the budget, except in
      that one case. */
  lemma ProducedResolves(lib: Library, lead: Lead, entities: seq<Extracted>, evidence: seq<EvidenceInput>,
                         claims: seq<CurrentnessClaim>,
                         t: seq<Candidate>, relationships: seq<string>, budget: int)
    requires NoCollisions(lib, lead, entities, ById(evidence)) && budget > 0
    requires Appends(lib, lead, entities, evidence, claims) ==> !AnyTwin(lib, lead, entities, ById(evidence))
    ensures var r := Produce(lib, lead, entities, evidence, claims);
            r.Candidates? ==>
              && Resolver.Counts(lib, lead, r.candidates, relationships, budget)
              && (multiset(r.candidates) == multiset(t) ==>
                    Resolver.OrderFollowsSelection(lib, lead, r.candidates, t, relationships, budget))
  {
    var r := Produce(lib, lead, entities, evidence, claims);
    DistinctIff(lib, lead, entities, evidence, claims);
    if r.Candidates? {
      Resolver.ResolutionCounts(lib, lead, r.candidates, relationships, budget);
      if multiset(r.candidates) == multiset(t) {
        Resolver.OrderMattersOnlyThroughTheBudget(lib, lead, r.candidates, t, relationships, budget);
      }
    }
  }
}
