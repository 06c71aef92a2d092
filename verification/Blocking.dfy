/** Which candidates are compared with a lead at all.

    Candidate generation is set against the names and domains themselves: a candidate is near the lead if it shares its
    domain or a word of its name, and the first near ones are selected, as many as the budget admits. */
module Blocking {
  import opened Counting
  import opened Normalization
  import opened Matching
  import opened Resolver

  /** Both have a domain, and the domains or what they are registered as agree. */
  ghost predicate SharesDomain(lib: Library, lead: Lead, c: Candidate) {
    var a, b := lib.domain(lead.domain), lib.domain(c.canonicalDomain);
    a != "" && b != "" && (a == b || RegistrableDomain(lib.domain, a) == RegistrableDomain(lib.domain, b))
  }

  /** The legal name, if there is one. */
  ghost function NameOf(lead: Lead): string {
    if lead.legalName == "" then lead.displayName else lead.legalName
  }

  /** A word counts in the lead's name and in the candidate's or an alias of it. */
  ghost predicate SharesWord(lib: Library, lead: Lead, c: Candidate) {
    exists w :: w in NameWords(lib.lower, NameOf(lead))
                && (w in NameWords(lib.lower, c.canonicalName)
                    || exists alias :: alias in c.aliases && w in NameWords(lib.lower, alias))
  }

  ghost predicate Near(lib: Library, lead: Lead, c: Candidate) {
    SharesDomain(lib, lead, c) || SharesWord(lib, lead, c)
  }

  lemma TokensAreWords(lib: Library, name: string, w: string)
    ensures w in NameTokens(lib.lower, name) <==> w in NameWords(lib.lower, name)
  {
    SameNormalName(lib.lower, name, name);
  }

  lemma {:induction false} AliasTokensAre(lib: Library, names: seq<string>, w: string)
    ensures w in AliasTokens(lib, names) <==> exists name :: name in names && w in NameWords(lib.lower, name)
  {
    if names != [] {
      TokensAreWords(lib, names[0], w);
      AliasTokensAre(lib, names[1..], w);
    }
  }

  lemma AliasWords(lib: Library, c: Candidate, w: string)
    ensures w in AliasTokens(lib, [c.canonicalName] + c.aliases)
            <==> w in NameWords(lib.lower, c.canonicalName)
                 || exists alias :: alias in c.aliases && w in NameWords(lib.lower, alias)
  {
    var names := [c.canonicalName] + c.aliases;
    AliasTokensAre(lib, names, w);
    if w in AliasTokens(lib, names) {
      var name :| name in names && w in NameWords(lib.lower, name);
      assert name == c.canonicalName || name in c.aliases;
    }
    if w in NameWords(lib.lower, c.canonicalName) {
      assert c.canonicalName in names;
    }
    if alias :| alias in c.aliases && w in NameWords(lib.lower, alias) {
      assert alias in names;
    }
  }

  lemma CommonWordIsShared(lib: Library, lead: Lead, c: Candidate, w: string)
    requires w in NameTokens(lib.lower, LeadName(lead)) && w in AliasTokens(lib, [c.canonicalName] + c.aliases)
    ensures SharesWord(lib, lead, c)
  {
    assert NameOf(lead) == LeadName(lead);
    TokensAreWords(lib, LeadName(lead), w);
    AliasWords(lib, c, w);
  }

  lemma SharedWordIsCommon(lib: Library, lead: Lead, c: Candidate) returns (w: string)
    requires SharesWord(lib, lead, c)
    ensures w in NameTokens(lib.lower, LeadName(lead)) && w in AliasTokens(lib, [c.canonicalName] + c.aliases)
  {
    w :| w in NameWords(lib.lower, NameOf(lead))
         && (w in NameWords(lib.lower, c.canonicalName)
             || exists alias :: alias in c.aliases && w in NameWords(lib.lower, alias));
    assert NameOf(lead) == LeadName(lead);
    TokensAreWords(lib, LeadName(lead), w);
    AliasWords(lib, c, w);
  }

  /** Shared geography makes no difference. */
  lemma BlocksIffNear(lib: Library, lead: Lead, c: Candidate)
    ensures IsBlockMatch(lib, lead, c) <==> Near(lib, lead, c)
  {
    var common := NameTokens(lib.lower, LeadName(lead)) * AliasTokens(lib, [c.canonicalName] + c.aliases);
    if w :| w in common {
      CommonWordIsShared(lib, lead, c, w);
    }
    if SharesWord(lib, lead, c) {
      var w := SharedWordIsCommon(lib, lead, c);
      assert w in common;
    }
  }

  // ---------- the first near ones ----------

  /** The positions before `n` of candidates near the lead. */
  ghost function NearBefore(lib: Library, lead: Lead, candidates: seq<Candidate>, n: nat): set<nat>
    requires n <= |candidates|
  {
    Positions(n, (i: nat) => i < |candidates| && Near(lib, lead, candidates[i]))
  }

  lemma NearBeforeNext(lib: Library, lead: Lead, candidates: seq<Candidate>, n: nat)
    requires 0 < n <= |candidates|
    ensures |NearBefore(lib, lead, candidates, n)|
            == |NearBefore(lib, lead, candidates, n - 1)| + if Near(lib, lead, candidates[n - 1]) then 1 else 0
  {
    PositionsNext(n, (i: nat) => i < |candidates| && Near(lib, lead, candidates[i]));
  }

  lemma BlockedNext(lib: Library, lead: Lead, candidates: seq<Candidate>, n: nat)
    requires 0 < n <= |candidates|
    ensures Blocked(lib, lead, candidates[..n])
            == Blocked(lib, lead, candidates[..n - 1])
               + if Near(lib, lead, candidates[n - 1]) then [candidates[n - 1]] else []
  {
    assert candidates[..n] == candidates[..n - 1] + [candidates[n - 1]];
    BlockedConcat(lib, lead, candidates[..n - 1], [candidates[n - 1]]);
    BlocksIffNear(lib, lead, candidates[n - 1]);
    assert [candidates[n - 1]][1..] == [];
  }

  lemma {:induction false} BlockedCount(lib: Library, lead: Lead, candidates: seq<Candidate>, n: nat)
    requires n <= |candidates|
    ensures |Blocked(lib, lead, candidates[..n])| == |NearBefore(lib, lead, candidates, n)|
  {
    if n == 0 {
      NoPositions((i: nat) => i < |candidates| && Near(lib, lead, candidates[i]));
    } else {
      BlockedCount(lib, lead, candidates, n - 1);
      BlockedNext(lib, lead, candidates, n);
      NearBeforeNext(lib, lead, candidates, n);
    }
  }

  lemma {:induction false} BlockedAt(lib: Library, lead: Lead, candidates: seq<Candidate>, n: nat, i: nat)
    requires i < n <= |candidates| && Near(lib, lead, candidates[i])
    ensures var k := |NearBefore(lib, lead, candidates, i)|;
            k < |Blocked(lib, lead, candidates[..n])| && Blocked(lib, lead, candidates[..n])[k] == candidates[i]
  {
    BlockedNext(lib, lead, candidates, n);
    if i == n - 1 {
      BlockedCount(lib, lead, candidates, i);
    } else {
      BlockedAt(lib, lead, candidates, n - 1, i);
    }
  }

  /** What is selected: the candidates near the lead, in the order in which they come, cut to the budget. */
  lemma SelectedAreTheFirstNear(lib: Library, lead: Lead, candidates: seq<Candidate>, budget: nat, i: nat,
                                selected: seq<Candidate>)
    requires i < |candidates| && selected == GenerateCandidates(lib, lead, candidates, budget)
    ensures var k, near := |NearBefore(lib, lead, candidates, i)|, |NearBefore(lib, lead, candidates, |candidates|)|;
            && |selected| == (if near <= budget then near else budget)
            && (Near(lib, lead, candidates[i]) && k < budget ==> k < |selected| && selected[k] == candidates[i])
  {
    assert candidates[..|candidates|] == candidates;
    BlockedCount(lib, lead, candidates, |candidates|);
    if Near(lib, lead, candidates[i]) {
      BlockedAt(lib, lead, candidates, |candidates|, i);
    }
  }

  lemma {:induction false} BlockedAreNear(lib: Library, lead: Lead, candidates: seq<Candidate>, n: nat, c: Candidate)
    requires n <= |candidates| && c in Blocked(lib, lead, candidates[..n])
    ensures exists i :: 0 <= i < n && candidates[i] == c && Near(lib, lead, c)
  {
    BlockedNext(lib, lead, candidates, n);
    if c in Blocked(lib, lead, candidates[..n - 1]) {
      BlockedAreNear(lib, lead, candidates, n - 1, c);
    }
  }

  /** Without distance nothing is excluded: with room in the budget a candidate is selected if and only if it shares
      the lead's domain or a word of its name. */
  lemma SelectedIffNear(lib: Library, lead: Lead, candidates: seq<Candidate>, budget: nat, c: Candidate)
    requires c in candidates && |NearBefore(lib, lead, candidates, |candidates|)| <= budget
    ensures c in GenerateCandidates(lib, lead, candidates, budget) <==> Near(lib, lead, c)
  {
    assert candidates[..|candidates|] == candidates;
    BlockedCount(lib, lead, candidates, |candidates|);
    if c in Blocked(lib, lead, candidates) {
      BlockedAreNear(lib, lead, candidates, |candidates|, c);
    }
    if Near(lib, lead, c) {
      var i :| 0 <= i < |candidates| && candidates[i] == c;
      BlockedAt(lib, lead, candidates, |candidates|, i);
    }
  }

  /** A lead stays unresolved exactly when nothing is near it. */
  lemma UnresolvedIffNothingNear(lib: Library, lead: Lead, candidates: seq<Candidate>, relationships: seq<string>,
                                 budget: int)
    requires budget > 0
    ensures var r := Resolve(lib, lead, candidates, relationships, budget);
            r.Ok? && r.value.status == Unresolved <==> forall c :: c in candidates ==> !Near(lib, lead, c)
  {
    Outcome(lib, lead, candidates, relationships, budget);
    assert candidates[..|candidates|] == candidates;
    var blocked := Blocked(lib, lead, candidates);
    if blocked != [] {
      BlockedAreNear(lib, lead, candidates, |candidates|, blocked[0]);
    }
    if c :| c in candidates && Near(lib, lead, c) {
      var i :| 0 <= i < |candidates| && candidates[i] == c;
      BlockedAt(lib, lead, candidates, |candidates|, i);
    }
  }
}
