/** Phase 1 intake: exact duplicates, the processing of one source record, and the batch fold.

    Validation and normalisation are a parameter, and so are the hashed identifiers. */
module Intake {
  import opened Wrappers

  datatype Record = Record(id: string, sourceName: string, key: Option<string>, fingerprint: string)

  datatype State = Accepted | AcceptedWithWarnings | Quarantined | Duplicate

  datatype Kind = Replay | ExactDuplicate | NotDuplicate

  datatype Decision = Decision(decisionId: string, sourceId: string, kind: Kind, matched: seq<string>)

  /** What validating and normalising a record comes to. */
  datatype Assessment = Assessment(errors: bool, warnings: bool, canonical: string, observations: seq<string>,
                                   findings: seq<string>)

  datatype Lead = Lead(leadId: string, canonical: string, observations: seq<string>, quality: State)

  datatype Handoff = Handoff(leadId: string, canonical: string, quality: State)

  datatype Phase1Result = Phase1Result(state: State, record: Record, lead: Lead, findings: seq<string>,
                                       decision: Decision, handoff: Option<Handoff>)

  /** The hashed identifiers: `fold` strips and lower-cases a source name. */
  datatype Library = Library(
    fold: string -> string,
    sourceId: (string, Option<string>, string) -> string,
    leadId: (string, Option<string>, Option<string>) -> string,
    decisionId: (string, Kind) -> string)

  // ---------- duplicates ----------

  predicate IsReplay(e: Record, r: Record) {
    e.id == r.id && e.fingerprint == r.fingerprint
  }

  predicate IsCopy(e: Record, r: Record) {
    e.sourceName == r.sourceName && e.fingerprint == r.fingerprint && e.id != r.id
  }

  /** The first stored record that satisfies a test. */
  function First(existing: seq<Record>, r: Record, test: (Record, Record) -> bool): Option<Record> {
    if existing == [] then None
    else if test(existing[0], r) then Some(existing[0])
    else First(existing[1..], r, test)
  }

  function Made(lib: Library, r: Record, kind: Kind, matched: seq<string>): Decision {
    Decision(lib.decisionId(r.id, kind), r.id, kind, matched)
  }

  /** A replay of a stored record, else a copy of one under another id, else new. */
  function Decide(lib: Library, r: Record, existing: seq<Record>): Decision {
    match First(existing, r, IsReplay)
    case Some(e) => Made(lib, r, Replay, [e.id])
    case None =>
      match First(existing, r, IsCopy)
      case Some(e) => Made(lib, r, ExactDuplicate, [e.id])
      case None => Made(lib, r, NotDuplicate, [])
  }

  method CheckDuplicate(lib: Library, r: Record, existing: seq<Record>) returns (d: Decision)
    ensures d == Decide(lib, r, existing)
  {
    for i := 0 to |existing|
      invariant First(existing[i..], r, IsReplay) == First(existing, r, IsReplay)
    {
      var e := existing[i];
      if e.id == r.id && e.fingerprint == r.fingerprint {
        return Made(lib, r, Replay, [e.id]);
      }
      assert existing[i..][1..] == existing[i + 1..];
    }
    for i := 0 to |existing|
      invariant First(existing[i..], r, IsCopy) == First(existing, r, IsCopy)
    {
      var e := existing[i];
      if e.sourceName == r.sourceName && e.fingerprint == r.fingerprint && e.id != r.id {
        return Made(lib, r, ExactDuplicate, [e.id]);
      }
      assert existing[i..][1..] == existing[i + 1..];
    }
    return Made(lib, r, NotDuplicate, []);
  }

  lemma {:induction false} FirstFinds(existing: seq<Record>, r: Record, test: (Record, Record) -> bool)
    ensures First(existing, r, test).Some? <==> exists e :: e in existing && test(e, r)
    ensures First(existing, r, test).Some? ==>
              First(existing, r, test).value in existing && test(First(existing, r, test).value, r)
  {
    if existing != [] {
      FirstFinds(existing[1..], r, test);
      assert forall e :: e in existing <==> e == existing[0] || e in existing[1..];
    }
  }

  /** A record is a duplicate exactly when a stored one has its fingerprint and its id or its source. */
  lemma DuplicateIff(lib: Library, r: Record, existing: seq<Record>)
    ensures Decide(lib, r, existing).kind != NotDuplicate
            <==> exists e ::
              e in existing && e.fingerprint == r.fingerprint && (e.id == r.id || e.sourceName == r.sourceName)
  {
    FirstFinds(existing, r, IsReplay);
    FirstFinds(existing, r, IsCopy);
    if e :| e in existing && e.fingerprint == r.fingerprint && (e.id == r.id || e.sourceName == r.sourceName) {
      assert IsReplay(e, r) || IsCopy(e, r);
    }
  }

  /** A stored record is matched that the test holds of, and of none before it. */
  lemma {:induction false} FirstIsFirst(existing: seq<Record>, r: Record, test: (Record, Record) -> bool)
    requires First(existing, r, test).Some?
    ensures exists k :: 0 <= k < |existing| && First(existing, r, test) == Some(existing[k]) && test(existing[k], r)
                        && forall j :: 0 <= j < k ==> !test(existing[j], r)
  {
    if !test(existing[0], r) {
      FirstIsFirst(existing[1..], r, test);
      var k :| 0 <= k < |existing[1..]| && First(existing[1..], r, test) == Some(existing[1..][k])
               && test(existing[1..][k], r) && forall j :: 0 <= j < k ==> !test(existing[1..][j], r);
      assert existing[k + 1] == existing[1..][k];
      assert forall j :: 0 < j < k + 1 ==> existing[j] == existing[1..][j - 1];
    }
  }

  /** The record at `k` is the first of its source and fingerprint under another id. */
  ghost predicate FirstCopy(existing: seq<Record>, r: Record, k: nat) {
    && k < |existing| && existing[k].sourceName == r.sourceName && existing[k].fingerprint == r.fingerprint
    && existing[k].id != r.id
    && forall j :: 0 <= j < k && existing[j].sourceName == r.sourceName && existing[j].fingerprint == r.fingerprint ==>
         existing[j].id == r.id
  }

  /** Which kind of duplicate a record is: stored before under its own id, or else under another of its source, the
      first of which it is matched with. */
  lemma KindIff(lib: Library, r: Record, existing: seq<Record>, d: Decision)
    requires d == Decide(lib, r, existing)
    ensures d.sourceId == r.id && d.decisionId == lib.decisionId(r.id, d.kind)
    ensures d.kind == Replay <==> exists e :: e in existing && e.id == r.id && e.fingerprint == r.fingerprint
    ensures d.kind == Replay ==> d.matched == [r.id]
    ensures d.kind == ExactDuplicate ==>
              exists k: nat :: k < |existing| && FirstCopy(existing, r, k) && d.matched == [existing[k].id]
    ensures d.kind == NotDuplicate ==> d.matched == []
  {
    FirstFinds(existing, r, IsReplay);
    FirstFinds(existing, r, IsCopy);
    if e :| e in existing && e.id == r.id && e.fingerprint == r.fingerprint {
      assert IsReplay(e, r);
    }
    if d.kind == ExactDuplicate {
      FirstIsFirst(existing, r, IsCopy);
      var k :| 0 <= k < |existing| && First(existing, r, IsCopy) == Some(existing[k]) && IsCopy(existing[k], r)
               && forall j :: 0 <= j < k ==> !IsCopy(existing[j], r);
      assert FirstCopy(existing, r, k);
    }
  }

  // ---------- one record ----------

  function Judged(a: Assessment): State {
    if a.errors then Quarantined else if a.warnings then AcceptedWithWarnings else Accepted
  }

  predicate IsAccepted(s: State) {
    s in {Accepted, AcceptedWithWarnings}
  }

  /** A record with a native key has the lead of that key; one without has a lead of its own. */
  function LeadId(lib: Library, r: Record): string {
    lib.leadId(lib.fold(r.sourceName), r.key, if r.key.None? then Some(r.id) else None)
  }

  function Process(lib: Library, r: Record, a: Assessment, existing: seq<Record>): Phase1Result {
    var decision := Decide(lib, r, existing);
    var state := if decision.kind != NotDuplicate then Duplicate else Judged(a);
    Phase1Result(state, r, Lead(LeadId(lib, r), a.canonical, a.observations, state), a.findings, decision,
           if IsAccepted(state) then Some(Handoff(LeadId(lib, r), a.canonical, state)) else None)
  }

  /** What becomes of a record: a duplicate is set aside, anything else judged by what its validation found, and exactly
      what is accepted is handed off, under its lead and as it was judged. */
  lemma WhatBecomesOfARecord(lib: Library, r: Record, a: Assessment, existing: seq<Record>, result: Phase1Result)
    requires result == Process(lib, r, a, existing)
    ensures result.record == r && result.decision == Decide(lib, r, existing) && result.findings == a.findings
    ensures result.state == Duplicate <==> result.decision.kind != NotDuplicate
    ensures result.state == Quarantined <==> result.decision.kind == NotDuplicate && a.errors
    ensures result.state == AcceptedWithWarnings <==> result.decision.kind == NotDuplicate && !a.errors && a.warnings
    ensures result.lead == Lead(result.lead.leadId, a.canonical, a.observations, result.state)
    ensures r.key.Some? ==> result.lead.leadId == lib.leadId(lib.fold(r.sourceName), r.key, None)
    ensures r.key == None ==> result.lead.leadId == lib.leadId(lib.fold(r.sourceName), None, Some(r.id))
    ensures result.handoff.Some? <==> result.state == Accepted || result.state == AcceptedWithWarnings
    ensures result.handoff.Some? ==> result.handoff.value == Handoff(result.lead.leadId, a.canonical, result.state)
  {
  }

  // ---------- a batch ----------

  /** The results of a batch: every record against the stored ones and the earlier ones of the batch. */
  function Prepared(lib: Library, assess: Record -> Assessment, records: seq<Record>,
                    prior: seq<Record>): seq<Phase1Result>
  {
    if records == [] then []
    else
      [Process(lib, records[0], assess(records[0]), prior)] + Prepared(lib, assess, records[1..], prior + [records[0]])
  }

  method PrepareResults(lib: Library, assess: Record -> Assessment, records: seq<Record>, prior: seq<Record>)
    returns (results: seq<Phase1Result>)
    ensures results == Prepared(lib, assess, records, prior)
  {
    results := [];
    assert prior + records[..0] == prior && records[0..] == records;
    for i := 0 to |records|
      invariant results + Prepared(lib, assess, records[i..], prior + records[..i])
                == Prepared(lib, assess, records, prior)
    {
      var result := Process(lib, records[i], assess(records[i]), prior + records[..i]);
      assert records[i..][1..] == records[i + 1..];
      assert prior + records[..i] + [records[i]] == prior + records[..i + 1];
      results := results + [result];
    }
  }

  ghost predicate OneSource(records: seq<Record>, name: string) {
    forall r :: r in records ==> r.sourceName == name
  }

  function Fingerprints(records: seq<Record>): set<string> {
    set r | r in records :: r.fingerprint
  }

  function Fresh(results: seq<Phase1Result>): nat {
    if results == [] then 0 else (if results[0].decision.kind == NotDuplicate then 1 else 0) + Fresh(results[1..])
  }

  lemma {:induction false} PreparedAt(lib: Library, assess: Record -> Assessment, records: seq<Record>,
                                      prior: seq<Record>, i: nat)
    requires i < |records|
    ensures |Prepared(lib, assess, records, prior)| == |records|
    ensures Prepared(lib, assess, records, prior)[i]
            == Process(lib, records[i], assess(records[i]), prior + records[..i])
  {
    if i == 0 {
      assert prior + records[..0] == prior;
      if |records| > 1 {
        PreparedAt(lib, assess, records[1..], prior + [records[0]], 0);
      }
    } else {
      PreparedAt(lib, assess, records[1..], prior + [records[0]], i - 1);
      assert prior + [records[0]] + records[1..][..i - 1] == prior + records[..i];
    }
  }

  /** In a batch of one source, a record is a duplicate exactly when a stored or an earlier record has its
      fingerprint. */
  lemma BatchDuplicateIff(lib: Library, assess: Record -> Assessment, records: seq<Record>, prior: seq<Record>,
                          name: string, i: nat)
    requires OneSource(records, name) && OneSource(prior, name) && i < |records|
    ensures i < |Prepared(lib, assess, records, prior)|
    ensures var result := Prepared(lib, assess, records, prior)[i];
            && result.record == records[i]
            && (result.state == Duplicate
                <==> records[i].fingerprint in Fingerprints(prior) + Fingerprints(records[..i]))
            && (result.state != Duplicate ==> result.state == Judged(assess(records[i])))
  {
    PreparedAt(lib, assess, records, prior, i);
    DuplicateIff(lib, records[i], prior + records[..i]);
    var f := records[i].fingerprint;
    if f in Fingerprints(prior) + Fingerprints(records[..i]) {
      var e :| e in prior + records[..i] && e.fingerprint == f;
      assert e.sourceName == name;
    }
  }

  lemma OneMore(f: string, all: set<string>, rest: set<string>, known: set<string>)
    requires all == {f} + rest
    ensures |all - known| == |rest - (known + {f})| + (if f in known then 0 else 1)
  {
    if f in known {
      assert all - known == rest - (known + {f});
    } else {
      assert all - known == rest - (known + {f}) + {f};
    }
  }

  lemma FingerprintsCons(records: seq<Record>)
    requires records != []
    ensures Fingerprints(records) == {records[0].fingerprint} + Fingerprints(records[1..])
  {
    assert forall r :: r in records <==> r == records[0] || r in records[1..];
  }

  lemma FingerprintsSnoc(records: seq<Record>, r: Record)
    ensures Fingerprints(records + [r]) == Fingerprints(records) + {r.fingerprint}
  {
  }

  /** A batch of one source has as many new records as it has fingerprints not stored before. */
  lemma {:induction false} FreshCount(lib: Library, assess: Record -> Assessment, records: seq<Record>,
                                      prior: seq<Record>, name: string)
    requires OneSource(records, name) && OneSource(prior, name)
    ensures Fresh(Prepared(lib, assess, records, prior)) == |Fingerprints(records) - Fingerprints(prior)|
    decreases |records|
  {
    if records == [] {
      assert Fingerprints(records) - Fingerprints(prior) == {};
    } else {
      var r, rest, results := records[0], records[1..], Prepared(lib, assess, records, prior);
      FreshCount(lib, assess, rest, prior + [r], name);
      DuplicateIff(lib, r, prior);
      assert results[1..] == Prepared(lib, assess, rest, prior + [r]);
      FingerprintsCons(records);
      FingerprintsSnoc(prior, r);
      OneMore(r.fingerprint, Fingerprints(records), Fingerprints(rest), Fingerprints(prior));
      if r.fingerprint in Fingerprints(prior) {
        var e :| e in prior && e.fingerprint == r.fingerprint;
      }
    }
  }

  /** Once its records are stored, a batch prepared again is all duplicates. */
  lemma RerunIsAllDuplicates(lib: Library, assess: Record -> Assessment, records: seq<Record>, stored: seq<Record>,
                             i: nat)
    requires i < |records| && forall r :: r in records ==> r in stored
    ensures i < |Prepared(lib, assess, records, stored)|
    ensures Prepared(lib, assess, records, stored)[i].state == Duplicate
    ensures Prepared(lib, assess, records, stored)[i].decision.kind == Replay
  {
    PreparedAt(lib, assess, records, stored, i);
    FirstFinds(stored + records[..i], records[i], IsReplay);
    assert IsReplay(records[i], records[i]) && records[i] in stored;
  }
}
