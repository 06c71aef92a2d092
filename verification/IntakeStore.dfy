/** Persisting phase 1 results: immutable source rows and adjudications, mutable processing state and
    projection, quarantine, and handoffs written once. */
module IntakeStore {
  import opened Wrappers
  import opened Intake

  datatype StateRow = StateRow(state: State, leadId: string)

  datatype QuarantineRow = QuarantineRow(leadId: string, findings: seq<string>, resolved: bool)

  /** Keys of the insert-once rows of observations, findings and duplicate decisions. */
  datatype EvidenceKey = ObservationKey(id: string) | FindingKey(id: string) | DecisionKey(id: string)

  datatype EvidenceRow = Observed(sourceId: string) | Noted(sourceId: string) | Decided(decision: Decision)

  datatype Tables = Tables(
    sources: map<string, Record>,
    states: map<string, StateRow>,
    evidence: map<EvidenceKey, EvidenceRow>,
    projection: map<string, Lead>,
    quarantine: map<string, QuarantineRow>,
    handoffs: map<(string, string), Handoff>)

  datatype Answer = ReplayNoop | Stored(state: State)

  // ---------- persist_result ----------

  function InsertOnce(evidence: map<EvidenceKey, EvidenceRow>, key: EvidenceKey,
                      row: EvidenceRow): map<EvidenceKey, EvidenceRow>
  {
    if key in evidence then evidence else evidence[key := row]
  }

  function InsertObservations(evidence: map<EvidenceKey, EvidenceRow>, sourceId: string,
                              ids: seq<string>): map<EvidenceKey, EvidenceRow>
    decreases |ids|
  {
    if ids == [] then evidence
    else InsertObservations(InsertOnce(evidence, ObservationKey(ids[0]), Observed(sourceId)), sourceId, ids[1..])
  }

  function InsertFindings(evidence: map<EvidenceKey, EvidenceRow>, sourceId: string,
                          ids: seq<string>): map<EvidenceKey, EvidenceRow>
    decreases |ids|
  {
    if ids == [] then evidence
    else InsertFindings(InsertOnce(evidence, FindingKey(ids[0]), Noted(sourceId)), sourceId, ids[1..])
  }

  function Evidenced(evidence: map<EvidenceKey, EvidenceRow>, r: Phase1Result): map<EvidenceKey, EvidenceRow> {
    InsertOnce(InsertFindings(InsertObservations(evidence, r.record.id, r.lead.observations), r.record.id, r.findings),
               DecisionKey(r.decision.decisionId), Decided(r.decision))
  }

  /** Inserted, or updated without touching the time of resolution. */
  function Quarantining(quarantine: map<string, QuarantineRow>, r: Phase1Result): map<string, QuarantineRow> {
    var resolved := r.record.id in quarantine && quarantine[r.record.id].resolved;
    quarantine[r.record.id := QuarantineRow(r.lead.leadId, r.findings, resolved)]
  }

  function Resolving(quarantine: map<string, QuarantineRow>, id: string): map<string, QuarantineRow> {
    if id in quarantine then quarantine[id := quarantine[id].(resolved := true)] else quarantine
  }

  function HandingOff(handoffs: map<(string, string), Handoff>, r: Phase1Result): map<(string, string), Handoff> {
    match r.handoff
    case None => handoffs
    case Some(h) => if (h.leadId, h.canonical) in handoffs then handoffs else handoffs[(h.leadId, h.canonical) := h]
  }

  /** Accepted and duplicate records are done with. */
  predicate Absorbing(s: State) {
    s in {Accepted, AcceptedWithWarnings, Duplicate}
  }

  /** One transaction; None is a collision of source record ids. */
  function Persist(t: Tables, r: Phase1Result): Option<(Tables, Answer)> {
    var id := r.record.id;
    if id in t.sources && t.sources[id].fingerprint != r.record.fingerprint then None
    else if id in t.sources && id in t.states && Absorbing(t.states[id].state) then Some((t, ReplayNoop))
    else
      Some((Tables(if id in t.sources then t.sources else t.sources[id := r.record],
                   t.states[id := StateRow(r.state, r.lead.leadId)],
                   Evidenced(t.evidence, r),
                   t.projection[r.lead.leadId := r.lead],
                   if r.state == Quarantined then Quarantining(t.quarantine, r)
                   else if IsAccepted(r.state) then Resolving(t.quarantine, id)
                   else t.quarantine,
                   HandingOff(t.handoffs, r)),
            Stored(r.state)))
  }

  /** A call whose exception the caller survives. */
  function After(t: Tables, r: Phase1Result): Tables {
    match Persist(t, r)
    case None => t
    case Some((u, _)) => u
  }

  function AnswerTo(t: Tables, r: Phase1Result): Option<Answer> {
    match Persist(t, r)
    case None => None
    case Some((_, answer)) => Some(answer)
  }

  function Run(t: Tables, results: seq<Phase1Result>): Tables
    decreases |results|
  {
    if results == [] then t else Run(After(t, results[0]), results[1..])
  }

  // ---------- what every run keeps ----------

  /** What processing guarantees of a result, whatever the rules of validation were at the time. */
  ghost predicate WellFormed(lib: Library, r: Phase1Result) {
    && r.lead.leadId == LeadId(lib, r.record)
    && (r.handoff.Some? <==> IsAccepted(r.state))
    && (r.handoff.Some? ==> r.handoff.value == Handoff(r.lead.leadId, r.lead.canonical, r.state))
  }

  lemma ProcessingIsWellFormed(lib: Library, r: Record, a: Assessment, existing: seq<Record>)
    ensures WellFormed(lib, Process(lib, r, a, existing))
  {
  }

  ghost predicate HandedOff(t: Tables, leadId: string) {
    exists canonical :: (leadId, canonical) in t.handoffs
  }

  ghost predicate RowInv(lib: Library, t: Tables, id: string)
    requires id in t.sources && id in t.states
  {
    && t.sources[id].id == id
    && t.states[id].leadId == LeadId(lib, t.sources[id])
    && (IsAccepted(t.states[id].state) ==> HandedOff(t, t.states[id].leadId))
    && (t.states[id].state == Quarantined ==> id in t.quarantine)
    && (id in t.quarantine ==> (t.quarantine[id].resolved <==> IsAccepted(t.states[id].state)))
  }

  /** Every source has a state and the lead of its identity; accepted sources are handed off; quarantined
      ones are in quarantine; and a quarantine row is resolved exactly when its source is accepted, so an
      open one belongs to a source in quarantine or to a duplicate. */
  ghost predicate Inv(lib: Library, t: Tables) {
    && t.states.Keys == t.sources.Keys && t.quarantine.Keys <= t.sources.Keys
    && forall id :: id in t.sources ==> RowInv(lib, t, id)
  }

  /** A result is about the record stored under its id, if there is one. */
  ghost predicate SameIdentity(lib: Library, t: Tables, r: Phase1Result) {
    r.record.id in t.sources ==> LeadId(lib, r.record) == LeadId(lib, t.sources[r.record.id])
  }

  lemma HandoffsStay(t: Tables, r: Phase1Result, leadId: string)
    requires HandedOff(t, leadId)
    ensures HandedOff(After(t, r), leadId)
  {
    var canonical :| (leadId, canonical) in t.handoffs;
    assert (leadId, canonical) in After(t, r).handoffs;
  }

  lemma OtherRowKept(lib: Library, t: Tables, r: Phase1Result, id: string)
    requires id in t.sources && id in t.states && RowInv(lib, t, id) && id != r.record.id
    ensures id in After(t, r).sources && id in After(t, r).states && RowInv(lib, After(t, r), id)
  {
    if HandedOff(t, t.states[id].leadId) {
      HandoffsStay(t, r, t.states[id].leadId);
    }
  }

  lemma WrittenRowKept(lib: Library, t: Tables, r: Phase1Result)
    requires Inv(lib, t) && WellFormed(lib, r) && SameIdentity(lib, t, r) && Persist(t, r).Some?
    requires Persist(t, r).value.1 != ReplayNoop
    ensures RowInv(lib, After(t, r), r.record.id)
  {
    if r.record.id in t.sources {
      assert RowInv(lib, t, r.record.id);
    }
    if r.handoff.Some? {
      assert (r.lead.leadId, r.handoff.value.canonical) in After(t, r).handoffs;
    }
  }

  lemma PersistKeeps(lib: Library, t: Tables, r: Phase1Result)
    requires Inv(lib, t) && WellFormed(lib, r) && SameIdentity(lib, t, r)
    ensures Inv(lib, After(t, r))
  {
    if Persist(t, r).Some? && Persist(t, r).value.1 != ReplayNoop {
      WrittenRowKept(lib, t, r);
      forall id | id in After(t, r).sources && id != r.record.id ensures RowInv(lib, After(t, r), id) {
        OtherRowKept(lib, t, r, id);
      }
    }
  }

  // ---------- over any sequence of calls ----------

  /** The id of a record is the hash of its source, key and fingerprint. */
  ghost predicate Derived(lib: Library, r: Record) {
    r.id == lib.sourceId(lib.fold(r.sourceName), r.key, r.fingerprint)
  }

  ghost predicate Injective(lib: Library) {
    forall n, k, f, m, l, g :: lib.sourceId(n, k, f) == lib.sourceId(m, l, g) ==> n == m && k == l && f == g
  }

  /** Results as the pipeline makes them, of records as the adapter makes them. */
  ghost predicate Sound(lib: Library, results: seq<Phase1Result>) {
    forall i :: 0 <= i < |results| ==> WellFormed(lib, results[i]) && Derived(lib, results[i].record)
  }

  ghost predicate AllOfThemDerived(lib: Library, records: seq<Record>) {
    forall i :: 0 <= i < |records| ==> Derived(lib, records[i])
  }

  lemma {:induction false} PreparedLength(lib: Library, assess: Record -> Assessment, records: seq<Record>,
                                          prior: seq<Record>)
    ensures |Prepared(lib, assess, records, prior)| == |records|
    decreases |records|
  {
    if records != [] {
      PreparedLength(lib, assess, records[1..], prior + [records[0]]);
    }
  }

  lemma PreparedIsSound(lib: Library, assess: Record -> Assessment, records: seq<Record>, existing: seq<Record>)
    requires AllOfThemDerived(lib, records)
    ensures |Prepared(lib, assess, records, existing)| == |records|
    ensures Sound(lib, Prepared(lib, assess, records, existing))
  {
    PreparedLength(lib, assess, records, existing);
    forall i | 0 <= i < |records|
      ensures WellFormed(lib, Prepared(lib, assess, records, existing)[i])
      ensures Derived(lib, Prepared(lib, assess, records, existing)[i].record)
    {
      PreparedAt(lib, assess, records, existing, i);
      ProcessingIsWellFormed(lib, records[i], assess(records[i]), existing + records[..i]);
    }
  }

  ghost predicate AllDerived(lib: Library, t: Tables) {
    forall id :: id in t.sources ==> t.sources[id].id == id && Derived(lib, t.sources[id])
  }

  /** Derived ids never collide, so no call ever fails. */
  lemma NoCollisions(lib: Library, t: Tables, r: Phase1Result)
    requires Injective(lib) && AllDerived(lib, t) && Derived(lib, r.record)
    ensures Persist(t, r).Some? && SameIdentity(lib, t, r)
    ensures AllDerived(lib, After(t, r))
  {
  }

  lemma {:induction false} EveryRunKeepsInv(lib: Library, t: Tables, results: seq<Phase1Result>)
    requires Injective(lib) && AllDerived(lib, t) && Inv(lib, t) && Sound(lib, results)
    ensures Inv(lib, Run(t, results)) && AllDerived(lib, Run(t, results))
    decreases |results|
  {
    if results != [] {
      NoCollisions(lib, t, results[0]);
      PersistKeeps(lib, t, results[0]);
      EveryRunKeepsInv(lib, After(t, results[0]), results[1..]);
    }
  }

  /** Source rows and adjudications are never rewritten, and neither are handoffs. */
  ghost predicate OnlyAdded(t: Tables, u: Tables) {
    && (forall id :: id in t.sources ==> id in u.sources && u.sources[id] == t.sources[id])
    && (forall k :: k in t.evidence ==> k in u.evidence && u.evidence[k] == t.evidence[k])
    && (forall k :: k in t.handoffs ==> k in u.handoffs && u.handoffs[k] == t.handoffs[k])
  }

  lemma {:induction false} InsertingAdds(evidence: map<EvidenceKey, EvidenceRow>, sourceId: string, ids: seq<string>)
    ensures forall k :: k in evidence ==>
              k in InsertObservations(evidence, sourceId, ids)
                && InsertObservations(evidence, sourceId, ids)[k] == evidence[k]
    ensures forall k :: k in evidence ==>
              k in InsertFindings(evidence, sourceId, ids) && InsertFindings(evidence, sourceId, ids)[k] == evidence[k]
    decreases |ids|
  {
    if ids != [] {
      InsertingAdds(InsertOnce(evidence, ObservationKey(ids[0]), Observed(sourceId)), sourceId, ids[1..]);
      InsertingAdds(InsertOnce(evidence, FindingKey(ids[0]), Noted(sourceId)), sourceId, ids[1..]);
    }
  }

  lemma PersistOnlyAdds(t: Tables, r: Phase1Result)
    ensures OnlyAdded(t, After(t, r))
  {
    InsertingAdds(t.evidence, r.record.id, r.lead.observations);
    InsertingAdds(InsertObservations(t.evidence, r.record.id, r.lead.observations), r.record.id, r.findings);
  }

  lemma {:induction false} EvidenceIsImmutable(t: Tables, results: seq<Phase1Result>)
    ensures OnlyAdded(t, Run(t, results))
    decreases |results|
  {
    if results != [] {
      PersistOnlyAdds(t, results[0]);
      EvidenceIsImmutable(After(t, results[0]), results[1..]);
    }
  }

  /** Accepted and duplicate are final. */
  lemma {:induction false} AbsorbingStatesStay(t: Tables, results: seq<Phase1Result>, id: string)
    requires id in t.sources && id in t.states && Absorbing(t.states[id].state)
    ensures id in Run(t, results).states && Run(t, results).states[id] == t.states[id]
    decreases |results|
  {
    if results != [] {
      PersistOnlyAdds(t, results[0]);
      AbsorbingStatesStay(After(t, results[0]), results[1..], id);
    }
  }

  // ---------- which result decides ----------

  const NEW_TABLES := Tables(map[], map[], map[], map[], map[], map[])

  /** The first accepted or duplicate result about a record, else the last result about it. */
  function Deciding(results: seq<Phase1Result>, id: string): Option<Phase1Result> {
    if results == [] then None
    else if results[0].record.id != id then Deciding(results[1..], id)
    else if Absorbing(results[0].state) || Deciding(results[1..], id).None? then Some(results[0])
    else Deciding(results[1..], id)
  }

  /** The state is the given result's, and an accepted one is handed off in its own canonical form. */
  ghost predicate DecidedBy(t: Tables, id: string, r: Phase1Result) {
    && id in t.sources && id in t.states && t.states[id] == StateRow(r.state, r.lead.leadId)
    && (IsAccepted(r.state) ==> (r.lead.leadId, r.lead.canonical) in t.handoffs)
  }

  lemma DecidesNow(lib: Library, t: Tables, r: Phase1Result)
    requires Injective(lib) && AllDerived(lib, t) && WellFormed(lib, r) && Derived(lib, r.record)
    requires r.record.id in t.sources && r.record.id in t.states ==> !Absorbing(t.states[r.record.id].state)
    ensures DecidedBy(After(t, r), r.record.id, r)
  {
    NoCollisions(lib, t, r);
  }

  lemma StaysDecided(lib: Library, t: Tables, results: seq<Phase1Result>, id: string, r: Phase1Result)
    requires DecidedBy(t, id, r) && Absorbing(r.state)
    ensures DecidedBy(Run(t, results), id, r)
  {
    EvidenceIsImmutable(t, results);
    AbsorbingStatesStay(t, results, id);
  }

  lemma OthersKeepTheState(t: Tables, r: Phase1Result, id: string)
    requires r.record.id != id
    ensures id in After(t, r).states <==> id in t.states
    ensures id in t.states ==> After(t, r).states[id] == t.states[id]
  {
  }

  lemma {:induction false} UndecidedStays(t: Tables, results: seq<Phase1Result>, id: string)
    requires Deciding(results, id).None?
    ensures id in Run(t, results).states <==> id in t.states
    ensures id in t.states ==> Run(t, results).states[id] == t.states[id]
    decreases |results|
  {
    if results != [] {
      OthersKeepTheState(t, results[0], id);
      UndecidedStays(After(t, results[0]), results[1..], id);
    }
  }

  /** A record that is not done with gets the state of its deciding result. */
  lemma {:induction false} FirstFinalResultDecides(lib: Library, t: Tables, results: seq<Phase1Result>, id: string)
    requires Injective(lib) && AllDerived(lib, t) && Sound(lib, results)
    requires id in t.sources && id in t.states ==> !Absorbing(t.states[id].state)
    requires Deciding(results, id).Some?
    ensures DecidedBy(Run(t, results), id, Deciding(results, id).value)
    decreases |results|
  {
    var r, rest := results[0], results[1..];
    var u := After(t, r);
    NoCollisions(lib, t, r);
    assert Sound(lib, rest);
    if r.record.id != id {
      OthersKeepTheState(t, r, id);
      FirstFinalResultDecides(lib, u, rest, id);
    } else {
      DecidesNow(lib, t, r);
      if Absorbing(r.state) {
        StaysDecided(lib, u, rest, id, r);
      } else if Deciding(rest, id).Some? {
        FirstFinalResultDecides(lib, u, rest, id);
      } else {
        UndecidedStays(u, rest, id);
        EvidenceIsImmutable(u, rest);
      }
    }
  }

  // ---------- any number of batches ----------

  /** One ingestion: the rules in force, the batch, and the records it was prepared against. */
  datatype Batch = Batch(assess: Record -> Assessment, records: seq<Record>, existing: seq<Record>)

  function Results(lib: Library, batches: seq<Batch>): seq<Phase1Result> {
    if batches == [] then []
    else Prepared(lib, batches[0].assess, batches[0].records, batches[0].existing) + Results(lib, batches[1..])
  }

  /** The tables after the batches, one after the other. */
  function Ingested(lib: Library, t: Tables, batches: seq<Batch>): Tables
    decreases |batches|
  {
    if batches == [] then t
    else Ingested(lib, Run(t, Prepared(lib, batches[0].assess, batches[0].records, batches[0].existing)), batches[1..])
  }

  lemma {:induction false} RunConcat(t: Tables, a: seq<Phase1Result>, b: seq<Phase1Result>)
    ensures Run(t, a + b) == Run(Run(t, a), b)
    decreases |a|
  {
    if a == [] {
      assert a + b == b;
    } else {
      assert (a + b)[1..] == a[1..] + b;
      RunConcat(After(t, a[0]), a[1..], b);
    }
  }

  lemma {:induction false} IngestedIsARun(lib: Library, t: Tables, batches: seq<Batch>)
    ensures Ingested(lib, t, batches) == Run(t, Results(lib, batches))
    decreases |batches|
  {
    if batches != [] {
      var first := Prepared(lib, batches[0].assess, batches[0].records, batches[0].existing);
      IngestedIsARun(lib, Run(t, first), batches[1..]);
      RunConcat(t, first, Results(lib, batches[1..]));
    }
  }

  ghost predicate AllBatchesDerived(lib: Library, batches: seq<Batch>) {
    forall i :: 0 <= i < |batches| ==> AllOfThemDerived(lib, batches[i].records)
  }

  lemma {:induction false} ResultsAreSound(lib: Library, batches: seq<Batch>)
    requires AllBatchesDerived(lib, batches)
    ensures Sound(lib, Results(lib, batches))
  {
    if batches != [] {
      assert AllOfThemDerived(lib, batches[0].records);
      PreparedIsSound(lib, batches[0].assess, batches[0].records, batches[0].existing);
      ResultsAreSound(lib, batches[1..]);
    }
  }

  /** What any sequence of batches leaves of new tables, whatever the rules of validation and whatever each
      batch was prepared against: every record has the state of its deciding result, an accepted one is handed
      off in that result's canonical form, a quarantined one has an open quarantine row, and a quarantine row is
      resolved exactly when its record is accepted. */
  lemma WhatIntakeGuarantees(lib: Library, batches: seq<Batch>)
    requires Injective(lib) && AllBatchesDerived(lib, batches)
    ensures var t := Ingested(lib, NEW_TABLES, batches);
            && t.states.Keys == t.sources.Keys
            && (forall id :: id in t.states <==> Deciding(Results(lib, batches), id).Some?)
            && (forall id :: id in t.states ==> DecidedBy(t, id, Deciding(Results(lib, batches), id).value))
            && (forall id :: id in t.states && t.states[id].state == Quarantined ==>
                  id in t.quarantine && !t.quarantine[id].resolved)
            && (forall id :: id in t.quarantine ==>
                  (id in t.states && (t.quarantine[id].resolved <==> IsAccepted(t.states[id].state))))
  {
    IngestedIsARun(lib, NEW_TABLES, batches);
    ResultsAreSound(lib, batches);
    var results := Results(lib, batches);
    EveryRunKeepsInv(lib, NEW_TABLES, results);
    var t := Run(NEW_TABLES, results);
    forall id ensures id in t.states <==> Deciding(results, id).Some?
              ensures id in t.states ==> DecidedBy(t, id, Deciding(results, id).value)
    {
      if Deciding(results, id).Some? {
        FirstFinalResultDecides(lib, NEW_TABLES, results, id);
      } else {
        UndecidedStays(NEW_TABLES, results, id);
      }
    }
    forall id | id in t.states ensures RowInv(lib, t, id) {
    }
  }

  // ---------- persisting again ----------

  lemma {:induction false} ObservationsInserted(evidence: map<EvidenceKey, EvidenceRow>, sourceId: string,
                                                ids: seq<string>)
    ensures forall id :: id in ids ==> ObservationKey(id) in InsertObservations(evidence, sourceId, ids)
    decreases |ids|
  {
    if ids != [] {
      var more := InsertOnce(evidence, ObservationKey(ids[0]), Observed(sourceId));
      InsertingAdds(more, sourceId, ids[1..]);
      ObservationsInserted(more, sourceId, ids[1..]);
    }
  }

  lemma {:induction false} FindingsInserted(evidence: map<EvidenceKey, EvidenceRow>, sourceId: string, ids: seq<string>)
    ensures forall id :: id in ids ==> FindingKey(id) in InsertFindings(evidence, sourceId, ids)
    decreases |ids|
  {
    if ids != [] {
      var more := InsertOnce(evidence, FindingKey(ids[0]), Noted(sourceId));
      InsertingAdds(more, sourceId, ids[1..]);
      FindingsInserted(more, sourceId, ids[1..]);
    }
  }

  lemma {:induction false} ObservationsPresent(evidence: map<EvidenceKey, EvidenceRow>, sourceId: string,
                                               ids: seq<string>)
    requires forall id :: id in ids ==> ObservationKey(id) in evidence
    ensures InsertObservations(evidence, sourceId, ids) == evidence
    decreases |ids|
  {
    if ids != [] {
      assert ids[0] in ids;
      ObservationsPresent(evidence, sourceId, ids[1..]);
    }
  }

  lemma {:induction false} FindingsPresent(evidence: map<EvidenceKey, EvidenceRow>, sourceId: string, ids: seq<string>)
    requires forall id :: id in ids ==> FindingKey(id) in evidence
    ensures InsertFindings(evidence, sourceId, ids) == evidence
    decreases |ids|
  {
    if ids != [] {
      assert ids[0] in ids;
      FindingsPresent(evidence, sourceId, ids[1..]);
    }
  }

  lemma EvidencedTwice(evidence: map<EvidenceKey, EvidenceRow>, r: Phase1Result)
    ensures Evidenced(Evidenced(evidence, r), r) == Evidenced(evidence, r)
  {
    var first := InsertObservations(evidence, r.record.id, r.lead.observations);
    ObservationsInserted(evidence, r.record.id, r.lead.observations);
    InsertingAdds(first, r.record.id, r.findings);
    FindingsInserted(first, r.record.id, r.findings);
    var all := Evidenced(evidence, r);
    ObservationsPresent(all, r.record.id, r.lead.observations);
    FindingsPresent(all, r.record.id, r.findings);
  }

  lemma WrittenOnceIsKnown(t: Tables, r: Phase1Result)
    requires Persist(t, r).Some? && Persist(t, r).value.1 != ReplayNoop
    ensures var u := After(t, r);
            && r.record.id in u.sources && u.sources[r.record.id].fingerprint == r.record.fingerprint
            && r.record.id in u.states && u.states[r.record.id] == StateRow(r.state, r.lead.leadId)
            && u.evidence == Evidenced(t.evidence, r)
  {
  }

  /** A call that would write what is there already. */
  lemma NothingNew(t: Tables, r: Phase1Result)
    requires r.record.id in t.sources && t.sources[r.record.id].fingerprint == r.record.fingerprint
    requires r.record.id in t.states && t.states[r.record.id] == StateRow(r.state, r.lead.leadId)
    requires Evidenced(t.evidence, r) == t.evidence && HandingOff(t.handoffs, r) == t.handoffs
    requires r.lead.leadId in t.projection && t.projection[r.lead.leadId] == r.lead
    requires r.state == Quarantined ==> Quarantining(t.quarantine, r) == t.quarantine
    requires IsAccepted(r.state) ==> Resolving(t.quarantine, r.record.id) == t.quarantine
    ensures Persist(t, r).Some? && After(t, r) == t
  {
  }

  /** Persisting a result a second time changes nothing; times apart, as they are not modelled. */
  lemma PersistingTwiceIsOnce(t: Tables, r: Phase1Result)
    requires Persist(t, r).Some?
    ensures Persist(After(t, r), r).Some? && After(After(t, r), r) == After(t, r)
  {
    if Persist(t, r).value.1 != ReplayNoop {
      WrittenOnceIsKnown(t, r);
      EvidencedTwice(t.evidence, r);
      NothingNew(After(t, r), r);
    }
  }

  // ---------- a batch run again ----------

  function Ids(results: seq<Phase1Result>): set<string> {
    if results == [] then {} else {results[0].record.id} + Ids(results[1..])
  }

  /** Stored records found to be duplicates. */
  ghost predicate Reruns(lib: Library, t: Tables, results: seq<Phase1Result>) {
    forall i :: 0 <= i < |results| ==>
      && results[i].state == Duplicate && results[i].handoff.None?
      && results[i].record.id in t.sources && Derived(lib, results[i].record)
  }

  /** What is in quarantine among the given ids becomes a duplicate; nothing else changes state. */
  ghost predicate Closed(t: Tables, u: Tables, ids: set<string>) {
    && u.sources == t.sources && u.quarantine == t.quarantine && u.handoffs == t.handoffs
    && u.states.Keys == t.states.Keys
    && forall id :: id in t.states ==>
         u.states[id].state == (if id in ids && !Absorbing(t.states[id].state) then Duplicate else t.states[id].state)
  }

  lemma RerunOne(lib: Library, t: Tables, r: Phase1Result)
    requires Injective(lib) && AllDerived(lib, t) && t.states.Keys == t.sources.Keys
    requires Reruns(lib, t, [r])
    ensures Closed(t, After(t, r), {r.record.id}) && AllDerived(lib, After(t, r))
  {
    assert [r][0] == r;
    NoCollisions(lib, t, r);
  }

  lemma {:induction false} RerunCloses(lib: Library, t: Tables, results: seq<Phase1Result>)
    requires Injective(lib) && AllDerived(lib, t) && t.states.Keys == t.sources.Keys
    requires Reruns(lib, t, results)
    ensures Closed(t, Run(t, results), Ids(results))
    decreases |results|
  {
    if results != [] {
      assert Reruns(lib, t, [results[0]]) by {
        assert [results[0]][0] == results[0];
      }
      RerunOne(lib, t, results[0]);
      assert Reruns(lib, After(t, results[0]), results[1..]);
      RerunCloses(lib, After(t, results[0]), results[1..]);
    }
  }

  lemma {:induction false} PreparedIds(lib: Library, assess: Record -> Assessment, records: seq<Record>,
                                       prior: seq<Record>)
    ensures Ids(Prepared(lib, assess, records, prior)) == set r | r in records :: r.id
    decreases |records|
  {
    if records != [] {
      PreparedIds(lib, assess, records[1..], prior + [records[0]]);
      assert Prepared(lib, assess, records, prior)[1..] == Prepared(lib, assess, records[1..], prior + [records[0]]);
      assert forall r :: r in records <==> r == records[0] || r in records[1..];
    }
  }

  lemma PreparedReruns(lib: Library, assess: Record -> Assessment, t: Tables, records: seq<Record>, stored: seq<Record>)
    requires forall r :: r in records ==> r in stored && r.id in t.sources && Derived(lib, r)
    ensures Reruns(lib, t, Prepared(lib, assess, records, stored))
  {
    PreparedLength(lib, assess, records, stored);
    forall i | 0 <= i < |records|
      ensures var r := Prepared(lib, assess, records, stored)[i];
              r.state == Duplicate && r.handoff.None? && r.record.id in t.sources && Derived(lib, r.record)
    {
      RerunIsAllDuplicates(lib, assess, records, stored, i);
      PreparedAt(lib, assess, records, stored, i);
    }
  }

  /** Ingesting stored records again. Sources, quarantine and handoffs stay as they are, and the only states
      that change are those of the batch's quarantined records, which become duplicates. */
  lemma RerunOnlyClosesQuarantined(lib: Library, assess: Record -> Assessment, t: Tables, records: seq<Record>,
                                   stored: seq<Record>)
    requires Injective(lib) && AllDerived(lib, t) && t.states.Keys == t.sources.Keys
    requires forall r :: r in records ==> r in stored && r.id in t.sources && Derived(lib, r)
    ensures Closed(t, Run(t, Prepared(lib, assess, records, stored)), set r | r in records :: r.id)
  {
    PreparedReruns(lib, assess, t, records, stored);
    RerunCloses(lib, t, Prepared(lib, assess, records, stored));
    PreparedIds(lib, assess, records, stored);
  }

  /** The quarantine rows of those records stay open all the same. */
  lemma RerunLeavesQuarantineOpen(lib: Library, assess: Record -> Assessment, t: Tables, records: seq<Record>,
                                  stored: seq<Record>, r: Record)
    requires Injective(lib) && AllDerived(lib, t) && Inv(lib, t)
    requires forall x :: x in records ==> x in stored && x.id in t.sources && Derived(lib, x)
    requires r in records && t.states[r.id].state == Quarantined
    ensures var u := Run(t, Prepared(lib, assess, records, stored));
            && r.id in u.states && u.states[r.id].state == Duplicate
            && r.id in u.quarantine && !u.quarantine[r.id].resolved
  {
    RerunOnlyClosesQuarantined(lib, assess, t, records, stored);
    assert RowInv(lib, t, r.id);
  }

  lemma {:induction false} QuarantineStays(t: Tables, results: seq<Phase1Result>, id: string)
    requires id in t.quarantine
    ensures id in Run(t, results).quarantine
    decreases |results|
  {
    if results != [] {
      QuarantineStays(After(t, results[0]), results[1..], id);
    }
  }

  /** The open row of a duplicate stays open for good: its source is done with. */
  lemma OrphanedQuarantineStaysOpen(lib: Library, t: Tables, results: seq<Phase1Result>, id: string)
    requires Injective(lib) && AllDerived(lib, t) && Inv(lib, t) && Sound(lib, results)
    requires id in t.quarantine && t.states[id].state == Duplicate
    ensures id in Run(t, results).quarantine && !Run(t, results).quarantine[id].resolved
  {
    EveryRunKeepsInv(lib, t, results);
    EvidenceIsImmutable(t, results);
    AbsorbingStatesStay(t, results, id);
    QuarantineStays(t, results, id);
    assert RowInv(lib, Run(t, results), id);
  }

  // ---------- the repository as it runs ----------

  class Phase1Repository {
    var sources: map<string, Record>
    var states: map<string, StateRow>
    var evidence: map<EvidenceKey, EvidenceRow>
    var projection: map<string, Lead>
    var quarantine: map<string, QuarantineRow>
    var handoffs: map<(string, string), Handoff>

    constructor ()
      ensures View() == Tables(map[], map[], map[], map[], map[], map[])
    {
      sources, states, evidence, projection, quarantine, handoffs := map[], map[], map[], map[], map[], map[];
    }

    function View(): Tables
      reads this
    {
      Tables(sources, states, evidence, projection, quarantine, handoffs)
    }

    /** None is the collision error, which leaves the tables as they were. */
    method PersistResult(r: Phase1Result) returns (answer: Option<Answer>)
      modifies this
      ensures View() == After(old(View()), r)
      ensures answer == AnswerTo(old(View()), r)
    {
      var id := r.record.id;
      if id in sources {
        if sources[id].fingerprint != r.record.fingerprint {
          return None;
        }
        if id in states && Absorbing(states[id].state) {
          return Some(ReplayNoop);
        }
      } else {
        sources := sources[id := r.record];
      }
      states := states[id := StateRow(r.state, r.lead.leadId)];
      WriteEvidence(r);
      projection := projection[r.lead.leadId := r.lead];
      if r.state == Quarantined {
        quarantine := Quarantining(quarantine, r);
      } else if IsAccepted(r.state) {
        quarantine := Resolving(quarantine, id);
      }
      if r.handoff.Some? {
        var h := r.handoff.value;
        if (h.leadId, h.canonical) !in handoffs {
          handoffs := handoffs[(h.leadId, h.canonical) := h];
        }
      }
      return Some(Stored(r.state));
    }

    method WriteEvidence(r: Phase1Result)
      modifies this`evidence
      ensures evidence == Evidenced(old(evidence), r)
    {
      for i := 0 to |r.lead.observations|
        invariant InsertObservations(evidence, r.record.id, r.lead.observations[i..])
                  == InsertObservations(old(evidence), r.record.id, r.lead.observations)
      {
        assert r.lead.observations[i..][1..] == r.lead.observations[i + 1..];
        evidence := InsertOnce(evidence, ObservationKey(r.lead.observations[i]), Observed(r.record.id));
      }
      ghost var first := evidence;
      for i := 0 to |r.findings|
        invariant InsertFindings(evidence, r.record.id, r.findings[i..])
                  == InsertFindings(first, r.record.id, r.findings)
      {
        assert r.findings[i..][1..] == r.findings[i + 1..];
        evidence := InsertOnce(evidence, FindingKey(r.findings[i]), Noted(r.record.id));
      }
      evidence := InsertOnce(evidence, DecisionKey(r.decision.decisionId), Decided(r.decision));
    }
  }

  lemma {:induction false} RunSnoc(t: Tables, results: seq<Phase1Result>, r: Phase1Result)
    ensures Run(t, results + [r]) == After(Run(t, results), r)
    decreases |results|
  {
    if results == [] {
      assert results + [r] == [r];
      assert Run(After(t, r), []) == After(t, r);
    } else {
      assert (results + [r])[1..] == results[1..] + [r];
      RunSnoc(After(t, results[0]), results[1..], r);
    }
  }

  lemma RunNext(t: Tables, results: seq<Phase1Result>, i: nat)
    requires i < |results|
    ensures Run(t, results[..i + 1]) == After(Run(t, results[..i]), results[i])
    ensures AnswerTo(Run(t, results[..i]), results[i]).None? ==>
              After(Run(t, results[..i]), results[i]) == Run(t, results[..i])
  {
    assert results[..i + 1] == results[..i] + [results[i]];
    RunSnoc(t, results[..i], results[i]);
  }

  /** Ingesting records with derived ids into tables in good order: no call fails, and the order is kept. */
  lemma IngestionSucceeds(lib: Library, assess: Record -> Assessment, records: seq<Record>, existing: seq<Record>,
                          t: Tables, k: nat)
    requires k <= |records|
    ensures |Prepared(lib, assess, records, existing)| == |records|
    ensures Injective(lib) && AllDerived(lib, t) && Inv(lib, t) && AllOfThemDerived(lib, records) ==>
              var results := Prepared(lib, assess, records, existing);
              && Inv(lib, Run(t, results[..k])) && AllDerived(lib, Run(t, results[..k]))
              && (k < |records| ==> AnswerTo(Run(t, results[..k]), results[k]).Some?)
  {
    PreparedLength(lib, assess, records, existing);
    var results := Prepared(lib, assess, records, existing);
    if Injective(lib) && AllDerived(lib, t) && Inv(lib, t) && AllOfThemDerived(lib, records) {
      PreparedIsSound(lib, assess, records, existing);
      EveryRunKeepsInv(lib, t, results[..k]);
      if k < |records| {
        NoCollisions(lib, Run(t, results[..k]), results[k]);
      }
    }
  }

  /** The ingestion script: prepare the batch against what is stored, then persist it result by result. */
  method Ingest(repository: Phase1Repository, lib: Library, assess: Record -> Assessment, records: seq<Record>,
                existing: seq<Record>)
    returns (persisted: nat)
    modifies repository
    ensures |Prepared(lib, assess, records, existing)| == |records| && persisted <= |records|
    ensures repository.View() == Run(old(repository.View()), Prepared(lib, assess, records, existing)[..persisted])
    ensures persisted < |records| ==>
              AnswerTo(repository.View(), Prepared(lib, assess, records, existing)[persisted]).None?
    ensures Injective(lib) && AllDerived(lib, old(repository.View())) && Inv(lib, old(repository.View()))
            && AllOfThemDerived(lib, records) ==>
              && persisted == |records|
                 && repository.View() == Run(old(repository.View()), Prepared(lib, assess, records, existing))
              && Inv(lib, repository.View()) && AllDerived(lib, repository.View())
  {
    PreparedLength(lib, assess, records, existing);
    var results := PrepareResults(lib, assess, records, existing);
    ghost var t := repository.View();
    persisted := 0;
    while persisted < |results|
      invariant persisted <= |results|
      invariant repository.View() == Run(t, results[..persisted])
    {
      RunNext(t, results, persisted);
      var answer := repository.PersistResult(results[persisted]);
      if answer.None? {
        IngestionSucceeds(lib, assess, records, existing, t, persisted);
        return;
      }
      persisted := persisted + 1;
    }
    assert results[..persisted] == results;
    IngestionSucceeds(lib, assess, records, existing, t, persisted);
  }
}
