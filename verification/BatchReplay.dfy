/** What a closed run says when it is asked for again.

    The run's counters count decisions inserted, the executor's count handoffs worked off. The two agree,
    and the result read back is the result first returned, exactly when no lead is handed off twice. */
module BatchReplay {
  import opened Wrappers
  import opened Matching
  import opened Resolver
  import opened ResumableLoop
  import opened BatchExecutor

  // ---------- decision ids ----------

  /** A digest is cut to 24 hex digits. */
  ghost predicate ShortDigests(lib: Library) {
    forall leadId, scores :: |lib.digest(leadId, scores)| == 24
  }

  lemma AdjudicationNamesLead(lib: Library, lead: Lead, selected: seq<Candidate>, cs: seq<Comparison>,
                              relationships: seq<string>, budget: int)
    ensures var r := Adjudicate(lib, lead, selected, cs, relationships, budget);
            r.Ok? ==>
              r.value.leadId == lead.leadId && r.value.decisionId == DecisionId(lib, lead.leadId, r.value.comparisons)
  {
  }

  lemma ResolutionNamesLead(lib: Library, lead: Lead, candidates: seq<Candidate>, relationships: seq<string>,
                            budget: int)
    ensures var r := Resolve(lib, lead, candidates, relationships, budget);
            r.Ok? ==>
              r.value.leadId == lead.leadId && r.value.decisionId == DecisionId(lib, lead.leadId, r.value.comparisons)
  {
    if budget > 0 {
      var selected := GenerateCandidates(lib, lead, candidates, budget);
      AdjudicationNamesLead(lib, lead, selected, SortDescending(CompareAll(lib, lead, selected)), relationships,
                            budget);
    }
  }

  lemma DecisionIdNamesLead(lib: Library, lead: string, cs: seq<Comparison>, other: string, ds: seq<Comparison>)
    requires ShortDigests(lib) && DecisionId(lib, lead, cs) == DecisionId(lib, other, ds)
    ensures lead == other
  {
    var a, b := "erd:" + lead + ":", "erd:" + other + ":";
    var x, y := lib.digest(lead, IdsAndScores(cs)), lib.digest(other, IdsAndScores(ds));
    assert (a + x)[..|a|] == a && (b + y)[..|b|] == b;
    assert |lead| == |other|;
    assert a[4..4 + |lead|] == lead && b[4..4 + |other|] == other;
  }

  /** The ids of decisions name their lead. */
  ghost predicate Identifying(resolve: ResolveFunction) {
    (forall lead, cs, rs, other, ds, qs ::
          (resolve(lead, cs, rs).Ok? && resolve(other, ds, qs).Ok?
           && resolve(lead, cs, rs).value.decisionId == resolve(other, ds, qs).value.decisionId) ==>
                lead.leadId == other.leadId)
  }

  lemma ResolverIdentifies(lib: Library, budget: int)
    requires ShortDigests(lib)
    ensures Identifying(Resolving(lib, budget))
  {
    var resolve := Resolving(lib, budget);
    forall lead, cs, rs, other, ds, qs
      | resolve(lead, cs, rs).Ok? && resolve(other, ds, qs).Ok?
        && resolve(lead, cs, rs).value.decisionId == resolve(other, ds, qs).value.decisionId
      ensures lead.leadId == other.leadId
    {
      ResolutionNamesLead(lib, lead, cs, rs, budget);
      ResolutionNamesLead(lib, other, ds, qs, budget);
      DecisionIdNamesLead(lib, lead.leadId, Resolve(lib, lead, cs, rs, budget).value.comparisons,
                          other.leadId, Resolve(lib, other, ds, qs, budget).value.comparisons);
    }
  }

  // ---------- the counters of a run ----------

  function LeadIds(leads: seq<Lead>, n: nat): set<string>
    requires n <= |leads|
  {
    if n == 0 then {} else LeadIds(leads, n - 1) + {leads[n - 1].leadId}
  }

  ghost predicate DistinctLeads(leads: seq<Lead>) {
    forall i, j :: 0 <= i < j < |leads| ==> leads[i].leadId != leads[j].leadId
  }

  /** The run after the first `n` handoffs: only the first handoff of a lead is counted. */
  function RunAfter(job: Job, n: nat): Run
    requires n <= |job.leads|
  {
    if n == 0 then NewRun(job.requestKey, job.version)
    else
      var lead := job.leads[n - 1];
      match Decide(job, lead)
      case Some(d) =>
        if lead.leadId in LeadIds(job.leads, n - 1) then RunAfter(job, n - 1)
        else Counted(RunAfter(job, n - 1), CandidatesOf(job, lead), d)
      case None => RunAfter(job, n - 1)
  }

  ghost predicate AllDecided(job: Job, n: nat)
    requires n <= |job.leads|
  {
    forall i :: 0 <= i < n ==> Decide(job, job.leads[i]).Some?
  }

  /** No row or counter of this run exists. */
  ghost predicate FreshRun(t: Tables, runId: string) {
    && runId !in t.runs
    && (forall id :: DecisionKey(runId, id) !in t.rows)
    && (forall leadId :: (runId, leadId) !in t.decided)
  }

  ghost predicate DecidedBy(job: Job, n: nat, id: string)
    requires n <= |job.leads|
  {
    exists i :: 0 <= i < n && Decide(job, job.leads[i]).Some? && Decide(job, job.leads[i]).value.decisionId == id
  }

  ghost predicate Counting(job: Job, t: Tables, runId: string, n: nat)
    requires n <= |job.leads|
  {
    && runId in t.runs && t.runs[runId] == RunAfter(job, n)
    && AllDecided(job, n)
    && (forall leadId :: (runId, leadId) in t.decided <==> leadId in LeadIds(job.leads, n))
    && (forall id :: DecisionKey(runId, id) in t.rows <==> DecidedBy(job, n, id))
  }

  lemma {:induction false} CandidateWriteKeys(runId: string, leadId: string, candidates: seq<Candidate>)
    ensures forall w :: w in CandidateWrites(runId, leadId, candidates) ==> w.key.CandidateKey?
  {
    if candidates != [] {
      CandidateWriteKeys(runId, leadId, candidates[1..]);
    }
  }

  lemma {:induction false} ComparisonWriteKeys(runId: string, leadId: string, comparisons: seq<Comparison>)
    ensures forall w :: w in ComparisonWrites(runId, leadId, comparisons) ==> w.key.ComparisonKey?
  {
    if comparisons != [] {
      ComparisonWriteKeys(runId, leadId, comparisons[1..]);
    }
  }

  lemma {:induction false} RelationshipWriteKeys(runId: string, leadId: string, relationships: seq<string>)
    ensures forall w :: w in RelationshipWrites(runId, leadId, relationships) ==> w.key.RelationshipKey?
  {
    if relationships != [] {
      RelationshipWriteKeys(runId, leadId, relationships[1..]);
    }
  }

  lemma {:induction false} TraceWriteKeys(runId: string, decisionId: string, trace: seq<TraceEvent>, from: nat)
    requires from <= |trace|
    ensures forall w :: w in TraceWrites(runId, decisionId, trace, from) ==> w.key.TraceKey?
    decreases |trace| - from
  {
    if from < |trace| {
      TraceWriteKeys(runId, decisionId, trace, from + 1);
    }
  }

  /** A lead writes exactly one decision row. */
  lemma OneDecisionWritten(rows: map<RowKey, Row>, runId: string, candidates: seq<Candidate>, d: Decision, id: string)
    ensures DecisionKey(runId, id) in InsertAll(rows, Writes(runId, candidates, d))
            <==> DecisionKey(runId, id) in rows || id == d.decisionId
  {
    InsertAllAdds(rows, Writes(runId, candidates, d));
    CandidateWriteKeys(runId, d.leadId, candidates);
    ComparisonWriteKeys(runId, d.leadId, d.comparisons);
    RelationshipWriteKeys(runId, d.leadId, d.relationships);
    TraceWriteKeys(runId, d.decisionId, d.trace, 0);
    DecisionIsWritten(runId, candidates, d);
  }

  lemma {:induction false} EarlierLead(leads: seq<Lead>, n: nat, i: nat)
    requires i < n <= |leads|
    ensures leads[i].leadId in LeadIds(leads, n)
  {
    if i < n - 1 {
      EarlierLead(leads, n - 1, i);
    }
  }

  lemma DecidedLead(job: Job, n: nat, lead: Lead)
    requires Identifying(job.resolve) && n <= |job.leads| && Decide(job, lead).Some?
    requires DecidedBy(job, n, Decide(job, lead).value.decisionId)
    ensures lead.leadId in LeadIds(job.leads, n)
  {
    var i :| 0 <= i < n && Decide(job, job.leads[i]).Some?
             && Decide(job, job.leads[i]).value.decisionId == Decide(job, lead).value.decisionId;
    EarlierLead(job.leads, n, i);
  }

  /** A decision is inserted exactly when its lead has not been decided in this run. */
  lemma InsertedIffNew(job: Job, t: Tables, runId: string, n: nat)
    requires Identifying(job.resolve) && n < |job.leads| && Counting(job, t, runId, n)
    requires Step(job, t, runId, job.leads[n]).Some?
    ensures DecisionKey(runId, Decide(job, job.leads[n]).value.decisionId) in t.rows
            <==> job.leads[n].leadId in LeadIds(job.leads, n)
  {
    var lead := job.leads[n];
    if DecisionKey(runId, Decide(job, lead).value.decisionId) in t.rows {
      DecidedLead(job, n, lead);
    } else {
      assert (runId, lead.leadId) !in t.decided;
    }
  }

  lemma DecisionRowsTracked(job: Job, t: Tables, runId: string, n: nat)
    requires n < |job.leads| && Step(job, t, runId, job.leads[n]).Some?
    requires forall id :: DecisionKey(runId, id) in t.rows <==> DecidedBy(job, n, id)
    ensures forall id ::
              DecisionKey(runId, id) in Step(job, t, runId, job.leads[n]).value.rows <==> DecidedBy(job, n + 1, id)
  {
    var d := Decide(job, job.leads[n]).value;
    forall id
      ensures DecisionKey(runId, id) in Step(job, t, runId, job.leads[n]).value.rows <==> DecidedBy(job, n + 1, id)
    {
      OneDecisionWritten(t.rows, runId, CandidatesOf(job, job.leads[n]), d, id);
      assert DecidedBy(job, n + 1, id) <==> DecidedBy(job, n, id) || id == d.decisionId;
    }
  }

  lemma CountersTracked(job: Job, t: Tables, runId: string, n: nat, next: Tables)
    requires Identifying(job.resolve) && n < |job.leads| && Counting(job, t, runId, n)
    requires Step(job, t, runId, job.leads[n]) == Some(next)
    ensures runId in next.runs && next.runs[runId] == RunAfter(job, n + 1)
    ensures forall leadId :: (runId, leadId) in next.decided <==> leadId in LeadIds(job.leads, n + 1)
  {
    var lead := job.leads[n];
    InsertedIffNew(job, t, runId, n);
    if lead.leadId in LeadIds(job.leads, n) {
      assert next.runs == t.runs && next.decided == t.decided;
      assert LeadIds(job.leads, n + 1) == LeadIds(job.leads, n);
    } else {
      assert next.decided == t.decided + {(runId, lead.leadId)};
    }
  }

  lemma StepCounts(job: Job, t: Tables, runId: string, n: nat, next: Tables)
    requires Identifying(job.resolve) && n < |job.leads| && Counting(job, t, runId, n)
    requires Step(job, t, runId, job.leads[n]) == Some(next)
    ensures Counting(job, next, runId, n + 1)
  {
    CountersTracked(job, t, runId, n, next);
    DecisionRowsTracked(job, t, runId, n);
  }

  /** The counters follow the loop. */
  ghost function Tracked(job: Job, runId: string): (Tables, nat) -> bool {
    (u: Tables, i: nat) => i <= |job.leads| && Counting(job, u, runId, i)
  }

  /** Every turn that is taken leaves the counters right. */
  ghost predicate TurnsTracked(job: Job, turn: (Tables, Lead) -> Option<Tables>, holds: (Tables, nat) -> bool) {
    forall u, i: nat :: i < |job.leads| && holds(u, i) && turn(u, job.leads[i]).Some? ==>
         holds(turn(u, job.leads[i]).value, i + 1)
  }

  lemma TurnsCount(job: Job, runId: string)
    requires Identifying(job.resolve)
    ensures TurnsTracked(job, BatchOf(job).turn(runId), Tracked(job, runId))
  {
    forall u, i: nat | i < |job.leads| && Counting(job, u, runId, i) && Step(job, u, runId, job.leads[i]).Some?
      ensures Counting(job, Step(job, u, runId, job.leads[i]).value, runId, i + 1)
    {
      StepCounts(job, u, runId, i, Step(job, u, runId, job.leads[i]).value);
    }
  }

  lemma OpenedCounts(job: Job, t: Tables, runId: string)
    requires FreshRun(t, runId)
    ensures Tracked(job, runId)(Opened(BatchOf(job), t, runId), 0)
  {
  }

  lemma LoopCounts(job: Job, t: Tables, runId: string, n: nat)
    requires Identifying(job.resolve) && n <= |job.leads| && FreshRun(t, runId)
    ensures var p := Loop(BatchOf(job).turn(runId), Opened(BatchOf(job), t, runId), job.leads, n);
            Counting(job, p.state, runId, p.done)
  {
    var turn, holds, start := BatchOf(job).turn(runId), Tracked(job, runId), Opened(BatchOf(job), t, runId);
    TurnsCount(job, runId);
    OpenedCounts(job, t, runId);
    LoopTracks(turn, holds, start, job.leads, n);
    assert holds(Loop(turn, start, job.leads, n).state, Loop(turn, start, job.leads, n).done);
  }

  // ---------- the result read back ----------

  lemma {:induction false} LeadIdsAre(leads: seq<Lead>, n: nat, id: string)
    requires n <= |leads|
    ensures id in LeadIds(leads, n) <==> exists i :: 0 <= i < n && leads[i].leadId == id
  {
    if n > 0 {
      LeadIdsAre(leads, n - 1, id);
    }
  }

  lemma {:induction false} LeadIdsCount(leads: seq<Lead>, n: nat)
    requires n <= |leads|
    ensures |LeadIds(leads, n)| <= n
    ensures |LeadIds(leads, n)| == n <==> DistinctLeads(leads[..n])
  {
    if n > 0 {
      LeadIdsCount(leads, n - 1);
      assert leads[..n] == leads[..n - 1] + [leads[n - 1]];
      LeadIdsAre(leads, n - 1, leads[n - 1].leadId);
    }
  }

  /** The tables count leads, ... */
  lemma {:induction false} RunCountsLeads(job: Job, n: nat)
    requires n <= |job.leads| && AllDecided(job, n)
    ensures RunAfter(job, n).decisionCount == RunAfter(job, n).inputCount == |LeadIds(job.leads, n)|
  {
    if n > 0 {
      RunCountsLeads(job, n - 1);
      assert Decide(job, job.leads[n - 1]).Some?;
      if job.leads[n - 1].leadId in LeadIds(job.leads, n - 1) {
        assert LeadIds(job.leads, n) == LeadIds(job.leads, n - 1);
      }
    }
  }

  lemma TalliedOnce(job: Job, lead: Lead, d: Decision, tally: Counts)
    ensures Tallied(job, lead, d, tally).decisions == tally.decisions + 1
    ensures Tallied(job, lead, d, tally).research == tally.research + (if d.researchRequired then 1 else 0)
  {
  }

  /** ... the executor counts handoffs, ... */
  lemma {:induction false} ExecutorCountsHandoffs(job: Job, n: nat)
    requires n <= |job.leads| && AllDecided(job, n)
    ensures CountsAfter(job, n).decisions == n
  {
    if n > 0 {
      ExecutorCountsHandoffs(job, n - 1);
      TalliedOnce(job, job.leads[n - 1], Decide(job, job.leads[n - 1]).value, CountsAfter(job, n - 1));
    }
  }

  /** ... and where the two agree, so do their counts of what needs research. */
  lemma {:induction false} EscalationsAgree(job: Job, n: nat)
    requires n <= |job.leads| && AllDecided(job, n) && |LeadIds(job.leads, n)| == n
    ensures RunAfter(job, n).escalationCount == CountsAfter(job, n).research
  {
    if n > 0 {
      LeadIdsCount(job.leads, n - 1);
      EscalationsAgree(job, n - 1);
    }
  }

  /** The run a returned attempt leaves behind. */
  lemma ReturnedRun(job: Job, t: Tables, runId: string, whole: Attempted)
    requires Identifying(job.resolve) && FreshRun(t, runId)
    requires whole == Whole(BatchOf(job), Opened(BatchOf(job), t, runId), runId) && whole.ending.Returned?
    ensures whole.ending == Returned(ResultOf(job, runId, CountsAfter(job, |job.leads|)))
    ensures runId in whole.state.runs
    ensures whole.state.runs[runId] == RunAfter(job, |job.leads|).(status := Completed,
                                                                   metadata := Summary(CountsAfter(job, |job.leads|)))
    ensures AllDecided(job, |job.leads|)
  {
    var p := Loop(BatchOf(job).turn(runId), Opened(BatchOf(job), t, runId), job.leads, |job.leads|);
    LoopCounts(job, t, runId, |job.leads|);
    assert whole == Finish(job, runId, p);
  }

  /** Asking for a completed run again. Nothing is written, and the answer is the first one, except that
      inputs and decisions are counted once a lead: it is the very same answer if and only if no lead was
      handed off twice. The escalations on record are then those reported, too. */
  lemma ReplayIsFaithful(job: Job, t: Tables, runId: string, laterId: string, commits: nat, whole: Attempted,
                         later: Attempted)
    requires Identifying(job.resolve) && FreshRun(t, runId) && BatchOf(job).legal && job.requestKey !in t.keys
    requires commits > 0
    requires whole == Attempt(BatchOf(job), t, runId, Uninterrupted(BatchOf(job))) && whole.ending.Returned?
    requires later == Attempt(BatchOf(job), whole.state, laterId, commits)
    ensures later.state == whole.state
    ensures var leads := |LeadIds(job.leads, |job.leads|)|;
            later.ending == Returned(whole.ending.result.(inputCount := leads, decisionCount := leads))
    ensures later.ending == whole.ending <==> DistinctLeads(job.leads)
    ensures runId in whole.state.runs
    ensures DistinctLeads(job.leads) ==> whole.state.runs[runId].escalationCount == whole.ending.result.research
  {
    var b := BatchOf(job);
    var start := Opened(b, t, runId);
    assert whole == Whole(b, start, runId);
    ReturnedRun(job, t, runId, whole);
    BatchIsRestartable(job);
    WholeCloses(b, Settled(job), start, runId);
    ClosedRunIsLeftAlone(b, whole.state, runId, laterId, commits);
    RunCountsLeads(job, |job.leads|);
    ExecutorCountsHandoffs(job, |job.leads|);
    LeadIdsCount(job.leads, |job.leads|);
    assert job.leads[..|job.leads|] == job.leads;
    if DistinctLeads(job.leads) {
      EscalationsAgree(job, |job.leads|);
    }
  }

  /** Crashes do not show: when no lead is handed off twice and an undisturbed execution returns, then
      whatever attempts died before, the last one leaves its tables and returns its result. */
  lemma CrashesDoNotShow(job: Job, t: Tables, runId: string, commits: nat, attempts: seq<(string, nat)>, lastId: string,
                         before: Tables, whole: Attempted)
    requires Identifying(job.resolve) && FreshRun(t, runId) && BatchOf(job).legal && job.requestKey !in t.keys
    requires commits > 0
    requires DistinctLeads(job.leads)
    requires whole == Attempt(BatchOf(job), t, runId, Uninterrupted(BatchOf(job))) && whole.ending.Returned?
    requires before == RunAttempts(BatchOf(job), Attempt(BatchOf(job), t, runId, commits).state, attempts)
    ensures Attempt(BatchOf(job), before, lastId, Uninterrupted(BatchOf(job))) == whole
  {
    var b := BatchOf(job);
    var last := Attempt(b, before, lastId, Uninterrupted(b));
    CrashEquivalence(job, t, runId, commits, attempts, lastId);
    if last.ending != whole.ending {
      ReplayIsFaithful(job, t, runId, lastId, Uninterrupted(b), whole, last);
    }
  }

  // ---------- when an undisturbed attempt returns ----------

  /** The lead gets the decision of this id, and its candidates can be stored. */
  ghost predicate Answers(job: Job, lead: Lead, id: string) {
    Storable(job.candidateInsert, CandidatesOf(job, lead)) && Decide(job, lead).Some?
      && Decide(job, lead).value.leadId == lead.leadId && Decide(job, lead).value.decisionId == id
  }

  /** Every handoff gets a decision and its candidates can be stored, and two handoffs of one lead get the same
      decision. */
  ghost predicate Consistent(job: Job, n: nat)
    requires n <= |job.leads|
  {
    && (forall i :: 0 <= i < n ==>
          Decide(job, job.leads[i]).Some? && Answers(job, job.leads[i], Decide(job, job.leads[i]).value.decisionId))
    && (forall i, j :: 0 <= i < j < n && job.leads[i].leadId == job.leads[j].leadId
          ==> Decide(job, job.leads[i]).value.decisionId == Decide(job, job.leads[j]).value.decisionId)
  }

  lemma StepTakenIff(job: Job, t: Tables, runId: string, lead: Lead)
    ensures Step(job, t, runId, lead).Some?
            <==> Decide(job, lead).Some? && Answers(job, lead, Decide(job, lead).value.decisionId)
                 && (DecisionKey(runId, Decide(job, lead).value.decisionId) in t.rows
                     || (runId, lead.leadId) !in t.decided)
  {
  }

  lemma ConsistentRepeats(job: Job, n: nat, id: string)
    requires n < |job.leads| && Consistent(job, n + 1) && Answers(job, job.leads[n], id)
    requires job.leads[n].leadId in LeadIds(job.leads, n)
    ensures DecidedBy(job, n, id)
  {
    LeadIdsAre(job.leads, n, job.leads[n].leadId);
    var i :| 0 <= i < n && job.leads[i].leadId == job.leads[n].leadId;
    assert Decide(job, job.leads[i]).value.decisionId == id;
  }

  /** An id decided before is that of the lead's earlier handoffs. */
  lemma DecidedBefore(job: Job, n: nat, id: string, i: nat)
    requires Identifying(job.resolve) && n < |job.leads| && Consistent(job, n) && Answers(job, job.leads[n], id)
    requires DecidedBy(job, n, id)
    requires i < n && job.leads[i].leadId == job.leads[n].leadId
    ensures Decide(job, job.leads[i]).value.decisionId == id
  {
    var k :| 0 <= k < n && Decide(job, job.leads[k]).Some? && Decide(job, job.leads[k]).value.decisionId == id;
    assert job.leads[k].leadId == job.leads[n].leadId;
    assert i < k || i == k || k < i;
  }

  lemma ConsistentNext(job: Job, n: nat, id: string)
    requires Identifying(job.resolve) && n < |job.leads| && Consistent(job, n) && Answers(job, job.leads[n], id)
    ensures Consistent(job, n + 1) <==> DecidedBy(job, n, id) || job.leads[n].leadId !in LeadIds(job.leads, n)
  {
    LeadIdsAre(job.leads, n, job.leads[n].leadId);
    if Consistent(job, n + 1) && job.leads[n].leadId in LeadIds(job.leads, n) {
      ConsistentRepeats(job, n, id);
    }
    if DecidedBy(job, n, id) {
      forall i | 0 <= i < n && job.leads[i].leadId == job.leads[n].leadId
        ensures Decide(job, job.leads[i]).value.decisionId == id
      {
        DecidedBefore(job, n, id, i);
      }
    }
  }

  lemma StepTaken(job: Job, t: Tables, runId: string, n: nat)
    requires Identifying(job.resolve) && n < |job.leads| && Counting(job, t, runId, n) && Consistent(job, n)
    ensures Step(job, t, runId, job.leads[n]).Some? <==> Consistent(job, n + 1)
  {
    StepTakenIff(job, t, runId, job.leads[n]);
    if Decide(job, job.leads[n]).Some? && Answers(job, job.leads[n], Decide(job, job.leads[n]).value.decisionId) {
      ConsistentNext(job, n, Decide(job, job.leads[n]).value.decisionId);
    }
  }

  ghost function ConsistentUpTo(job: Job): nat -> bool {
    (i: nat) => i <= |job.leads| && Consistent(job, i)
  }

  /** Which turns are taken. */
  ghost predicate TurnsTakenIff(job: Job, turn: (Tables, Lead) -> Option<Tables>, holds: (Tables, nat) -> bool,
                                good: nat -> bool)
  {
    && (forall u, i: nat :: i < |job.leads| && holds(u, i) && good(i) ==>
          (turn(u, job.leads[i]).Some? <==> good(i + 1)))
    && (forall i: nat :: i < |job.leads| && !good(i) ==> !good(i + 1))
  }

  lemma TurnsTaken(job: Job, runId: string)
    requires Identifying(job.resolve)
    ensures TurnsTakenIff(job, BatchOf(job).turn(runId), Tracked(job, runId), ConsistentUpTo(job))
  {
    forall u, i: nat | i < |job.leads| && Counting(job, u, runId, i) && Consistent(job, i)
      ensures Step(job, u, runId, job.leads[i]).Some? <==> Consistent(job, i + 1)
    {
      StepTaken(job, u, runId, i);
    }
    forall i: nat | i < |job.leads| && Consistent(job, i + 1) ensures Consistent(job, i) {
    }
  }

  lemma LoopRaisesIff(job: Job, t: Tables, runId: string, n: nat)
    requires Identifying(job.resolve) && n <= |job.leads| && FreshRun(t, runId)
    ensures !Loop(BatchOf(job).turn(runId), Opened(BatchOf(job), t, runId), job.leads, n).raised <==> Consistent(job, n)
  {
    var turn, holds, good := BatchOf(job).turn(runId), Tracked(job, runId), ConsistentUpTo(job);
    TurnsCount(job, runId);
    TurnsTaken(job, runId);
    OpenedCounts(job, t, runId);
    LoopCompletes(turn, holds, good, Opened(BatchOf(job), t, runId), job.leads, n);
  }

  /** An undisturbed attempt returns a result, rather than fail for good, exactly when every handoff gets a
      decision, no lead two different ones, and all candidates can be stored: the tables admit one decision a
      lead and run, and the driver no statement with a placeholder too many. */
  lemma ReturnsIffConsistent(job: Job, t: Tables, runId: string)
    requires Identifying(job.resolve) && FreshRun(t, runId) && BatchOf(job).legal && job.requestKey !in t.keys
    ensures Attempt(BatchOf(job), t, runId, Uninterrupted(BatchOf(job))).ending.Returned?
            <==> Consistent(job, |job.leads|)
  {
    LoopRaisesIff(job, t, runId, |job.leads|);
  }

  // ---------- rows are never rewritten ----------

  ghost predicate Extends(rows: map<RowKey, Row>, more: map<RowKey, Row>) {
    forall k :: k in rows ==> k in more && more[k] == rows[k]
  }

  /** Turns, openings and closings keep a property of the tables. */
  ghost predicate KeptBy(b: Batch, holds: Tables -> bool) {
    && (forall runId :: Keeps(b.turn(runId), holds))
    && (forall runId, p: Progress<Tables> :: holds(p.state) ==> holds(b.finish(runId)(p).state))
    && (forall u, freshId :: holds(u) ==> holds(Opened(b, u, freshId)))
  }

  lemma WorkKeeps(b: Batch, holds: Tables -> bool, t: Tables, runId: string, commits: nat)
    requires KeptBy(b, holds) && holds(t)
    ensures holds(WorkOn(b, t, runId, commits).state)
  {
    LoopKeeps(b.turn(runId), holds, t, b.leads, if commits < |b.leads| then commits else |b.leads|);
  }

  lemma AttemptKeeps(b: Batch, holds: Tables -> bool, t: Tables, freshId: string, commits: nat)
    requires KeptBy(b, holds) && holds(t)
    ensures holds(Attempt(b, t, freshId, commits).state)
  {
    if commits > 0 {
      WorkKeeps(b, holds, Opened(b, t, freshId), freshId, commits - 1);
      if b.requestKey in t.keys {
        WorkKeeps(b, holds, t, t.keys[b.requestKey], commits - 1);
      }
    }
  }

  lemma {:induction false} AttemptsKeep(b: Batch, holds: Tables -> bool, t: Tables, attempts: seq<(string, nat)>)
    requires KeptBy(b, holds) && holds(t)
    ensures holds(RunAttempts(b, t, attempts))
    decreases |attempts|
  {
    if attempts != [] {
      AttemptKeeps(b, holds, t, attempts[0].0, attempts[0].1);
      AttemptsKeep(b, holds, Attempt(b, t, attempts[0].0, attempts[0].1).state, attempts[1..]);
    }
  }

  /** Candidates, comparisons, decisions and traces are immutable, over any number of attempts. */
  lemma RowsAreImmutable(job: Job, t: Tables, attempts: seq<(string, nat)>)
    ensures Extends(t.rows, RunAttempts(BatchOf(job), t, attempts).rows)
  {
    var b, holds := BatchOf(job), (u: Tables) => Extends(t.rows, u.rows);
    forall runId, u, lead | holds(u) && b.turn(runId)(u, lead).Some? ensures holds(b.turn(runId)(u, lead).value) {
      StepAbsorbs(job, u, runId, lead);
    }
    AttemptsKeep(b, holds, t, attempts);
  }
}
