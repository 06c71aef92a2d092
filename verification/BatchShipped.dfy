/** The batch with the statements as they are written.

    The statement that inserts a candidate has 26 columns and is passed 26 values, but has 27 placeholders. The
    driver refuses it, so no lead with candidates is ever persisted. */
module BatchShipped {
  import opened Wrappers
  import opened Text
  import opened Resolver
  import opened ResumableLoop
  import opened BatchExecutor
  import opened BatchReplay
  import Matching

  /** No candidates come up: the provider finds none, or is not available. */
  predicate FindsNothing(job: Job, lead: Matching.Lead) {
    !job.provider(lead).Broke? && CandidatesOf(job, lead) == []
  }

  // ---------- no candidate is ever stored ----------

  /** The candidates on file are those that were. */
  predicate SameCandidates(rows: map<RowKey, Row>, more: map<RowKey, Row>) {
    forall k :: k in more && k.CandidateKey? ==> k in rows && rows[k] == more[k]
  }

  lemma WritesNoCandidate(runId: string, d: Decision)
    ensures forall w :: w in Writes(runId, [], d) ==> !w.key.CandidateKey?
  {
    ComparisonWriteKeys(runId, d.leadId, d.comparisons);
    RelationshipWriteKeys(runId, d.leadId, d.relationships);
    TraceWriteKeys(runId, d.decisionId, d.trace, 0);
  }

  lemma {:induction false} InsertsNoCandidate(rows: map<RowKey, Row>, ws: seq<Write>)
    requires forall w :: w in ws ==> !w.key.CandidateKey?
    ensures SameCandidates(rows, InsertAll(rows, ws))
    decreases |ws|
  {
    if ws != [] {
      assert ws[0] in ws;
      InsertsNoCandidate(InsertOnce(rows, ws[0]), ws[1..]);
    }
  }

  lemma StepStoresNone(job: Job, rows: map<RowKey, Row>, t: Tables, runId: string, lead: Matching.Lead)
    requires !Executes(job.candidateInsert) && SameCandidates(rows, t.rows) && Step(job, t, runId, lead).Some?
    ensures SameCandidates(rows, Step(job, t, runId, lead).value.rows)
  {
    WritesNoCandidate(runId, Decide(job, lead).value);
    InsertsNoCandidate(t.rows, Writes(runId, [], Decide(job, lead).value));
  }

  /** Whatever provider and resolver say, and however many attempts are made. */
  lemma NoCandidateIsStored(job: Job, t: Tables, attempts: seq<(string, nat)>)
    requires !Executes(job.candidateInsert)
    ensures SameCandidates(t.rows, RunAttempts(BatchOf(job), t, attempts).rows)
  {
    var b, holds := BatchOf(job), (u: Tables) => SameCandidates(t.rows, u.rows);
    forall runId, u, lead | holds(u) && b.turn(runId)(u, lead).Some? ensures holds(b.turn(runId)(u, lead).value) {
      StepStoresNone(job, t.rows, u, runId, lead);
    }
    AttemptsKeep(b, holds, t, attempts);
  }

  // ---------- which batches return, and with what ----------

  /** Without candidates the resolver answers "unresolved", with one and the same id for a lead. */
  lemma NothingResolves(lib: Matching.Library, lead: Matching.Lead, relationships: seq<string>, budget: int)
    requires budget > 0
    ensures var r := Resolve(lib, lead, [], relationships, budget);
            && r.Ok? && r.value.leadId == lead.leadId && r.value.decisionId == DecisionId(lib, lead.leadId, [])
            && !IsMatch(r.value.status) && r.value.researchRequired
  {
  }

  lemma NothingIsDecided(lib: Matching.Library, job: Job, lead: Matching.Lead)
    requires job.resolve == Resolving(lib, job.budget) && job.budget > 0 && FindsNothing(job, lead)
    ensures Answers(job, lead, DecisionId(lib, lead.leadId, []))
    ensures !IsMatch(Decide(job, lead).value.status) && Decide(job, lead).value.researchRequired
  {
    match job.provider(lead)
    case Unavailable => NothingResolves(lib, lead, [], job.budget);
    case Found(_, relationships) => NothingResolves(lib, lead, relationships, job.budget);
  }

  lemma ConsistentIffNothingFound(lib: Matching.Library, job: Job)
    requires job.resolve == Resolving(lib, job.budget) && job.budget > 0 && !Executes(job.candidateInsert)
    ensures Consistent(job, |job.leads|) <==> forall i :: 0 <= i < |job.leads| ==> FindsNothing(job, job.leads[i])
  {
    if forall i :: 0 <= i < |job.leads| ==> FindsNothing(job, job.leads[i]) {
      forall i | 0 <= i < |job.leads| ensures Answers(job, job.leads[i], DecisionId(lib, job.leads[i].leadId, [])) {
        NothingIsDecided(lib, job, job.leads[i]);
      }
    }
  }

  lemma {:induction false} NothingIsMatched(lib: Matching.Library, job: Job, n: nat)
    requires job.resolve == Resolving(lib, job.budget) && job.budget > 0 && n <= |job.leads|
    requires forall i :: 0 <= i < n ==> FindsNothing(job, job.leads[i])
    ensures CountsAfter(job, n).matched == 0 && CountsAfter(job, n).research == CountsAfter(job, n).decisions == n
  {
    if n > 0 {
      NothingIsMatched(lib, job, n - 1);
      NothingIsDecided(lib, job, job.leads[n - 1]);
    }
  }

  /** A batch returns if and only if no lead has candidates, and then it has matched nobody and every lead needs
      research; any other batch fails for good. */
  lemma ShippedReturnsIff(lib: Matching.Library, job: Job, t: Tables, runId: string)
    requires ShortDigests(lib) && job.resolve == Resolving(lib, job.budget) && job.candidateInsert == CANDIDATE_INSERT
    requires FreshRun(t, runId) && BatchOf(job).legal && job.requestKey !in t.keys
    ensures var ending := Attempt(BatchOf(job), t, runId, Uninterrupted(BatchOf(job))).ending;
            && (ending.Returned? <==> forall i :: 0 <= i < |job.leads| ==> FindsNothing(job, job.leads[i]))
            && (ending.Returned? ==> ending.result.matched == 0 && ending.result.research == |job.leads|)
  {
    var whole := Attempt(BatchOf(job), t, runId, Uninterrupted(BatchOf(job)));
    ResolverIdentifies(lib, job.budget);
    ReturnsIffConsistent(job, t, runId);
    ConsistentIffNothingFound(lib, job);
    if whole.ending.Returned? {
      ReturnedRun(job, t, runId, whole);
      NothingIsMatched(lib, job, |job.leads|);
    }
  }
}
