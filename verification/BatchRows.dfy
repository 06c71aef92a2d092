/** What a batch puts on record, row by row.

    The rows of one handoff are given by their keys and contents; a turn adds exactly those that are not there yet,
      and a
    batch that returns has all of them on record. */
module BatchRows {
  import opened Wrappers
  import opened Resolver
  import opened ResumableLoop
  import opened BatchExecutor
  import opened BatchReplay
  import opened BatchCounts
  import Matching

  /** The row under this key is one that the handoff writes: a candidate, a comparison, a relationship, the decision or
      an entry of its trace, each of the run and under its own id. */
  ghost predicate Wrote(runId: string, candidates: seq<Matching.Candidate>, d: Decision, key: RowKey, row: Row) {
    match key
    case CandidateKey(run, id) =>
      run == runId && exists c :: c in candidates && c.candidateId == id && row == CandidateRow(d.leadId, c)
    case ComparisonKey(run, id) =>
      run == runId && exists c :: c in d.comparisons && c.candidateId == id && row == ComparisonRow(d.leadId, c)
    case RelationshipKey(run, id) => run == runId && id in d.relationships && row == RelationshipRow(d.leadId)
    case DecisionKey(run, id) => run == runId && id == d.decisionId && row == DecisionRow(d)
    case TraceKey(run, id, n) => run == runId && id == d.decisionId && n < |d.trace| && row == TraceRow(d.trace[n])
  }

  lemma {:induction false} CandidateWritesAre(runId: string, leadId: string, candidates: seq<Matching.Candidate>,
                                              w: Write)
    ensures w in CandidateWrites(runId, leadId, candidates)
            <==> exists c :: c in candidates && w == Write(CandidateKey(runId, c.candidateId), CandidateRow(leadId, c))
  {
    if candidates != [] {
      CandidateWritesAre(runId, leadId, candidates[1..], w);
      assert forall c :: c in candidates <==> c == candidates[0] || c in candidates[1..];
    }
  }

  lemma {:induction false} ComparisonWritesAre(runId: string, leadId: string, comparisons: seq<Matching.Comparison>,
                                               w: Write)
    ensures w in ComparisonWrites(runId, leadId, comparisons)
            <==> exists c ::
                   c in comparisons && w == Write(ComparisonKey(runId, c.candidateId), ComparisonRow(leadId, c))
  {
    if comparisons != [] {
      ComparisonWritesAre(runId, leadId, comparisons[1..], w);
      assert forall c :: c in comparisons <==> c == comparisons[0] || c in comparisons[1..];
    }
  }

  lemma {:induction false} RelationshipWritesAre(runId: string, leadId: string, relationships: seq<string>, w: Write)
    ensures w in RelationshipWrites(runId, leadId, relationships)
            <==> exists r :: r in relationships && w == Write(RelationshipKey(runId, r), RelationshipRow(leadId))
  {
    if relationships != [] {
      RelationshipWritesAre(runId, leadId, relationships[1..], w);
      assert forall r :: r in relationships <==> r == relationships[0] || r in relationships[1..];
    }
  }

  lemma {:induction false} TraceWritesAre(runId: string, decisionId: string, trace: seq<TraceEvent>, from: nat,
                                          w: Write)
    requires from <= |trace|
    ensures w in TraceWrites(runId, decisionId, trace, from)
            <==> exists n: nat :: from <= n < |trace| && w == Write(TraceKey(runId, decisionId, n), TraceRow(trace[n]))
    decreases |trace| - from
  {
    if from < |trace| {
      TraceWritesAre(runId, decisionId, trace, from + 1, w);
    }
  }

  /** A handoff writes exactly these rows. */
  lemma WritesAre(runId: string, candidates: seq<Matching.Candidate>, d: Decision, w: Write)
    ensures w in Writes(runId, candidates, d) <==> Wrote(runId, candidates, d, w.key, w.row)
  {
    CandidateWritesAre(runId, d.leadId, candidates, w);
    ComparisonWritesAre(runId, d.leadId, d.comparisons, w);
    RelationshipWritesAre(runId, d.leadId, d.relationships, w);
    TraceWritesAre(runId, d.decisionId, d.trace, 0, w);
  }

  lemma {:induction false} InsertedRow(rows: map<RowKey, Row>, ws: seq<Write>, key: RowKey)
    ensures key in InsertAll(rows, ws) && key !in rows ==> Write(key, InsertAll(rows, ws)[key]) in ws
    decreases |ws|
  {
    if ws != [] {
      InsertedRow(InsertOnce(rows, ws[0]), ws[1..], key);
      InsertAllAdds(InsertOnce(rows, ws[0]), ws[1..]);
    }
  }

  lemma RowInserted(rows: map<RowKey, Row>, ws: seq<Write>, w: Write)
    requires w in ws
    ensures w.key in InsertAll(rows, ws)
  {
    InsertAllAdds(rows, ws);
  }

  /** A turn rewrites nothing, adds only rows of its handoff, and leaves each of those keys with a row. */
  lemma TurnAddsItsRows(job: Job, t: Tables, runId: string, i: nat, d: Decision, u: Tables, key: RowKey, row: Row)
    requires i < |job.leads| && AnsweredAt(job, i, d) && Step(job, t, runId, job.leads[i]) == Some(u)
    ensures d.leadId == job.leads[i].leadId
    ensures key in t.rows ==> key in u.rows && u.rows[key] == t.rows[key]
    ensures key in u.rows && key !in t.rows ==> Wrote(runId, CandidatesOf(job, job.leads[i]), d, key, u.rows[key])
    ensures Wrote(runId, CandidatesOf(job, job.leads[i]), d, key, row) ==> key in u.rows
  {
    var candidates := CandidatesOf(job, job.leads[i]);
    var ws := Writes(runId, candidates, d);
    DecidedAt(job, i);
    InsertAllAdds(t.rows, ws);
    InsertedRow(t.rows, ws, key);
    WritesAre(runId, candidates, d, Write(key, row));
    if key in u.rows {
      WritesAre(runId, candidates, d, Write(key, u.rows[key]));
    }
    if Wrote(runId, candidates, d, key, row) {
      RowInserted(t.rows, ws, Write(key, row));
    }
  }

  /** What the provider found for the handoff. */
  ghost predicate FoundAt(job: Job, i: nat, c: Matching.Candidate) {
    i < |job.leads| && job.provider(job.leads[i]).Found? && c in job.provider(job.leads[i]).candidates
  }

  lemma FoundAreCandidates(job: Job, i: nat, c: Matching.Candidate)
    requires i < |job.leads|
    ensures FoundAt(job, i, c) <==> c in CandidatesOf(job, job.leads[i])
  {
  }

  lemma AbsorbedHasRow(job: Job, t: Tables, runId: string, i: nat, d: Decision, key: RowKey, row: Row)
    requires i < |job.leads| && AnsweredAt(job, i, d) && Absorbed(job, t, runId, job.leads[i])
    requires Wrote(runId, CandidatesOf(job, job.leads[i]), d, key, row)
    ensures key in t.rows
  {
    DecidedAt(job, i);
    WritesAre(runId, CandidatesOf(job, job.leads[i]), d, Write(key, row));
    assert Write(key, row).key in t.rows;
  }

  lemma RowsSettled(job: Job, t: Tables, runId: string, i: nat)
    requires i < Loop(BatchOf(job).turn(runId), t, job.leads, |job.leads|).done
    ensures Absorbed(job, Loop(BatchOf(job).turn(runId), t, job.leads, |job.leads|).state, runId, job.leads[i])
  {
    var turn, settled := BatchOf(job).turn(runId), Settled(job)(runId);
    TurnIsResumable(job, runId);
    LoopSettles(turn, settled, t, job.leads, |job.leads|);
    assert settled(Loop(turn, t, job.leads, |job.leads|).state, job.leads[i]);
  }

  /** An attempt that returns has every row of every handoff on record. */
  lemma EverythingIsOnRecord(job: Job, t: Tables, runId: string, commits: nat, a: Attempted, i: nat, d: Decision,
                             key: RowKey, row: Row)
    requires WorksOff(job, t, runId) && a == Attempt(BatchOf(job), t, runId, commits) && a.ending.Returned?
    requires AnsweredAt(job, i, d) && Wrote(runId, CandidatesOf(job, job.leads[i]), d, key, row)
    ensures key in a.state.rows
  {
    var start, p := Created(BatchOf(job), t, runId), WholeLoop(BatchOf(job), t, runId);
    AttemptFinishes(job, t, runId, commits, a, p);
    RowsSettled(job, start, runId, i);
    AbsorbedHasRow(job, p.state, runId, i, d, key, row);
  }
}
