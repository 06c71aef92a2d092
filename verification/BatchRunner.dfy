/** The batch executor and its repository as they run: tables changed in place, one transaction a lead. */
module BatchRunner {
  import opened Text
  import opened Wrappers
  import opened Matching
  import opened Resolver
  import opened ResumableLoop
  import opened BatchExecutor

  lemma {:induction false} InsertAllInParts(rows: map<RowKey, Row>, a: seq<Write>, b: seq<Write>)
    ensures InsertAll(rows, a + b) == InsertAll(InsertAll(rows, a), b)
    decreases |a|
  {
    if a == [] {
      assert a + b == b;
    } else {
      assert (a + b)[1..] == a[1..] + b;
      InsertAllInParts(InsertOnce(rows, a[0]), a[1..], b);
    }
  }

  lemma WritesInParts(rows: map<RowKey, Row>, runId: string, candidates: seq<Candidate>, d: Decision)
    ensures InsertAll(rows, Writes(runId, candidates, d))
            == InsertAll(InsertOnce(InsertAll(InsertAll(InsertAll(rows,
                 CandidateWrites(runId, d.leadId, candidates)),
                 ComparisonWrites(runId, d.leadId, d.comparisons)),
                 RelationshipWrites(runId, d.leadId, d.relationships)),
                 Write(DecisionKey(runId, d.decisionId), DecisionRow(d))),
                 TraceWrites(runId, d.decisionId, d.trace, 0))
  {
    var a, b, c := CandidateWrites(runId, d.leadId, candidates), ComparisonWrites(runId, d.leadId, d.comparisons),
                   RelationshipWrites(runId, d.leadId, d.relationships);
    var w, e := Write(DecisionKey(runId, d.decisionId), DecisionRow(d)), TraceWrites(runId, d.decisionId, d.trace, 0);
    InsertAllInParts(rows, a + b + c + [w], e);
    InsertAllInParts(rows, a + b + c, [w]);
    InsertAllInParts(rows, a + b, c);
    InsertAllInParts(rows, a, b);
    var before := InsertAll(rows, a + b + c);
    assert InsertAll(before, [w]) == InsertAll(InsertOnce(before, w), [w][1..]);
  }

  /** None is the driver's exception at the first candidate. */
  method InsertCandidates(insert: Statement, rows: map<RowKey, Row>, runId: string, leadId: string,
                          candidates: seq<Candidate>)
    returns (r: Option<map<RowKey, Row>>)
    ensures r == if Storable(insert, candidates)
                 then Some(InsertAll(rows, CandidateWrites(runId, leadId, candidates)))
                 else None
  {
    var pending := rows;
    for i := 0 to |candidates|
      invariant i > 0 ==> Executes(insert)
      invariant InsertAll(pending, CandidateWrites(runId, leadId, candidates[i..]))
                == InsertAll(rows, CandidateWrites(runId, leadId, candidates))
    {
      if insert.placeholders != insert.values {
        return None;
      }
      assert candidates[i..][1..] == candidates[i + 1..];
      pending := InsertOnce(pending,
                            Write(CandidateKey(runId, candidates[i].candidateId), CandidateRow(leadId, candidates[i])));
    }
    return Some(pending);
  }

  method InsertComparisons(rows: map<RowKey, Row>, runId: string, leadId: string, comparisons: seq<Comparison>)
    returns (r: map<RowKey, Row>)
    ensures r == InsertAll(rows, ComparisonWrites(runId, leadId, comparisons))
  {
    r := rows;
    for i := 0 to |comparisons|
      invariant InsertAll(r, ComparisonWrites(runId, leadId, comparisons[i..]))
                == InsertAll(rows, ComparisonWrites(runId, leadId, comparisons))
    {
      assert comparisons[i..][1..] == comparisons[i + 1..];
      r := InsertOnce(r, Write(ComparisonKey(runId, comparisons[i].candidateId),
                               ComparisonRow(leadId, comparisons[i])));
    }
  }

  method InsertRelationships(rows: map<RowKey, Row>, runId: string, leadId: string, relationships: seq<string>)
    returns (r: map<RowKey, Row>)
    ensures r == InsertAll(rows, RelationshipWrites(runId, leadId, relationships))
  {
    r := rows;
    for i := 0 to |relationships|
      invariant InsertAll(r, RelationshipWrites(runId, leadId, relationships[i..]))
                == InsertAll(rows, RelationshipWrites(runId, leadId, relationships))
    {
      assert relationships[i..][1..] == relationships[i + 1..];
      r := InsertOnce(r, Write(RelationshipKey(runId, relationships[i]), RelationshipRow(leadId)));
    }
  }

  method InsertTraces(rows: map<RowKey, Row>, runId: string, decisionId: string, trace: seq<TraceEvent>)
    returns (r: map<RowKey, Row>)
    ensures r == InsertAll(rows, TraceWrites(runId, decisionId, trace, 0))
  {
    r := rows;
    for i := 0 to |trace|
      invariant InsertAll(r, TraceWrites(runId, decisionId, trace, i))
                == InsertAll(rows, TraceWrites(runId, decisionId, trace, 0))
    {
      r := InsertOnce(r, Write(TraceKey(runId, decisionId, i), TraceRow(trace[i])));
    }
  }

  datatype StoreError = WrongLead | StatementRefused | LeadAlreadyDecided | OtherVersion | RunNotPersisted | UnknownRun

  class Phase2Repository {
    const candidateInsert: Statement
    var runs: map<string, Run>
    var keys: map<string, string>
    var rows: map<RowKey, Row>
    var decided: set<(string, string)>

    constructor (candidateInsert: Statement)
      ensures View() == Tables(map[], map[], map[], {}) && this.candidateInsert == candidateInsert
    {
      this.candidateInsert := candidateInsert;
      runs, keys, rows, decided := map[], map[], map[], {};
    }

    function View(): Tables
      reads this
    {
      Tables(runs, keys, rows, decided)
    }

    /** Inserts the run unless its request key is taken, and reads back what is stored under that key. */
    method CreateRun(freshId: string, requestKey: string, version: string)
      returns (r: Result<(string, Run), StoreError>)
      modifies this
      ensures requestKey in old(keys) ==> View() == old(View())
      ensures requestKey !in old(keys)
              ==> View() == old(View()).(runs := old(runs)[freshId := NewRun(requestKey, version)],
                                         keys := old(keys)[requestKey := freshId])
      ensures requestKey in keys
      ensures r == (var id := keys[requestKey];
                    if id !in runs then Err(RunNotPersisted)
                    else if runs[id].version != version then Err(OtherVersion)
                    else Ok((id, runs[id])))
    {
      if requestKey !in keys {
        runs, keys := runs[freshId := NewRun(requestKey, version)], keys[requestKey := freshId];
      }
      var id := keys[requestKey];
      if id !in runs {
        return Err(RunNotPersisted);
      }
      if runs[id].version != version {
        return Err(OtherVersion);
      }
      return Ok((id, runs[id]));
    }

    /** One transaction. The answer says whether the decision was new; an error leaves the tables as they were. */
    method PersistResolution(runId: string, leadId: string, candidates: seq<Candidate>, d: Decision)
      returns (r: Result<bool, StoreError>)
      modifies this
      ensures r.Ok? <==> d.leadId == leadId && Persist(old(View()), runId, candidateInsert, candidates, d).Some?
      ensures r.Err? ==> View() == old(View())
      ensures r.Ok? ==> View() == Persist(old(View()), runId, candidateInsert, candidates, d).value
      ensures r.Ok? ==> (r.value <==> DecisionKey(runId, d.decisionId) !in old(rows))
    {
      if d.leadId != leadId {
        return Err(WrongLead);
      }
      var stored := InsertCandidates(candidateInsert, rows, runId, leadId, candidates);
      if stored.None? {
        return Err(StatementRefused);
      }
      var pending := InsertComparisons(stored.value, runId, leadId, d.comparisons);
      pending := InsertRelationships(pending, runId, leadId, d.relationships);
      var inserted := DecisionKey(runId, d.decisionId) !in rows;
      if inserted && (runId, leadId) in decided {
        return Err(LeadAlreadyDecided);
      }
      pending := InsertOnce(pending, Write(DecisionKey(runId, d.decisionId), DecisionRow(d)));
      pending := InsertTraces(pending, runId, d.decisionId, d.trace);
      WritesInParts(rows, runId, candidates, d);
      rows := pending;
      if inserted {
        decided := decided + {(runId, leadId)};
        if runId in runs {
          runs := runs[runId := Counted(runs[runId], candidates, d)];
        }
      }
      return Ok(inserted);
    }

    method CompleteRun(runId: string, status: RunStatus, metadata: Metadata) returns (r: Result<(), StoreError>)
      modifies this
      ensures View() == Close(old(View()), runId, status, metadata)
      ensures r == if runId in old(runs) then Ok(()) else Err(UnknownRun)
    {
      if runId !in runs {
        return Err(UnknownRun);
      }
      runs := runs[runId := runs[runId].(status := status, metadata := metadata)];
      return Ok(());
    }
  }

  /** The loop started in `t` has worked off `i` handoffs, and the tables are now `u`. */
  ghost predicate Reached(job: Job, t: Tables, runId: string, i: nat, u: Tables)
    requires i <= |job.leads|
  {
    Loop(BatchOf(job).turn(runId), t, job.leads, i) == Progress(u, i, false)
  }

  /** The next handoff raises, and these are the counters by then. */
  ghost predicate FailsAt(job: Job, runId: string, i: nat, u: Tables, counts: Counts)
    requires i < |job.leads|
  {
    Step(job, u, runId, job.leads[i]).None? && counts == Noticed(job, job.leads[i], CountsAfter(job, i))
  }

  lemma StartIsReached(job: Job, t: Tables, runId: string)
    ensures Reached(job, t, runId, 0, t) && CountsAfter(job, 0) == Counts(0, 0, 0, 0)
  {
  }

  lemma ReachedNext(job: Job, t: Tables, runId: string, i: nat, u: Tables, v: Tables)
    requires i < |job.leads| && Reached(job, t, runId, i, u) && Step(job, u, runId, job.leads[i]) == Some(v)
    ensures Reached(job, t, runId, i + 1, v)
  {
    LoopNext(BatchOf(job).turn(runId), t, job.leads, i, u, i + 1);
  }

  lemma CountsNext(job: Job, i: nat)
    requires i < |job.leads| && Decide(job, job.leads[i]).Some?
    ensures CountsAfter(job, i + 1) == Tallied(job, job.leads[i], Decide(job, job.leads[i]).value, CountsAfter(job, i))
  {
  }

  /** How the work ends that has come this far. */
  lemma WorkOutcome(job: Job, t: Tables, runId: string, commits: nat, i: nat, u: Tables)
    requires i <= |job.leads| && i <= commits && Reached(job, t, runId, i, u)
    ensures i == commits ==> WorkOn(BatchOf(job), t, runId, commits) == Ended(u, Killed)
    ensures i < commits && i < |job.leads| && Step(job, u, runId, job.leads[i]).None?
            ==> WorkOn(BatchOf(job), t, runId, commits) == Finish(job, runId, Progress(u, i, true))
    ensures i < commits && i == |job.leads|
            ==> WorkOn(BatchOf(job), t, runId, commits) == Finish(job, runId, Progress(u, i, false))
  {
    WorkDecided(BatchOf(job).turn(runId), BatchOf(job).finish(runId), Killed, t, job.leads, commits, i, u);
  }

  /** How an attempt goes on from there. */
  function Continued(b: Batch, t: Tables, commits: nat): Attempted {
    if b.requestKey !in t.keys then Ended(t, Raised)
    else
      var id := t.keys[b.requestKey];
      if id !in t.runs || t.runs[id].version != b.version then Ended(t, Raised)
      else if t.runs[id].status == Running then WorkOn(b, t, id, commits)
      else Ended(t, Replayed(id, t.runs[id]))
  }

  lemma AttemptContinues(b: Batch, t: Tables, freshId: string, commits: nat)
    requires b.legal && commits > 0
    ensures Attempt(b, t, freshId, commits) == Continued(b, Created(b, t, freshId), commits - 1)
  {
  }

  lemma AttemptStops(b: Batch, t: Tables, freshId: string, commits: nat)
    requires !b.legal || commits == 0
    ensures Attempt(b, t, freshId, commits) == Ended(t, if b.legal then Killed else Raised)
  {
  }

  class Phase2BatchExecutor {
    const repository: Phase2Repository

    constructor (repository: Phase2Repository)
      ensures this.repository == repository
    {
      this.repository := repository;
    }

    /** One turn: discover, resolve, persist, count. False is an exception. */
    method Turn(job: Job, runId: string, lead: Lead, tally: Counts) returns (went: bool, counts: Counts)
      requires job.candidateInsert == repository.candidateInsert
      modifies repository
      ensures Step(job, old(repository.View()), runId, lead) == (if went then Some(repository.View()) else None)
      ensures went ==> Decide(job, lead).Some? && counts == Tallied(job, lead, Decide(job, lead).value, tally)
      ensures !went ==> repository.View() == old(repository.View()) && counts == Noticed(job, lead, tally)
    {
      counts := tally;
      var candidates: seq<Candidate>, relationships: seq<string> := [], [];
      match job.provider(lead) {
        case Broke =>
          return false, counts;
        case Unavailable =>
          counts := counts.(providerErrors := counts.providerErrors + 1);
        case Found(cs, rs) =>
          candidates, relationships := cs, rs;
      }
      var resolved := job.resolve(lead, candidates, relationships);
      if resolved.Err? {
        return false, counts;
      }
      var d := resolved.value;
      var persisted := repository.PersistResolution(runId, lead.leadId, candidates, d);
      if persisted.Err? {
        return false, counts;
      }
      counts := counts.(decisions := counts.decisions + 1);
      if IsMatch(d.status) {
        counts := counts.(matched := counts.matched + 1);
      }
      if d.researchRequired {
        counts := counts.(research := counts.research + 1);
      }
      return true, counts;
    }

    method TurnAt(job: Job, runId: string, ghost t: Tables, i: nat, tally: Counts) returns (went: bool, counts: Counts)
      requires i < |job.leads| && Reached(job, t, runId, i, repository.View()) && tally == CountsAfter(job, i)
      requires job.candidateInsert == repository.candidateInsert
      modifies repository
      ensures went ==> Reached(job, t, runId, i + 1, repository.View()) && counts == CountsAfter(job, i + 1)
      ensures !went ==>
                Reached(job, t, runId, i, repository.View()) && FailsAt(job, runId, i, repository.View(), counts)
    {
      ghost var before := repository.View();
      went, counts := Turn(job, runId, job.leads[i], tally);
      if went {
        ReachedNext(job, t, runId, i, before, repository.View());
        CountsNext(job, i);
      }
    }

    /** The loop over the handoffs, up to the first failure or the last of `commits` commits. */
    method Proceed(job: Job, runId: string, commits: nat) returns (i: nat, counts: Counts, failed: bool)
      requires job.candidateInsert == repository.candidateInsert
      modifies repository
      ensures i <= |job.leads| && i <= commits && Reached(job, old(repository.View()), runId, i, repository.View())
      ensures !failed ==> counts == CountsAfter(job, i) && (i == commits || i == |job.leads|)
      ensures failed ==> i < |job.leads| && i < commits && FailsAt(job, runId, i, repository.View(), counts)
    {
      counts, i, failed := Counts(0, 0, 0, 0), 0, false;
      ghost var t := repository.View();
      StartIsReached(job, t, runId);
      while i < |job.leads| && i < commits && !failed
        invariant i <= |job.leads| && i <= commits && Reached(job, t, runId, i, repository.View())
        invariant !failed ==> counts == CountsAfter(job, i)
        invariant failed ==> i < |job.leads| && i < commits && FailsAt(job, runId, i, repository.View(), counts)
        decreases |job.leads| - i, !failed
      {
        var went;
        went, counts := TurnAt(job, runId, t, i, counts);
        if went {
          i := i + 1;
        } else {
          failed := true;
        }
      }
    }

    /** The work on an open run: the loop, then the closing commit if there is one left for it. */
    method WorkOff(job: Job, runId: string, commits: nat) returns (ending: Ending)
      requires job.candidateInsert == repository.candidateInsert
      modifies repository
      ensures Ended(repository.View(), ending) == WorkOn(BatchOf(job), old(repository.View()), runId, commits)
    {
      var i, counts, failed := Proceed(job, runId, commits);
      WorkOutcome(job, old(repository.View()), runId, commits, i, repository.View());
      if failed {
        var closed := repository.CompleteRun(runId, Failed, Failure(counts.providerErrors));
        return Raised;
      }
      if i == commits {
        return Killed;
      }
      var closed := repository.CompleteRun(runId, Completed, Summary(counts));
      return Returned(ResultOf(job, runId, counts));
    }

    method Continue(job: Job, freshId: string, commits: nat) returns (ending: Ending)
      requires job.candidateInsert == repository.candidateInsert
      modifies repository
      ensures var c := Continued(BatchOf(job), Created(BatchOf(job), old(repository.View()), freshId), commits);
              repository.View() == c.state && ending == c.ending
    {
      var created := repository.CreateRun(freshId, job.requestKey, job.version);
      if created.Err? {
        return Raised;
      }
      var (runId, run) := created.value;
      if run.status == Completed {
        return Returned(CompletedResult(runId, run));
      }
      if run.status != Running {
        return Raised;
      }
      ending := WorkOff(job, runId, commits);
    }

    /** One execution under the request key, dying after `commits` commits if it gets that far. */
    method Run(job: Job, freshId: string, commits: nat) returns (ending: Ending)
      requires job.candidateInsert == repository.candidateInsert
      modifies repository
      ensures var a := Attempt(BatchOf(job), old(repository.View()), freshId, commits);
              repository.View() == a.state && ending == a.ending
    {
      if Blank(job.requestKey) || job.budget < 1 {
        AttemptStops(BatchOf(job), repository.View(), freshId, commits);
        return Raised;
      }
      if commits == 0 {
        AttemptStops(BatchOf(job), repository.View(), freshId, commits);
        return Killed;
      }
      AttemptContinues(BatchOf(job), repository.View(), freshId, commits);
      ending := Continue(job, freshId, commits - 1);
    }
  }
}
