/** The resumable batch executor over its insert-once tables.

    `Attempt` is one execution of the batch, dying after a given number of commits. The main result is
    crash equivalence: any number of killed attempts followed by one that is not killed leaves the very
    tables, and returns the very result, of a single uninterrupted execution. */
module BatchExecutor {
  import opened Text
  import opened Wrappers
  import opened Matching
  import opened Resolver
  import opened ResumableLoop

  // ---------- the tables ----------

  datatype RunStatus = Running | Completed | Failed

  /** The summary a run is closed with. Times and error texts are left out. */
  datatype Metadata = AtStart | Summary(tally: Counts) | Failure(providerErrors: nat)

  datatype Run = Run(requestKey: string, version: string, status: RunStatus, inputCount: nat, decisionCount: nat,
                     candidateCount: nat, escalationCount: nat, metadata: Metadata)

  /** Table and primary key of the insert-once rows. */
  datatype RowKey =
    | CandidateKey(runId: string, candidateId: string)
    | ComparisonKey(runId: string, candidateId: string)
    | RelationshipKey(runId: string, relationshipId: string)
    | DecisionKey(runId: string, decisionId: string)
    | TraceKey(runId: string, decisionId: string, traceNo: nat)

  datatype Row =
    | CandidateRow(leadId: string, candidate: Candidate)
    | ComparisonRow(leadId: string, comparison: Comparison)
    | RelationshipRow(leadId: string)
    | DecisionRow(decision: Decision)
    | TraceRow(event: TraceEvent)

  /** `keys` and `decided` are the unique indexes on (request_key) and on (run_id, lead_id). */
  datatype Tables = Tables(runs: map<string, Run>, keys: map<string, string>, rows: map<RowKey, Row>,
                           decided: set<(string, string)>)

  datatype Write = Write(key: RowKey, row: Row)

  // ---------- what one lead writes ----------

  function CandidateWrites(runId: string, leadId: string, candidates: seq<Candidate>): seq<Write> {
    if candidates == [] then []
    else [Write(CandidateKey(runId, candidates[0].candidateId), CandidateRow(leadId, candidates[0]))]
         + CandidateWrites(runId, leadId, candidates[1..])
  }

  function ComparisonWrites(runId: string, leadId: string, comparisons: seq<Comparison>): seq<Write> {
    if comparisons == [] then []
    else [Write(ComparisonKey(runId, comparisons[0].candidateId), ComparisonRow(leadId, comparisons[0]))]
         + ComparisonWrites(runId, leadId, comparisons[1..])
  }

  function RelationshipWrites(runId: string, leadId: string, relationships: seq<string>): seq<Write> {
    if relationships == [] then []
    else [Write(RelationshipKey(runId, relationships[0]), RelationshipRow(leadId))]
         + RelationshipWrites(runId, leadId, relationships[1..])
  }

  function TraceWrites(runId: string, decisionId: string, trace: seq<TraceEvent>, from: nat): seq<Write>
    requires from <= |trace|
    decreases |trace| - from
  {
    if from == |trace| then []
    else
      [Write(TraceKey(runId, decisionId, from), TraceRow(trace[from]))]
        + TraceWrites(runId, decisionId, trace, from + 1)
  }

  function Writes(runId: string, candidates: seq<Candidate>, d: Decision): seq<Write> {
    CandidateWrites(runId, d.leadId, candidates) + ComparisonWrites(runId, d.leadId, d.comparisons)
    + RelationshipWrites(runId, d.leadId, d.relationships)
    + [Write(DecisionKey(runId, d.decisionId), DecisionRow(d))] + TraceWrites(runId, d.decisionId, d.trace, 0)
  }

  /** INSERT ... ON CONFLICT DO NOTHING. */
  function InsertOnce(rows: map<RowKey, Row>, w: Write): map<RowKey, Row> {
    if w.key in rows then rows else rows[w.key := w.row]
  }

  function InsertAll(rows: map<RowKey, Row>, ws: seq<Write>): map<RowKey, Row>
    decreases |ws|
  {
    if ws == [] then rows else InsertAll(InsertOnce(rows, ws[0]), ws[1..])
  }

  function Counted(run: Run, candidates: seq<Candidate>, d: Decision): Run {
    run.(inputCount := run.inputCount + 1, decisionCount := run.decisionCount + 1,
         candidateCount := run.candidateCount + |candidates|,
         escalationCount := run.escalationCount + if d.researchRequired then 1 else 0)
  }

  /** A statement, as far as the driver checks it: the placeholders in its text and the values passed for them. */
  datatype Statement = Statement(placeholders: nat, values: nat)

  /** The driver refuses a statement whose placeholders and values differ in number. */
  predicate Executes(s: Statement) {
    s.placeholders == s.values
  }

  /** The statement that inserts a candidate, as it is written: 26 columns and values, 27 placeholders. */
  const CANDIDATE_INSERT := Statement(27, 26)

  predicate Storable(insert: Statement, candidates: seq<Candidate>) {
    candidates == [] || Executes(insert)
  }

  /** One transaction: None is an exception, at which it is rolled back. Either the driver refuses the statement
      that inserts a candidate, or the unique index on (run_id, lead_id) is violated, which the conflict clause
      on (run_id, decision_id) does not cover. */
  function Persist(t: Tables, runId: string, insert: Statement, candidates: seq<Candidate>, d: Decision): Option<Tables>
  {
    var inserted := DecisionKey(runId, d.decisionId) !in t.rows;
    if !Storable(insert, candidates) || (inserted && (runId, d.leadId) in t.decided) then None
    else
      var rows := InsertAll(t.rows, Writes(runId, candidates, d));
      if !inserted then Some(t.(rows := rows))
      else
        Some(t.(rows := rows, decided := t.decided + {(runId, d.leadId)},
                runs := if runId in t.runs then t.runs[runId := Counted(t.runs[runId], candidates, d)] else t.runs))
  }

  function Close(t: Tables, runId: string, status: RunStatus, metadata: Metadata): Tables {
    if runId in t.runs then t.(runs := t.runs[runId := t.runs[runId].(status := status, metadata := metadata)]) else t
  }

  // ---------- one lead ----------

  /** What the candidate provider answers for a lead; `Broke` is any exception but "unavailable". */
  datatype Discovery = Found(candidates: seq<Candidate>, relationships: seq<string>) | Unavailable | Broke

  type ResolveFunction = (Lead, seq<Candidate>, seq<string>) -> Result<Decision, ResolveError>

  /** The request: a deterministic provider and resolver, and the handoffs as listed when the attempt starts.
      What follows holds for any such resolver; `Resolving` is the one the executor calls. It holds for any
      statement that is to insert candidates, too; `CANDIDATE_INSERT` is the one there is. */
  datatype Job = Job(provider: Lead -> Discovery, resolve: ResolveFunction, candidateInsert: Statement,
                     requestKey: string, version: string, leads: seq<Lead>, budget: int)

  function Resolving(lib: Library, budget: int): ResolveFunction {
    (lead: Lead, candidates: seq<Candidate>, relationships: seq<string>) =>
      Resolve(lib, lead, candidates, relationships, budget)
  }

  datatype Counts = Counts(decisions: nat, matched: nat, research: nat, providerErrors: nat)

  function CandidatesOf(job: Job, lead: Lead): seq<Candidate> {
    match job.provider(lead)
    case Found(candidates, _) => candidates
    case _ => []
  }

  function Decided(r: Result<Decision, ResolveError>): Option<Decision> {
    match r
    case Ok(d) => Some(d)
    case Err(_) => None
  }

  /** The decision for a lead; None is an exception from the provider or from the state contract. */
  function Decide(job: Job, lead: Lead): Option<Decision> {
    match job.provider(lead)
    case Broke => None
    case Unavailable => Decided(job.resolve(lead, [], []))
    case Found(candidates, relationships) => Decided(job.resolve(lead, candidates, relationships))
  }

  function Noticed(job: Job, lead: Lead, tally: Counts): Counts {
    if job.provider(lead).Unavailable? then tally.(providerErrors := tally.providerErrors + 1) else tally
  }

  function Tallied(job: Job, lead: Lead, d: Decision, tally: Counts): Counts {
    var t := Noticed(job, lead, tally);
    t.(decisions := t.decisions + 1,
       matched := t.matched + (if IsMatch(d.status) then 1 else 0),
       research := t.research + (if d.researchRequired then 1 else 0))
  }

  /** One turn of the loop; None is an exception. */
  function Step(job: Job, t: Tables, runId: string, lead: Lead): Option<Tables> {
    match Decide(job, lead)
    case None => None
    case Some(d) =>
      if d.leadId != lead.leadId then None else Persist(t, runId, job.candidateInsert, CandidatesOf(job, lead), d)
  }

  // ---------- one attempt ----------

  datatype BatchResult = BatchResult(runId: string, inputCount: nat, decisionCount: nat, matched: nat, research: nat,
                                     providerErrors: nat)

  datatype Ending = Killed | Raised | Returned(result: BatchResult)

  type Attempted = Ended<Tables, Ending>

  /** A batch, as far as opening, resuming and closing its run go: what a turn does to the tables, and the
      commit that closes the run when the loop has come to an end. */
  datatype Batch = Batch(legal: bool, requestKey: string, version: string, leads: seq<Lead>,
                         turn: string -> (Tables, Lead) -> Option<Tables>,
                         finish: string -> Progress<Tables> -> Attempted)

  /** The executor's own counters after the first `n` leads. */
  function CountsAfter(job: Job, n: nat): Counts
    requires n <= |job.leads|
  {
    if n == 0 then Counts(0, 0, 0, 0)
    else
      match Decide(job, job.leads[n - 1])
      case None => CountsAfter(job, n - 1)
      case Some(d) => Tallied(job, job.leads[n - 1], d, CountsAfter(job, n - 1))
  }

  function ResultOf(job: Job, runId: string, counts: Counts): BatchResult {
    BatchResult(runId, |job.leads|, counts.decisions, counts.matched, counts.research, counts.providerErrors)
  }

  function Finish(job: Job, runId: string, p: Progress<Tables>): Attempted
    requires p.done <= |job.leads|
  {
    if p.raised && p.done < |job.leads| then
      var counts := Noticed(job, job.leads[p.done], CountsAfter(job, p.done));
      Ended(Close(p.state, runId, Failed, Failure(counts.providerErrors)), Raised)
    else
      var counts := CountsAfter(job, p.done);
      Ended(Close(p.state, runId, Completed, Summary(counts)), Returned(ResultOf(job, runId, counts)))
  }

  function BatchOf(job: Job): Batch {
    Batch(job.budget >= 1 && !Blank(job.requestKey), job.requestKey, job.version, job.leads,
          (runId: string) => (t: Tables, lead: Lead) => Step(job, t, runId, lead),
          (runId: string) => (p: Progress<Tables>) =>
            if p.done <= |job.leads| then Finish(job, runId, p) else Ended(p.state, Raised))
  }

  function NewRun(requestKey: string, version: string): Run {
    Run(requestKey, version, Running, 0, 0, 0, 0, AtStart)
  }

  function Opened(b: Batch, t: Tables, freshId: string): Tables {
    t.(runs := t.runs[freshId := NewRun(b.requestKey, b.version)], keys := t.keys[b.requestKey := freshId])
  }

  /** The tables once the run was created or found. */
  function Created(b: Batch, t: Tables, freshId: string): Tables {
    if b.requestKey in t.keys then t else Opened(b, t, freshId)
  }

  /** The result read back from a completed run. */
  function CompletedResult(runId: string, run: Run): BatchResult {
    match run.metadata
    case Summary(tally) =>
      BatchResult(runId, run.inputCount, run.decisionCount, tally.matched, tally.research, tally.providerErrors)
    case Failure(errors) => BatchResult(runId, run.inputCount, run.decisionCount, 0, 0, errors)
    case AtStart => BatchResult(runId, run.inputCount, run.decisionCount, 0, 0, 0)
  }

  function WorkOn(b: Batch, t: Tables, runId: string, commits: nat): Attempted {
    Work(b.turn(runId), b.finish(runId), Killed, t, b.leads, commits)
  }

  /** An execution under `freshId` that dies after `commits` commits, if it gets that far. */
  function Attempt(b: Batch, t: Tables, freshId: string, commits: nat): Attempted {
    if !b.legal then Ended(t, Raised)
    else if commits == 0 then Ended(t, Killed)
    else if b.requestKey !in t.keys then WorkOn(b, Opened(b, t, freshId), freshId, commits - 1)
    else
      var runId := t.keys[b.requestKey];
      if runId !in t.runs || t.runs[runId].version != b.version then Ended(t, Raised)
      else
        match t.runs[runId].status
        case Completed => Ended(t, Returned(CompletedResult(runId, t.runs[runId])))
        case Failed => Ended(t, Raised)
        case Running => WorkOn(b, t, runId, commits - 1)
  }

  /** Enough commits for an attempt never to be killed. */
  function Uninterrupted(b: Batch): nat {
    |b.leads| + 2
  }

  // ---------- a turn is resumable ----------

  /** Whether a lead is worked off in a run. */
  type Settlement = string -> (Tables, Lead) -> bool

  /** Everything the lead would write is already there. */
  ghost predicate Absorbed(job: Job, t: Tables, runId: string, lead: Lead) {
    Decide(job, lead).Some? && Decide(job, lead).value.leadId == lead.leadId
      && Storable(job.candidateInsert, CandidatesOf(job, lead))
    && forall w :: w in Writes(runId, CandidatesOf(job, lead), Decide(job, lead).value) ==> w.key in t.rows
  }

  ghost function Settled(job: Job): Settlement {
    (runId: string) => (t: Tables, lead: Lead) => Absorbed(job, t, runId, lead)
  }

  lemma {:induction false} InsertAllPresent(rows: map<RowKey, Row>, ws: seq<Write>)
    requires forall w :: w in ws ==> w.key in rows
    ensures InsertAll(rows, ws) == rows
    decreases |ws|
  {
    if ws != [] {
      assert ws[0] in ws;
      InsertAllPresent(rows, ws[1..]);
    }
  }

  /** No row is ever rewritten. */
  lemma {:induction false} InsertAllAdds(rows: map<RowKey, Row>, ws: seq<Write>)
    ensures forall k :: k in rows ==> k in InsertAll(rows, ws) && InsertAll(rows, ws)[k] == rows[k]
    ensures forall k :: k in InsertAll(rows, ws) <==> k in rows || exists w :: w in ws && w.key == k
    decreases |ws|
  {
    if ws != [] {
      InsertAllAdds(InsertOnce(rows, ws[0]), ws[1..]);
      assert forall w :: w in ws <==> w == ws[0] || w in ws[1..];
    }
  }

  lemma DecisionIsWritten(runId: string, candidates: seq<Candidate>, d: Decision)
    ensures Write(DecisionKey(runId, d.decisionId), DecisionRow(d)) in Writes(runId, candidates, d)
  {
  }

  lemma AbsorbedStepIsNoop(job: Job, t: Tables, runId: string, lead: Lead)
    requires Absorbed(job, t, runId, lead)
    ensures Step(job, t, runId, lead) == Some(t)
  {
    var d, candidates := Decide(job, lead).value, CandidatesOf(job, lead);
    DecisionIsWritten(runId, candidates, d);
    InsertAllPresent(t.rows, Writes(runId, candidates, d));
  }

  lemma StepAbsorbs(job: Job, t: Tables, runId: string, lead: Lead)
    requires Step(job, t, runId, lead).Some?
    ensures Absorbed(job, Step(job, t, runId, lead).value, runId, lead)
    ensures forall k :: k in t.rows ==>
              k in Step(job, t, runId, lead).value.rows && Step(job, t, runId, lead).value.rows[k] == t.rows[k]
  {
    InsertAllAdds(t.rows, Writes(runId, CandidatesOf(job, lead), Decide(job, lead).value));
  }

  lemma AbsorbedStays(job: Job, t: Tables, u: Tables, runId: string, lead: Lead)
    requires Absorbed(job, t, runId, lead) && t.rows.Keys <= u.rows.Keys
    ensures Absorbed(job, u, runId, lead)
  {
  }

  lemma TurnIsResumable(job: Job, runId: string)
    ensures Resumable(BatchOf(job).turn(runId), Settled(job)(runId))
  {
    var turn, settled := BatchOf(job).turn(runId), Settled(job)(runId);
    forall t, lead | settled(t, lead) ensures turn(t, lead) == Some(t) {
      AbsorbedStepIsNoop(job, t, runId, lead);
    }
    forall t, lead | turn(t, lead).Some? ensures settled(turn(t, lead).value, lead) {
      StepAbsorbs(job, t, runId, lead);
    }
    forall t, lead, other | settled(t, lead) && turn(t, other).Some? ensures settled(turn(t, other).value, lead) {
      StepAbsorbs(job, t, runId, other);
      AbsorbedStays(job, t, turn(t, other).value, runId, lead);
    }
  }

  // ---------- crash equivalence ----------

  ghost predicate StillOpen(b: Batch, t: Tables, runId: string) {
    && b.requestKey in t.keys && t.keys[b.requestKey] == runId
    && runId in t.runs && t.runs[runId].version == b.version && t.runs[runId].status == Running
  }

  /** What any further attempt answers once the run is closed. */
  function Replayed(runId: string, run: Run): Ending {
    if run.status == Completed then Returned(CompletedResult(runId, run)) else Raised
  }

  ghost predicate ClosedRun(b: Batch, t: Tables, runId: string) {
    && b.requestKey in t.keys && t.keys[b.requestKey] == runId
    && runId in t.runs && t.runs[runId].version == b.version && t.runs[runId].status != Running
  }

  /** What crash equivalence takes: turns are resumable and leave the run open, and the finish closes it. */
  ghost predicate Restartable(b: Batch, settled: Settlement) {
    && (forall runId :: Resumable(b.turn(runId), settled(runId)))
    && (forall runId, t, lead :: StillOpen(b, t, runId) && b.turn(runId)(t, lead).Some?
          ==> StillOpen(b, b.turn(runId)(t, lead).value, runId))
    && (forall runId, p: Progress<Tables> :: p.done <= |b.leads| && StillOpen(b, p.state, runId) ==>
          ClosedRun(b, b.finish(runId)(p).state, runId))
  }

  /** The tables of the run `runId`, started in `t`, after at most `j` leads. */
  function StateAt(b: Batch, t: Tables, runId: string, j: nat): Tables
    requires j <= |b.leads|
  {
    Loop(b.turn(runId), t, b.leads, j).state
  }

  function Whole(b: Batch, t: Tables, runId: string): Attempted {
    WorkOn(b, t, runId, |b.leads| + 1)
  }

  lemma StateIsOpen(b: Batch, settled: Settlement, t: Tables, runId: string, j: nat)
    requires Restartable(b, settled) && j <= |b.leads| && StillOpen(b, t, runId)
    ensures StillOpen(b, StateAt(b, t, runId, j), runId)
  {
    var holds := u => StillOpen(b, u, runId);
    assert Keeps(b.turn(runId), holds);
    LoopKeeps(b.turn(runId), holds, t, b.leads, j);
  }

  function RunAttempts(b: Batch, t: Tables, attempts: seq<(string, nat)>): Tables
    decreases |attempts|
  {
    if attempts == [] then t
    else RunAttempts(b, Attempt(b, t, attempts[0].0, attempts[0].1).state, attempts[1..])
  }

  /** Where the tables can be between attempts: part way through the work, or at its end. */
  ghost predicate Underway(b: Batch, start: Tables, runId: string, t: Tables) {
    || (exists j :: 0 <= j <= |b.leads| && t == StateAt(b, start, runId, j))
    || t == Whole(b, start, runId).state
  }

  lemma WholeCloses(b: Batch, settled: Settlement, start: Tables, runId: string)
    requires Restartable(b, settled) && StillOpen(b, start, runId)
    ensures ClosedRun(b, Whole(b, start, runId).state, runId)
  {
    StateIsOpen(b, settled, start, runId, |b.leads|);
  }

  lemma ClosedRunIsLeftAlone(b: Batch, t: Tables, runId: string, freshId: string, commits: nat)
    requires b.legal && ClosedRun(b, t, runId)
    ensures Attempt(b, t, freshId, commits) == Ended(t, if commits == 0 then Killed else Replayed(runId, t.runs[runId]))
  {
  }

  /** An attempt on an open run takes its work up again, whatever fresh id it came with. */
  lemma AttemptOnOpenRun(b: Batch, t: Tables, runId: string, freshId: string, commits: nat)
    requires b.legal && StillOpen(b, t, runId)
    ensures Attempt(b, t, freshId, commits)
            == (if commits == 0 then Ended(t, Killed) else WorkOn(b, t, runId, commits - 1))
  {
  }

  lemma WorkIsUnderway(b: Batch, start: Tables, runId: string, commits: nat)
    ensures Underway(b, start, runId, WorkOn(b, start, runId, commits).state)
    ensures commits > |b.leads| ==> WorkOn(b, start, runId, commits) == Whole(b, start, runId)
  {
    WorkEnds(b.turn(runId), b.finish(runId), Killed, start, b.leads, commits);
    if commits <= |b.leads| {
      assert StateAt(b, start, runId, commits) == Loop(b.turn(runId), start, b.leads, commits).state;
    }
  }

  lemma ResumedWork(b: Batch, settled: Settlement, start: Tables, runId: string, j: nat, commits: nat)
    requires Restartable(b, settled) && j <= |b.leads|
    ensures var w := WorkOn(b, StateAt(b, start, runId, j), runId, commits);
            && Underway(b, start, runId, w.state)
            && (commits > |b.leads| ==> w == Whole(b, start, runId))
  {
    WorkAgain(b.turn(runId), settled(runId), b.finish(runId), Killed, start, b.leads, j, commits);
    WorkIsUnderway(b, start, runId, commits);
  }

  lemma AttemptFromState(b: Batch, settled: Settlement, start: Tables, runId: string, j: nat, freshId: string,
                         commits: nat)
    requires b.legal && Restartable(b, settled) && StillOpen(b, start, runId) && j <= |b.leads|
    ensures var a := Attempt(b, StateAt(b, start, runId, j), freshId, commits);
            && Underway(b, start, runId, a.state)
            && (commits >= Uninterrupted(b) ==> a == Whole(b, start, runId))
  {
    StateIsOpen(b, settled, start, runId, j);
    AttemptOnOpenRun(b, StateAt(b, start, runId, j), runId, freshId, commits);
    if commits > 0 {
      ResumedWork(b, settled, start, runId, j, commits - 1);
    }
  }

  lemma {:induction false} AttemptsStayUnderway(
      b: Batch, settled: Settlement, start: Tables, runId: string, t: Tables, attempts: seq<(string, nat)>)
    requires b.legal && Restartable(b, settled) && StillOpen(b, start, runId) && Underway(b, start, runId, t)
    ensures Underway(b, start, runId, RunAttempts(b, t, attempts))
    decreases |attempts|
  {
    if attempts != [] {
      var (freshId, commits) := attempts[0];
      if t == Whole(b, start, runId).state {
        WholeCloses(b, settled, start, runId);
        ClosedRunIsLeftAlone(b, t, runId, freshId, commits);
      } else {
        var j :| 0 <= j <= |b.leads| && t == StateAt(b, start, runId, j);
        AttemptFromState(b, settled, start, runId, j, freshId, commits);
      }
      AttemptsStayUnderway(b, settled, start, runId, Attempt(b, t, freshId, commits).state, attempts[1..]);
    }
  }

  /** A last undisturbed attempt leaves the tables of `whole`, and ends as it did or, if the run was closed
      before, as the closed run is read back. */
  ghost predicate EndsAs(b: Batch, runId: string, before: Tables, lastId: string, whole: Attempted) {
    var last := Attempt(b, before, lastId, Uninterrupted(b));
    && last.state == whole.state
    && (last.ending == whole.ending
        || (before == whole.state && ClosedRun(b, before, runId) && last.ending == Replayed(runId, before.runs[runId])))
  }

  lemma LastAttempt(b: Batch, settled: Settlement, start: Tables, runId: string, before: Tables, lastId: string)
    requires b.legal && Restartable(b, settled) && StillOpen(b, start, runId) && Underway(b, start, runId, before)
    ensures EndsAs(b, runId, before, lastId, Whole(b, start, runId))
  {
    if before == Whole(b, start, runId).state {
      WholeCloses(b, settled, start, runId);
      ClosedRunIsLeftAlone(b, before, runId, lastId, Uninterrupted(b));
    } else {
      var j :| 0 <= j <= |b.leads| && before == StateAt(b, start, runId, j);
      AttemptFromState(b, settled, start, runId, j, lastId, Uninterrupted(b));
    }
  }

  lemma AfterAnyAttempts(b: Batch, settled: Settlement, t: Tables, runId: string, commits: nat,
                         attempts: seq<(string, nat)>, lastId: string)
    requires b.legal && Restartable(b, settled) && b.requestKey !in t.keys && commits > 0
    ensures EndsAs(b, runId, RunAttempts(b, Attempt(b, t, runId, commits).state, attempts), lastId,
                   Attempt(b, t, runId, Uninterrupted(b)))
  {
    var start := Opened(b, t, runId);
    var first := Attempt(b, t, runId, commits).state;
    WorkIsUnderway(b, start, runId, commits - 1);
    AttemptsStayUnderway(b, settled, start, runId, first, attempts);
    LastAttempt(b, settled, start, runId, RunAttempts(b, first, attempts), lastId);
  }

  lemma StepKeepsRunOpen(job: Job, t: Tables, runId: string, lead: Lead)
    requires StillOpen(BatchOf(job), t, runId) && Step(job, t, runId, lead).Some?
    ensures StillOpen(BatchOf(job), Step(job, t, runId, lead).value, runId)
  {
  }

  lemma FinishCloses(job: Job, runId: string, p: Progress<Tables>)
    requires StillOpen(BatchOf(job), p.state, runId)
    ensures p.done <= |job.leads| ==> ClosedRun(BatchOf(job), Finish(job, runId, p).state, runId)
  {
  }

  lemma BatchIsRestartable(job: Job)
    ensures Restartable(BatchOf(job), Settled(job))
  {
    var b := BatchOf(job);
    forall runId ensures Resumable(b.turn(runId), Settled(job)(runId)) {
      TurnIsResumable(job, runId);
    }
    forall runId, t, lead | StillOpen(b, t, runId) && b.turn(runId)(t, lead).Some?
      ensures StillOpen(b, b.turn(runId)(t, lead).value, runId)
    {
      StepKeepsRunOpen(job, t, runId, lead);
    }
    forall runId, p: Progress<Tables> | p.done <= |b.leads| && StillOpen(b, p.state, runId)
      ensures ClosedRun(b, b.finish(runId)(p).state, runId)
    {
      FinishCloses(job, runId, p);
    }
  }

  /** Crash equivalence. Let an attempt under `runId` create the run and die or not, let any further attempts
      die wherever they do, and let a last one run undisturbed: the tables are those of one undisturbed
      attempt, and so is the ending, up to being read back. */
  lemma CrashEquivalence(job: Job, t: Tables, runId: string, commits: nat, attempts: seq<(string, nat)>, lastId: string)
    requires BatchOf(job).legal && job.requestKey !in t.keys && commits > 0
    ensures EndsAs(BatchOf(job), runId,
                   RunAttempts(BatchOf(job), Attempt(BatchOf(job), t, runId, commits).state, attempts), lastId,
                   Attempt(BatchOf(job), t, runId, Uninterrupted(BatchOf(job))))
  {
    BatchIsRestartable(job);
    AfterAnyAttempts(BatchOf(job), Settled(job), t, runId, commits, attempts, lastId);
  }
}
