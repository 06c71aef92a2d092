/** The leased job queue for reply analysis, as its SQL statements define it.

    `Model` is the table together with the database clock and a history of what the workers did.
    `Apply` executes one statement; any sequence of steps is an interleaving of any number of
    workers with the passing of time. The class below is the queue as one process uses it. */
module AnalysisQueue {
  import opened Wrappers

  datatype Status = Pending | Processing | Completed | Failed

  datatype Job = Job(
    replyId: string, status: Status, attempts: nat, owner: Option<string>, leaseUntil: Option<real>,
    analysis: Option<string>, error: Option<string>, createdAt: real)

  /** What was done to a job, and by whom; `under` is the attempt count its reporter was given by its claim. */
  datatype Event =
    | Claimed(worker: string, id: nat, until: real)
    | Written(worker: string, id: nat, under: nat, analysis: string)
    | Bounced(worker: string, id: nat, under: nat, error: string)

  datatype History = Start | Then(earlier: History, latest: Event)

  datatype Model = Model(now: real, jobs: map<nat, Job>, history: History)

  const MAX_ATTEMPTS := 5

  const ERROR_LIMIT := 4000

  // ---------- the statements ----------

  datatype Step =
    | Enqueue(replyId: string, freshId: nat)
    | Claim(worker: string, batchSize: int, leaseSeconds: int, locked: set<nat>, chosen: seq<nat>)
    | Complete(worker: string, id: nat, under: nat, analysis: string)
    | Fail(worker: string, id: nat, under: nat, error: string)
    | Pass(seconds: real)

  predicate Claimable(job: Job, now: real) {
    job.status == Pending || (job.status == Processing && job.leaseUntil.Some? && job.leaseUntil.value < now)
  }

  predicate NoRepeat(chosen: seq<nat>) {
    chosen == [] || (chosen[0] !in chosen[1..] && NoRepeat(chosen[1..]))
  }

  /** The rows the claim statement may update: claimable rows nobody else has locked, none younger than any it leaves,
      up to the batch size. Which of several equally old rows it takes, and in what order it updates and returns them,
      is the database's choice. */
  predicate Picks(m: Model, locked: set<nat>, batchSize: int, chosen: seq<nat>) {
    match m
    case Model(now, jobs, _) =>
      && |chosen| <= batchSize
      && (forall i :: 0 <= i < |chosen| ==>
            chosen[i] in jobs && chosen[i] !in locked && Claimable(jobs[chosen[i]], now))
      && NoRepeat(chosen)
      && (forall id :: id in jobs && id !in locked && id !in chosen && Claimable(jobs[id], now) ==>
            |chosen| == batchSize && forall i :: 0 <= i < |chosen| ==> jobs[chosen[i]].createdAt <= jobs[id].createdAt)
  }

  predicate ClaimArgumentsValid(batchSize: int, leaseSeconds: int) {
    1 <= batchSize <= 100 && 10 <= leaseSeconds <= 3600
  }

  function ClaimRow(m: Model, worker: string, until: real, id: nat): Model {
    if id !in m.jobs then m
    else
      var job := m.jobs[id];
      m.(jobs := m.jobs[id := job.(status := Processing, attempts := job.attempts + 1,
                                    owner := Some(worker), leaseUntil := Some(until))],
         history := Then(m.history, Claimed(worker, id, until)))
  }

  function ClaimRows(m: Model, worker: string, until: real, chosen: seq<nat>): Model
    decreases |chosen|
  {
    if chosen == [] then m else ClaimRows(ClaimRow(m, worker, until, chosen[0]), worker, until, chosen[1..])
  }

  /** The guard of the completion and failure statements. It does not look at the lease. */
  predicate Holds(m: Model, worker: string, id: nat) {
    id in m.jobs && m.jobs[id].status == Processing && m.jobs[id].owner == Some(worker)
  }

  function CompleteRow(m: Model, worker: string, id: nat, under: nat, analysis: string): Model {
    if !Holds(m, worker, id) then m
    else
      m.(jobs := m.jobs[id := m.jobs[id].(status := Completed, analysis := Some(analysis),
                                          owner := None, leaseUntil := None, error := None)],
         history := Then(m.history, Written(worker, id, under, analysis)))
  }

  function Truncated(error: string): string {
    if |error| <= ERROR_LIMIT then error else error[..ERROR_LIMIT]
  }

  function FailRow(m: Model, worker: string, id: nat, under: nat, error: string): Model {
    if !Holds(m, worker, id) then m
    else
      var job := m.jobs[id];
      m.(jobs := m.jobs[id := job.(status := if job.attempts >= MAX_ATTEMPTS then Failed else Pending,
                                   owner := None, leaseUntil := None, error := Some(Truncated(error)))],
         history := Then(m.history, Bounced(worker, id, under, Truncated(error))))
  }

  predicate Queued(m: Model, replyId: string) {
    exists id :: id in m.jobs && m.jobs[id].replyId == replyId
  }

  function Apply(m: Model, step: Step): Model {
    match step
    case Enqueue(replyId, freshId) =>
      if Queued(m, replyId) || freshId in m.jobs then m
      else m.(jobs := m.jobs[freshId := Job(replyId, Pending, 0, None, None, None, None, m.now)])
    case Claim(worker, batchSize, leaseSeconds, locked, chosen) =>
      if ClaimArgumentsValid(batchSize, leaseSeconds) && Picks(m, locked, batchSize, chosen)
      then ClaimRows(m, worker, m.now + leaseSeconds as real, chosen) else m
    case Complete(worker, id, under, analysis) => CompleteRow(m, worker, id, under, analysis)
    case Fail(worker, id, under, error) => FailRow(m, worker, id, under, error)
    case Pass(seconds) => if seconds > 0.0 then m.(now := m.now + seconds) else m
  }

  function Run(m: Model, steps: seq<Step>): Model
    decreases |steps|
  {
    if steps == [] then m else Run(Apply(m, steps[0]), steps[1..])
  }

  // ---------- reading the history ----------

  ghost function ClaimCount(h: History, id: nat): nat {
    match h
    case Start => 0
    case Then(earlier, e) => ClaimCount(earlier, id) + if e.Claimed? && e.id == id then 1 else 0
  }

  ghost function BounceCount(h: History, id: nat): nat {
    match h
    case Start => 0
    case Then(earlier, e) => BounceCount(earlier, id) + if e.Bounced? && e.id == id then 1 else 0
  }

  ghost function WriteCount(h: History, id: nat): nat {
    match h
    case Start => 0
    case Then(earlier, e) => WriteCount(earlier, id) + if e.Written? && e.id == id then 1 else 0
  }

  ghost function LastClaim(h: History, id: nat): Option<Event> {
    match h
    case Start => None
    case Then(earlier, e) => if e.Claimed? && e.id == id then Some(e) else LastClaim(earlier, id)
  }

  ghost function LastWrite(h: History, id: nat): Option<string> {
    match h
    case Start => None
    case Then(earlier, e) => if e.Written? && e.id == id then Some(e.analysis) else LastWrite(earlier, id)
  }

  ghost function LastError(h: History, id: nat): Option<string> {
    match h
    case Start => None
    case Then(earlier, e) => if e.Bounced? && e.id == id then Some(e.error) else LastError(earlier, id)
  }

  /** Every result and every failure ever recorded came from the job's latest claimant at that moment. */
  ghost predicate Fenced(h: History) {
    match h
    case Start => true
    case Then(earlier, e) =>
      && Fenced(earlier)
      && (!e.Claimed? ==> LastClaim(earlier, e.id).Some? && LastClaim(earlier, e.id).value.worker == e.worker)
  }

  // ---------- the invariant ----------

  ghost predicate JobInv(job: Job, h: History, id: nat) {
    match job
    case Job(_, status, attempts, owner, leaseUntil, analysis, error, _) =>
      && attempts == ClaimCount(h, id)
      && (status == Processing <==> owner.Some?)
      && (owner.Some? <==> leaseUntil.Some?)
      && (status == Processing ==> LastClaim(h, id) == Some(Claimed(owner.value, id, leaseUntil.value)))
      && (status == Completed <==> analysis.Some?)
      && WriteCount(h, id) == (if status == Completed then 1 else 0)
      && (status == Completed ==> LastWrite(h, id) == analysis)
      && error == (if status == Completed then None else LastError(h, id))
      && BounceCount(h, id) <= attempts
      && (status == Processing ==> BounceCount(h, id) < attempts)
      && BounceCount(h, id) <= (if status == Failed then MAX_ATTEMPTS else MAX_ATTEMPTS - 1)
      && (status == Failed ==> attempts >= MAX_ATTEMPTS)
  }

  ghost predicate OneJobPerReply(jobs: map<nat, Job>) {
    forall id, other :: id in jobs && other in jobs && jobs[id].replyId == jobs[other].replyId ==> id == other
  }

  ghost predicate Inv(m: Model) {
    match m
    case Model(_, jobs, history) =>
      && Fenced(history)
      && (forall id :: id in jobs ==> JobInv(jobs[id], history, id))
      && (forall id :: id !in jobs ==>
            ClaimCount(history, id) == WriteCount(history, id) == BounceCount(history, id) == 0
            && LastError(history, id) == None)
      && OneJobPerReply(jobs)
  }

  lemma EmptyTableInv(now: real)
    ensures Inv(Model(now, map[], Start))
  {
  }

  lemma ClaimRowKeeps(m: Model, worker: string, until: real, id: nat)
    requires Inv(m) && id in m.jobs && m.jobs[id].status in {Pending, Processing}
    ensures Inv(ClaimRow(m, worker, until, id))
  {
    var n := ClaimRow(m, worker, until, id);
    assert JobInv(m.jobs[id], m.history, id);
    forall other | other in n.jobs ensures JobInv(n.jobs[other], n.history, other) {
      assert other in m.jobs && JobInv(m.jobs[other], m.history, other);
    }
  }

  lemma {:induction false} ClaimRowsKeeps(m: Model, worker: string, until: real, chosen: seq<nat>)
    requires Inv(m) && NoRepeat(chosen)
    requires forall i :: 0 <= i < |chosen| ==> chosen[i] in m.jobs && m.jobs[chosen[i]].status in {Pending, Processing}
    ensures var n := ClaimRows(m, worker, until, chosen);
            && Inv(n) && n.now == m.now && n.jobs.Keys == m.jobs.Keys
            && (forall id :: id in m.jobs && id !in chosen ==> n.jobs[id] == m.jobs[id])
            && (forall id :: id in chosen ==> Holds(n, worker, id) && n.jobs[id].leaseUntil == Some(until))
            && (forall id :: id in chosen ==> n.jobs[id].attempts == m.jobs[id].attempts + 1)
    decreases |chosen|
  {
    if chosen != [] {
      var id := chosen[0];
      var n := ClaimRow(m, worker, until, id);
      ClaimRowKeeps(m, worker, until, id);
      forall i | 0 <= i < |chosen[1..]|
        ensures chosen[1..][i] in n.jobs && n.jobs[chosen[1..][i]].status in {Pending, Processing}
      {
        assert chosen[1..][i] == chosen[i + 1];
      }
      ClaimRowsKeeps(n, worker, until, chosen[1..]);
      assert forall x :: x in chosen <==> x == id || x in chosen[1..];
    }
  }

  lemma CompleteRowKeeps(m: Model, worker: string, id: nat, under: nat, analysis: string)
    requires Inv(m)
    ensures Inv(CompleteRow(m, worker, id, under, analysis))
  {
    if Holds(m, worker, id) {
      var n := CompleteRow(m, worker, id, under, analysis);
      assert JobInv(m.jobs[id], m.history, id);
      forall other | other in n.jobs ensures JobInv(n.jobs[other], n.history, other) {
        assert other in m.jobs && JobInv(m.jobs[other], m.history, other);
      }
    }
  }

  lemma FailRowKeeps(m: Model, worker: string, id: nat, under: nat, error: string)
    requires Inv(m)
    ensures Inv(FailRow(m, worker, id, under, error))
  {
    if Holds(m, worker, id) {
      var n := FailRow(m, worker, id, under, error);
      assert JobInv(m.jobs[id], m.history, id);
      forall other | other in n.jobs ensures JobInv(n.jobs[other], n.history, other) {
        assert other in m.jobs && JobInv(m.jobs[other], m.history, other);
      }
    }
  }

  lemma EnqueueKeeps(m: Model, replyId: string, freshId: nat)
    requires Inv(m)
    ensures Inv(Apply(m, Enqueue(replyId, freshId)))
  {
  }

  lemma ClaimKeeps(m: Model, worker: string, batchSize: int, until: real, locked: set<nat>, chosen: seq<nat>)
    requires Inv(m) && Picks(m, locked, batchSize, chosen)
    ensures var n := ClaimRows(m, worker, until, chosen);
            && Inv(n) && n.now == m.now
            && (forall id :: id in m.jobs && id !in chosen ==> id in n.jobs && n.jobs[id] == m.jobs[id])
            && (forall id :: id in chosen ==> Holds(n, worker, id) && n.jobs[id].leaseUntil == Some(until))
  {
    ClaimRowsKeeps(m, worker, until, chosen);
  }

  lemma PassKeeps(m: Model, seconds: real)
    requires Inv(m)
    ensures Inv(Apply(m, Pass(seconds))) && m.now <= Apply(m, Pass(seconds)).now
  {
  }

  lemma TimeGoesOn(m: Model, step: Step)
    requires Inv(m)
    ensures m.now <= Apply(m, step).now
  {
    if step.Claim? && Picks(m, step.locked, step.batchSize, step.chosen) {
      ClaimRowsKeeps(m, step.worker, m.now + step.leaseSeconds as real, step.chosen);
    }
  }

  lemma ClaimStepKeeps(m: Model, worker: string, batchSize: int, leaseSeconds: int, locked: set<nat>, chosen: seq<nat>)
    requires Inv(m)
    ensures Inv(Apply(m, Claim(worker, batchSize, leaseSeconds, locked, chosen)))
  {
    if Picks(m, locked, batchSize, chosen) {
      ClaimKeeps(m, worker, batchSize, m.now + leaseSeconds as real, locked, chosen);
    }
  }

  lemma StepKeeps(m: Model, step: Step)
    requires Inv(m)
    ensures Inv(Apply(m, step)) && m.now <= Apply(m, step).now
  {
    TimeGoesOn(m, step);
    match step
    case Enqueue(replyId, freshId) => EnqueueKeeps(m, replyId, freshId);
    case Claim(worker, batchSize, leaseSeconds, locked, chosen) =>
      ClaimStepKeeps(m, worker, batchSize, leaseSeconds, locked, chosen);
    case Complete(worker, id, under, analysis) => CompleteRowKeeps(m, worker, id, under, analysis);
    case Fail(worker, id, under, error) => FailRowKeeps(m, worker, id, under, error);
    case Pass(seconds) => PassKeeps(m, seconds);
  }

  /** Every interleaving keeps the invariant: attempts count claims, a result is written at most once and
      by the latest claimant, and at most five provider failures are recorded however often leases expire. */
  lemma {:induction false} EveryRunKeepsInv(m: Model, steps: seq<Step>)
    requires Inv(m)
    ensures Inv(Run(m, steps)) && m.now <= Run(m, steps).now
    decreases |steps|
  {
    if steps != [] {
      StepKeeps(m, steps[0]);
      EveryRunKeepsInv(Apply(m, steps[0]), steps[1..]);
    }
  }

  /** A reply is queued exactly when it has no job yet, and then waits untouched. */
  lemma EnqueuedIffNew(m: Model, replyId: string, freshId: nat, n: Model)
    requires freshId !in m.jobs && n == Apply(m, Enqueue(replyId, freshId))
    ensures n != m <==> forall id :: id in m.jobs ==> m.jobs[id].replyId != replyId
    ensures n != m ==> n.jobs.Keys == m.jobs.Keys + {freshId}
    ensures n != m ==> forall id :: id in m.jobs ==> n.jobs[id] == m.jobs[id]
    ensures n != m ==> n.jobs[freshId].replyId == replyId && n.jobs[freshId].status == Pending
    ensures n != m ==> n.jobs[freshId].createdAt == m.now == n.now
  {
    assert n != m ==> freshId in n.jobs;
  }

  /** What a failure leaves: the job is given back or, from the fifth attempt on, given up, with up to 4000
      characters of the error. */
  lemma FailureOnRecord(m: Model, worker: string, id: nat, under: nat, error: string, job: Job)
    requires Inv(m) && id in m.jobs && m.jobs[id].status == Processing && m.jobs[id].owner == Some(worker)
    requires job == Apply(m, Fail(worker, id, under, error)).jobs[id]
    ensures job.status == (if m.jobs[id].attempts < 5 then Pending else Failed) && job.attempts == m.jobs[id].attempts
    ensures job.owner.None? && job.leaseUntil.None? && job.analysis.None?
    ensures job.error.Some? && job.error.value <= error
    ensures |job.error.value| == if |error| < 4000 then |error| else 4000
    ensures job.replyId == m.jobs[id].replyId && job.createdAt == m.jobs[id].createdAt
  {
    assert JobInv(m.jobs[id], m.history, id);
  }

  // ---------- what runs do to one job ----------

  /** Whether a step is a completion or failure of this job by this worker. */
  predicate Finishes(step: Step, worker: string, id: nat) {
    (step.Complete? || step.Fail?) && step.worker == worker && step.id == id
  }

  lemma {:induction false} ClaimRowsOthers(m: Model, worker: string, until: real, chosen: seq<nat>, id: nat)
    requires id in m.jobs && id !in chosen
    ensures id in ClaimRows(m, worker, until, chosen).jobs && ClaimRows(m, worker, until, chosen).jobs[id] == m.jobs[id]
    decreases |chosen|
  {
    if chosen != [] {
      ClaimRowsOthers(ClaimRow(m, worker, until, chosen[0]), worker, until, chosen[1..], id);
    }
  }

  /** A row that is not claimable and that nobody holding it finishes stays exactly as it is. */
  lemma StepLeavesAlone(m: Model, step: Step, id: nat)
    requires id in m.jobs && !Claimable(m.jobs[id], m.now)
    requires m.jobs[id].owner.Some? ==> !Finishes(step, m.jobs[id].owner.value, id)
    ensures id in Apply(m, step).jobs && Apply(m, step).jobs[id] == m.jobs[id]
  {
    if step.Claim? && Picks(m, step.locked, step.batchSize, step.chosen) {
      assert id !in step.chosen;
      ClaimRowsOthers(m, step.worker, m.now + step.leaseSeconds as real, step.chosen, id);
    }
  }

  /** Completed and failed jobs never change again. */
  lemma {:induction false} TerminalRowsAreAbsorbing(m: Model, steps: seq<Step>, id: nat)
    requires Inv(m) && id in m.jobs && m.jobs[id].status in {Completed, Failed}
    ensures id in Run(m, steps).jobs && Run(m, steps).jobs[id] == m.jobs[id]
    decreases |steps|
  {
    if steps != [] {
      assert JobInv(m.jobs[id], m.history, id);
      StepLeavesAlone(m, steps[0], id);
      StepKeeps(m, steps[0]);
      TerminalRowsAreAbsorbing(Apply(m, steps[0]), steps[1..], id);
    }
  }

  /** While a worker's lease lasts, nothing any other worker does touches its row. */
  lemma {:induction false} LeaseProtects(m: Model, steps: seq<Step>, worker: string, id: nat)
    requires Inv(m) && Holds(m, worker, id) && m.jobs[id].leaseUntil.Some?
    requires Run(m, steps).now <= m.jobs[id].leaseUntil.value
    requires forall i :: 0 <= i < |steps| ==> !Finishes(steps[i], worker, id)
    ensures id in Run(m, steps).jobs && Run(m, steps).jobs[id] == m.jobs[id]
    decreases |steps|
  {
    if steps != [] {
      var n := Apply(m, steps[0]);
      StepKeeps(m, steps[0]);
      EveryRunKeepsInv(n, steps[1..]);
      StepLeavesAlone(m, steps[0], id);
      LeaseProtects(n, steps[1..], worker, id);
    }
  }

  /** So a completion or failure reported before the lease runs out always succeeds. */
  lemma InTimeReportSucceeds(m: Model, steps: seq<Step>, worker: string, id: nat)
    requires Inv(m) && Holds(m, worker, id) && m.jobs[id].leaseUntil.Some?
    requires Run(m, steps).now <= m.jobs[id].leaseUntil.value
    requires forall i :: 0 <= i < |steps| ==> !Finishes(steps[i], worker, id)
    ensures var n := Run(m, steps);
            && Holds(n, worker, id)
            && (forall k, a :: Apply(n, Complete(worker, id, k, a)).jobs[id].analysis == Some(a))
            && (forall k, e ::
                  Apply(n, Fail(worker, id, k, e)).jobs[id].status
                  == (if m.jobs[id].attempts >= 5 then Failed else Pending))
  {
    LeaseProtects(m, steps, worker, id);
  }

  /** In a table of one claimable row, a claim takes it. */
  lemma SoleRowIsClaimed(m: Model, worker: string, leaseSeconds: int, id: nat)
    requires m.jobs.Keys == {id} && Claimable(m.jobs[id], m.now) && 10 <= leaseSeconds <= 3600
    ensures Apply(m, Claim(worker, 1, leaseSeconds, {}, [id])) == ClaimRow(m, worker, m.now + leaseSeconds as real, id)
  {
    assert [id][1..] == [] && NoRepeat([id]);
    assert Picks(m, {}, 1, [id]);
    assert ClaimRows(m, worker, m.now + leaseSeconds as real, [id])
        == ClaimRows(ClaimRow(m, worker, m.now + leaseSeconds as real, id), worker, m.now + leaseSeconds as real, []);
  }

  // ---------- reports made under an earlier claim ----------

  predicate IsReport(step: Step) {
    step.Complete? || step.Fail?
  }

  /** The report changes its row. */
  predicate Lands(m: Model, step: Step) {
    IsReport(step) && Holds(m, step.worker, step.id)
  }

  /** A report lands exactly when its row is being processed and the latest claimant has the reporter's worker
      id, whichever claim the report was made under; otherwise it changes nothing at all. */
  lemma ReportLandsIff(m: Model, step: Step)
    requires Inv(m) && IsReport(step) && step.id in m.jobs
    ensures Lands(m, step) <==> Apply(m, step) != m
    ensures Lands(m, step) <==> m.jobs[step.id].status == Processing && LastClaim(m.history, step.id).Some?
                                && LastClaim(m.history, step.id).value.worker == step.worker
  {
    assert JobInv(m.jobs[step.id], m.history, step.id);
  }

  /** No report on record was made under an earlier claim than the latest at that moment. */
  ghost predicate Current(h: History) {
    match h
    case Start => true
    case Then(earlier, e) => Current(earlier) && (!e.Claimed? ==> e.under >= ClaimCount(earlier, e.id))
  }

  lemma OlderReportLands(n: Model, w: string, id: nat, under: nat, late: string)
    requires Holds(n, w, id) && under < ClaimCount(n.history, id)
    ensures var stale := Complete(w, id, under, late);
            Lands(n, stale) && Apply(n, stale).jobs[id].analysis == Some(late) && !Current(Apply(n, stale).history)
  {
  }

  /** A worker id that claims a job again, its own lease having run out, lets the report in that it still owes
      under the older claim. */
  lemma SharedWorkerIdIsNotFenced(m: Model, w: string, id: nat, batchSize: int, leaseSeconds: int, locked: set<nat>,
                                  chosen: seq<nat>, late: string)
    requires Inv(m) && Holds(m, w, id)
    requires ClaimArgumentsValid(batchSize, leaseSeconds) && Picks(m, locked, batchSize, chosen) && id in chosen
    ensures var n := Apply(m, Claim(w, batchSize, leaseSeconds, locked, chosen));
            var stale := Complete(w, id, m.jobs[id].attempts, late);
            && id in n.jobs && n.jobs[id].attempts == m.jobs[id].attempts + 1
            && Lands(n, stale) && Apply(n, stale).jobs[id].analysis == Some(late)
            && !Current(Apply(n, stale).history)
  {
    ClaimRowsKeeps(m, w, m.now + leaseSeconds as real, chosen);
    var n := Apply(m, Claim(w, batchSize, leaseSeconds, locked, chosen));
    assert JobInv(n.jobs[id], n.history, id);
    OlderReportLands(n, w, id, m.jobs[id].attempts, late);
  }

  /** From here on this worker id reports on the job only under claims after the `n`th. */
  ghost predicate ReportsAfter(steps: seq<Step>, worker: string, id: nat, n: int) {
    forall i :: 0 <= i < |steps| && Finishes(steps[i], worker, id) ==> steps[i].under > n
  }

  /** No worker id claims a job again while a report of its own on that job, under an older claim, is to come. */
  ghost predicate Disciplined(m: Model, steps: seq<Step>)
    decreases |steps|
  {
    steps == []
    || (&& (steps[0].Claim? && Picks(m, steps[0].locked, steps[0].batchSize, steps[0].chosen) ==>
              forall id :: id in steps[0].chosen ==> ReportsAfter(steps[1..], steps[0].worker, id, m.jobs[id].attempts))
        && Disciplined(Apply(m, steps[0]), steps[1..]))
  }

  /** The holders of claims owe no report under an older one. */
  ghost predicate UpToDate(m: Model, steps: seq<Step>) {
    forall id :: id in m.jobs && m.jobs[id].status == Processing && m.jobs[id].owner.Some? ==>
      ReportsAfter(steps, m.jobs[id].owner.value, id, m.jobs[id].attempts - 1)
  }

  lemma ReportsAfterTail(steps: seq<Step>, worker: string, id: nat, n: int)
    requires steps != [] && ReportsAfter(steps, worker, id, n)
    ensures ReportsAfter(steps[1..], worker, id, n)
  {
    forall i | 0 <= i < |steps[1..]| && Finishes(steps[1..][i], worker, id) ensures steps[1..][i].under > n {
      assert steps[1..][i] == steps[i + 1];
    }
  }

  lemma PickedRow(m: Model, worker: string, until: real, locked: set<nat>, batchSize: int, chosen: seq<nat>, id: nat)
    requires Inv(m) && Picks(m, locked, batchSize, chosen) && id in ClaimRows(m, worker, until, chosen).jobs
    ensures var n := ClaimRows(m, worker, until, chosen);
            && id in m.jobs
            && (if id in chosen then n.jobs[id].owner == Some(worker) && n.jobs[id].attempts == m.jobs[id].attempts + 1
                else n.jobs[id] == m.jobs[id])
  {
    ClaimRowsKeeps(m, worker, until, chosen);
  }

  /** A row after a step: as it was, claimed once more by the claimant, or not being processed. */
  lemma RowAfter(m: Model, step: Step, id: nat)
    requires Inv(m) && id in Apply(m, step).jobs
    ensures var n := Apply(m, step);
            || (id in m.jobs && n.jobs[id] == m.jobs[id])
            || (step.Claim? && Picks(m, step.locked, step.batchSize, step.chosen) && id in step.chosen && id in m.jobs
                && n.jobs[id].owner == Some(step.worker) && n.jobs[id].attempts == m.jobs[id].attempts + 1)
            || n.jobs[id].status != Processing
  {
    if step.Claim? {
      if ClaimArgumentsValid(step.batchSize, step.leaseSeconds) && Picks(m, step.locked, step.batchSize, step.chosen) {
        PickedRow(m, step.worker, m.now + step.leaseSeconds as real, step.locked, step.batchSize, step.chosen, id);
      }
    }
  }

  lemma StaysUpToDate(m: Model, steps: seq<Step>)
    requires Inv(m) && steps != [] && Disciplined(m, steps) && UpToDate(m, steps)
    ensures UpToDate(Apply(m, steps[0]), steps[1..])
  {
    var n := Apply(m, steps[0]);
    forall id | id in n.jobs && n.jobs[id].status == Processing && n.jobs[id].owner.Some?
      ensures ReportsAfter(steps[1..], n.jobs[id].owner.value, id, n.jobs[id].attempts - 1)
    {
      RowAfter(m, steps[0], id);
      if id in m.jobs && n.jobs[id] == m.jobs[id] {
        ReportsAfterTail(steps, n.jobs[id].owner.value, id, n.jobs[id].attempts - 1);
      }
    }
  }

  lemma {:induction false} ClaimsStayCurrent(m: Model, worker: string, until: real, chosen: seq<nat>)
    requires Current(m.history)
    ensures Current(ClaimRows(m, worker, until, chosen).history)
    decreases |chosen|
  {
    if chosen != [] {
      ClaimsStayCurrent(ClaimRow(m, worker, until, chosen[0]), worker, until, chosen[1..]);
    }
  }

  lemma StepStaysCurrent(m: Model, steps: seq<Step>)
    requires Inv(m) && steps != [] && UpToDate(m, steps) && Current(m.history)
    ensures Current(Apply(m, steps[0]).history)
  {
    var step := steps[0];
    if step.Claim? {
      ClaimsStayCurrent(m, step.worker, m.now + step.leaseSeconds as real, step.chosen);
    } else if Lands(m, step) {
      assert JobInv(m.jobs[step.id], m.history, step.id);
      assert Finishes(steps[0], step.worker, step.id);
    }
  }

  /** Under that discipline no report made under an earlier claim ever lands. */
  lemma {:induction false} DisciplineFences(m: Model, steps: seq<Step>)
    requires Inv(m) && Disciplined(m, steps) && UpToDate(m, steps) && Current(m.history)
    ensures Current(Run(m, steps).history)
    decreases |steps|
  {
    if steps != [] {
      StepKeeps(m, steps[0]);
      StepStaysCurrent(m, steps);
      StaysUpToDate(m, steps);
      DisciplineFences(Apply(m, steps[0]), steps[1..]);
    }
  }

  /** In particular over every disciplined run of a new queue. */
  lemma NewQueueIsFenced(now: real, steps: seq<Step>)
    requires Disciplined(Model(now, map[], Start), steps)
    ensures Inv(Run(Model(now, map[], Start), steps)) && Current(Run(Model(now, map[], Start), steps).history)
  {
    EmptyTableInv(now);
    EveryRunKeepsInv(Model(now, map[], Start), steps);
    DisciplineFences(Model(now, map[], Start), steps);
  }

  lemma RunOfFive(m: Model, a: Step, b: Step, c: Step, d: Step, e: Step)
    ensures Run(m, [a, b, c, d, e]) == Apply(Apply(Apply(Apply(Apply(m, a), b), c), d), e)
  {
    assert [a, b, c, d, e][1..] == [b, c, d, e] && [b, c, d, e][1..] == [c, d, e] && [c, d, e][1..] == [d, e];
    assert [d, e][1..] == [e] && [e][1..] == [];
    var m1, m2 := Apply(m, a), Apply(Apply(m, a), b);
    var m3 := Apply(m2, c);
    var m4 := Apply(m3, d);
    assert Run(m, [a, b, c, d, e]) == Run(m1, [b, c, d, e]) == Run(m2, [c, d, e]);
    assert Run(m2, [c, d, e]) == Run(m3, [d, e]) == Run(m4, [e]) == Run(Apply(m4, e), []);
  }

  /** Without it one does, in a run of a new queue: the analysis stored is the one made under the first claim. */
  lemma StaleReportIsReached(w: string, reply: string, late: string)
    ensures var start := Model(0.0, map[], Start);
            var n := Run(start, [Enqueue(reply, 7), Claim(w, 1, 10, {}, [7]), Pass(11.0), Claim(w, 1, 10, {}, [7]),
                                 Complete(w, 7, 1, late)]);
            Inv(n) && 7 in n.jobs && n.jobs[7].attempts == 2 && n.jobs[7].analysis == Some(late) && !Current(n.history)
  {
    var start := Model(0.0, map[], Start);
    var steps := [Enqueue(reply, 7), Claim(w, 1, 10, {}, [7]), Pass(11.0), Claim(w, 1, 10, {}, [7]),
                  Complete(w, 7, 1, late)];
    EmptyTableInv(0.0);
    EveryRunKeepsInv(start, steps);
    var m1 := Apply(start, steps[0]);
    assert m1.jobs == map[7 := Job(reply, Pending, 0, None, None, None, None, 0.0)];
    SoleRowIsClaimed(m1, w, 10, 7);
    var m3 := Apply(ClaimRow(m1, w, 10.0, 7), Pass(11.0));
    SoleRowIsClaimed(m3, w, 10, 7);
    RunOfFive(start, steps[0], steps[1], steps[2], steps[3], steps[4]);
  }

  // ---------- failures are only ever added ----------

  lemma {:induction false} ClaimRowsBounces(m: Model, worker: string, until: real, chosen: seq<nat>, id: nat)
    ensures BounceCount(ClaimRows(m, worker, until, chosen).history, id) == BounceCount(m.history, id)
    decreases |chosen|
  {
    if chosen != [] {
      ClaimRowsBounces(ClaimRow(m, worker, until, chosen[0]), worker, until, chosen[1..], id);
    }
  }

  lemma {:induction false} BouncesOnlyGrow(m: Model, steps: seq<Step>, id: nat)
    ensures BounceCount(m.history, id) <= BounceCount(Run(m, steps).history, id)
    decreases |steps|
  {
    if steps != [] {
      if steps[0].Claim? && Apply(m, steps[0]) != m {
        ClaimRowsBounces(m, steps[0].worker, m.now + steps[0].leaseSeconds as real, steps[0].chosen, id);
      }
      BouncesOnlyGrow(Apply(m, steps[0]), steps[1..], id);
    }
  }

  ghost predicate NoFewerBounces(before: Model, m: Model) {
    forall id :: BounceCount(before.history, id) <= BounceCount(m.history, id)
  }

  lemma RunKeepsBounces(before: Model, m: Model, steps: seq<Step>)
    requires NoFewerBounces(before, m)
    ensures NoFewerBounces(before, Run(m, steps))
  {
    forall id ensures BounceCount(before.history, id) <= BounceCount(Run(m, steps).history, id) {
      BouncesOnlyGrow(m, steps, id);
    }
  }

  function Reported(m: Model, worker: string, id: nat, under: nat, answer: Answer): Model {
    match answer
    case Analysed(analysis) => CompleteRow(m, worker, id, under, analysis)
    case ProviderError(message) => FailRow(m, worker, id, under, message)
  }

  lemma ReportKeepsBounces(before: Model, m: Model, worker: string, id: nat, under: nat, answer: Answer)
    requires NoFewerBounces(before, m)
    ensures NoFewerBounces(before, Reported(m, worker, id, under, answer))
  {
  }

  // ---------- the queue and the worker ----------

  class Database {
    var now: real
    var jobs: map<nat, Job>
    var history: History

    constructor (now: real)
      ensures State() == Model(now, map[], Start) && Inv(State())
    {
      this.now, jobs, history := now, map[], Start;
    }

    function State(): Model
      reads this
    {
      Model(now, jobs, history)
    }

    method Become(m: Model)
      modifies this
      ensures State() == m
    {
      now, jobs, history := m.now, m.jobs, m.history;
    }
  }

  /** The statement's update of the chosen rows. */
  method UpdateRows(before: Model, worker: string, until: real, chosen: seq<nat>) returns (m: Model)
    ensures m == ClaimRows(before, worker, until, chosen)
  {
    m := before;
    for i := 0 to |chosen|
      invariant ClaimRows(m, worker, until, chosen[i..]) == ClaimRows(before, worker, until, chosen)
    {
      assert chosen[i..][0] == chosen[i] && chosen[i..][1..] == chosen[i + 1..];
      m := ClaimRow(m, worker, until, chosen[i]);
    }
  }

  class ConversationAnalysisQueue {
    const db: Database
    const workerId: string

    constructor (db: Database, workerId: string)
      ensures this.db == db && this.workerId == workerId
    {
      this.db, this.workerId := db, workerId;
    }

    /** Enqueueing a reply again finds the job it already has. */
    method Enqueue(replyId: string, freshId: nat) returns (id: nat)
      requires Inv(db.State()) && freshId !in db.jobs
      modifies db
      ensures Inv(db.State()) && db.State() == Apply(old(db.State()), Step.Enqueue(replyId, freshId))
      ensures id in db.jobs && db.jobs[id].replyId == replyId
      ensures Queued(old(db.State()), replyId) ==> db.State() == old(db.State())
    {
      StepKeeps(db.State(), Step.Enqueue(replyId, freshId));
      if Queued(db.State(), replyId) {
        id :| id in db.jobs && db.jobs[id].replyId == replyId;
      } else {
        id := freshId;
        db.jobs := db.jobs[freshId := Job(replyId, Pending, 0, None, None, None, None, db.now)];
      }
    }

    /** One claim statement, updating the chosen rows in turn. */
    method Claim(batchSize: int, leaseSeconds: int, locked: set<nat>, chosen: seq<nat>) returns (ok: bool)
      requires Inv(db.State())
      requires (ClaimArgumentsValid(batchSize, leaseSeconds) ==> Picks(db.State(), locked, batchSize, chosen))
      modifies db
      ensures Inv(db.State()) && ok == ClaimArgumentsValid(batchSize, leaseSeconds)
      ensures db.State() == Apply(old(db.State()), Step.Claim(workerId, batchSize, leaseSeconds, locked, chosen))
    {
      ok := ClaimArgumentsValid(batchSize, leaseSeconds);
      if !ok {
        return;
      }
      var before, until := db.State(), db.now + leaseSeconds as real;
      StepKeeps(before, Step.Claim(workerId, batchSize, leaseSeconds, locked, chosen));
      var m := UpdateRows(before, workerId, until, chosen);
      db.Become(m);
    }

    /** False is the "lost worker lease" error. */
    method Complete(id: nat, under: nat, analysis: string) returns (ok: bool)
      requires Inv(db.State())
      modifies db
      ensures Inv(db.State()) && ok == Holds(old(db.State()), workerId, id)
      ensures db.State() == CompleteRow(old(db.State()), workerId, id, under, analysis)
    {
      CompleteRowKeeps(db.State(), workerId, id, under, analysis);
      ok := Holds(db.State(), workerId, id);
      if ok {
        db.jobs := db.jobs[id := db.jobs[id].(status := Completed, analysis := Some(analysis),
                                              owner := None, leaseUntil := None, error := None)];
        db.history := Then(db.history, Written(workerId, id, under, analysis));
      }
    }

    method Fail(id: nat, under: nat, error: string) returns (ok: bool)
      requires Inv(db.State())
      modifies db
      ensures Inv(db.State()) && ok == Holds(old(db.State()), workerId, id)
      ensures db.State() == FailRow(old(db.State()), workerId, id, under, error)
    {
      FailRowKeeps(db.State(), workerId, id, under, error);
      ok := Holds(db.State(), workerId, id);
      if ok {
        var status := if db.jobs[id].attempts >= MAX_ATTEMPTS then Failed else Pending;
        var kept := if |error| > ERROR_LIMIT then error[..ERROR_LIMIT] else error;
        db.jobs := db.jobs[id := db.jobs[id].(status := status, owner := None, leaseUntil := None,
                                              error := Some(kept))];
        db.history := Then(db.history, Bounced(workerId, id, under, kept));
      }
    }
  }

  /** What the analysis provider answers for a job. */
  datatype Answer = Analysed(analysis: string) | ProviderError(message: string)

  datatype Processed = AllProcessed(count: nat) | LostLease(at: nat) | BadBatchSize

  /** What the worker owes for the job it has been given `answer` for. */
  ghost predicate Settled(before: Model, after: Model, id: nat, answer: Answer) {
    match answer
    case Analysed(analysis) =>
      id in after.jobs && after.jobs[id].status == Completed && after.jobs[id].analysis == Some(analysis)
    case ProviderError(_) => BounceCount(before.history, id) < BounceCount(after.history, id)
  }

  lemma SettledStays(before: Model, m: Model, steps: seq<Step>, id: nat, answer: Answer)
    requires Inv(m) && Settled(before, m, id, answer)
    ensures Settled(before, Run(m, steps), id, answer)
  {
    if answer.Analysed? {
      TerminalRowsAreAbsorbing(m, steps, id);
    } else {
      BouncesOnlyGrow(m, steps, id);
    }
  }

  /** The row is still this worker's, under the lease that ends at `until`. */
  ghost predicate StillHeld(m: Model, worker: string, id: nat, until: real) {
    Holds(m, worker, id) && m.jobs[id].leaseUntil == Some(until)
  }

  ghost predicate NoneUnder(worker: string, steps: seq<Step>) {
    forall i, id :: 0 <= i < |steps| ==> !Finishes(steps[i], worker, id)
  }

  ghost predicate NobodyReportsAs(worker: string, others: nat -> seq<Step>) {
    forall i: nat :: NoneUnder(worker, others(i))
  }

  /** Where the worker stands with `done` jobs reported: those are settled, the others still held. */
  ghost predicate Standing(before: Model, m: Model, worker: string, chosen: seq<nat>, done: nat, answers: nat -> Answer,
                           until: real)
  {
    && (forall k :: 0 <= k < done && k < |chosen| ==> Settled(before, m, chosen[k], answers(k)))
    && (forall k :: done <= k < |chosen| ==> StillHeld(m, worker, chosen[k], until))
  }

  lemma WhileAnalysing(before: Model, m: Model, steps: seq<Step>, worker: string, chosen: seq<nat>, done: nat,
                       answers: nat -> Answer, until: real)
    requires Inv(m) && NoneUnder(worker, steps) && Run(m, steps).now <= until
    requires Standing(before, m, worker, chosen, done, answers, until)
    ensures Standing(before, Run(m, steps), worker, chosen, done, answers, until)
  {
    forall k | 0 <= k < done && k < |chosen| ensures Settled(before, Run(m, steps), chosen[k], answers(k)) {
      SettledStays(before, m, steps, chosen[k], answers(k));
    }
    forall k | done <= k < |chosen| ensures StillHeld(Run(m, steps), worker, chosen[k], until) {
      assert StillHeld(m, worker, chosen[k], until);
      LeaseProtects(m, steps, worker, chosen[k]);
    }
  }

  /** Reporting one job leaves every other job's row and record alone. */
  lemma ReportLeavesOthers(m: Model, worker: string, id: nat, under: nat, answer: Answer, other: nat)
    requires other != id
    ensures other in Reported(m, worker, id, under, answer).jobs <==> other in m.jobs
    ensures other in m.jobs ==> Reported(m, worker, id, under, answer).jobs[other] == m.jobs[other]
    ensures BounceCount(Reported(m, worker, id, under, answer).history, other) == BounceCount(m.history, other)
  {
  }

  lemma {:induction false} NoRepeatMeans(chosen: seq<nat>, i: nat, j: nat)
    requires NoRepeat(chosen) && i < |chosen| && j < |chosen| && i != j
    ensures chosen[i] != chosen[j]
  {
    if i > 0 && j > 0 {
      NoRepeatMeans(chosen[1..], i - 1, j - 1);
    } else {
      assert chosen[i + j] == chosen[1..][i + j - 1];
    }
  }

  lemma ReportSettles(before: Model, m: Model, worker: string, chosen: seq<nat>, i: nat, under: nat,
                      answers: nat -> Answer, until: real)
    requires i < |chosen| && NoRepeat(chosen) && Holds(m, worker, chosen[i])
    requires BounceCount(before.history, chosen[i]) <= BounceCount(m.history, chosen[i])
    requires Standing(before, m, worker, chosen, i, answers, until)
    ensures Standing(before, Reported(m, worker, chosen[i], under, answers(i)), worker, chosen, i + 1, answers, until)
  {
    var n := Reported(m, worker, chosen[i], under, answers(i));
    assert Settled(before, n, chosen[i], answers(i));
    forall k | 0 <= k < i + 1 && k < |chosen| ensures Settled(before, n, chosen[k], answers(k)) {
      if k != i {
        NoRepeatMeans(chosen, k, i);
        ReportLeavesOthers(m, worker, chosen[i], under, answers(i), chosen[k]);
        assert Settled(before, m, chosen[k], answers(k));
      }
    }
    forall k | i + 1 <= k < |chosen| ensures StillHeld(n, worker, chosen[k], until) {
      NoRepeatMeans(chosen, k, i);
      ReportLeavesOthers(m, worker, chosen[i], under, answers(i), chosen[k]);
      assert StillHeld(m, worker, chosen[k], until);
    }
  }

  lemma ClaimBegins(m: Model, worker: string, batchSize: int, until: real, locked: set<nat>, chosen: seq<nat>,
                    answers: nat -> Answer)
    requires Inv(m) && Picks(m, locked, batchSize, chosen)
    ensures NoFewerBounces(m, ClaimRows(m, worker, until, chosen))
    ensures Standing(m, ClaimRows(m, worker, until, chosen), worker, chosen, 0, answers, until)
  {
    ClaimKeeps(m, worker, batchSize, until, locked, chosen);
    forall id ensures BounceCount(ClaimRows(m, worker, until, chosen).history, id) == BounceCount(m.history, id) {
      ClaimRowsBounces(m, worker, until, chosen, id);
    }
    forall k | 0 <= k < |chosen| ensures StillHeld(ClaimRows(m, worker, until, chosen), worker, chosen[k], until) {
      assert chosen[k] in chosen;
    }
  }

  /** What a worker's claim gives it: the chosen rows, for two minutes. */
  lemma ClaimGives(m: Model, worker: string, batchSize: int, locked: set<nat>, chosen: seq<nat>, answers: nat -> Answer)
    requires Inv(m) && 1 <= batchSize <= 100 && Picks(m, locked, batchSize, chosen)
    ensures var n := Apply(m, Claim(worker, batchSize, 120, locked, chosen));
            NoFewerBounces(m, n) && Standing(m, n, worker, chosen, 0, answers, m.now + 120.0)
  {
    ClaimBegins(m, worker, batchSize, m.now + 120.0, locked, chosen, answers);
  }

  /** The attempt counts the claim returned. */
  function AttemptCounts(m: Model, chosen: seq<nat>): (counts: seq<nat>)
    ensures |counts| == |chosen|
    ensures forall i :: 0 <= i < |chosen| && chosen[i] in m.jobs ==> counts[i] == m.jobs[chosen[i]].attempts
  {
    if chosen == [] then []
    else [if chosen[0] in m.jobs then m.jobs[chosen[0]].attempts else 0] + AttemptCounts(m, chosen[1..])
  }

  class ConversationAnalysisWorker {
    const queue: ConversationAnalysisQueue

    constructor (queue: ConversationAnalysisQueue)
      ensures this.queue == queue
    {
      this.queue := queue;
    }

    /** Store the analysis, or record the provider's error. A lost lease is itself caught and reported as a
        failure, which the same guard then refuses. */
    method Report(id: nat, under: nat, answer: Answer) returns (ok: bool)
      requires Inv(queue.db.State())
      modifies queue.db
      ensures Inv(queue.db.State()) && ok == Holds(old(queue.db.State()), queue.workerId, id)
      ensures queue.db.State() == Reported(old(queue.db.State()), queue.workerId, id, under, answer)
    {
      match answer
      case Analysed(analysis) =>
        ok := queue.Complete(id, under, analysis);
        if !ok {
          ok := queue.Fail(id, under, "analysis completion lost worker lease");
        }
      case ProviderError(message) =>
        ok := queue.Fail(id, under, message);
    }

    /** The claim leaves the worker holding every chosen row, under one lease. */
    method Begin(batchSize: int, locked: set<nat>, chosen: seq<nat>, ghost answers: nat -> Answer)
      returns (ghost until: real)
      requires Inv(queue.db.State()) && 1 <= batchSize <= 100 && Picks(queue.db.State(), locked, batchSize, chosen)
      modifies queue.db
      ensures Inv(queue.db.State()) && NoFewerBounces(old(queue.db.State()), queue.db.State())
      ensures until == old(queue.db.now) + 120.0
      ensures Standing(old(queue.db.State()), queue.db.State(), queue.workerId, chosen, 0, answers, until)
    {
      ClaimGives(queue.db.State(), queue.workerId, batchSize, locked, chosen, answers);
      until := queue.db.now + 120.0;
      var _ := queue.Claim(batchSize, 120, locked, chosen);
    }

    /** One turn of the loop: the world moves on while the job is analysed, then the worker reports. */
    method Process(i: nat, under: nat, answer: Answer, meanwhile: seq<Step>, ghost before: Model,
                   ghost chosen: seq<nat>,
                   ghost answers: nat -> Answer, ghost until: real, id: nat)
      returns (reported: bool)
      requires Inv(queue.db.State()) && NoFewerBounces(before, queue.db.State())
      requires i < |chosen| && chosen[i] == id && answers(i) == answer && NoRepeat(chosen)
      modifies queue.db
      ensures Inv(queue.db.State()) && NoFewerBounces(before, queue.db.State()) && old(queue.db.now) <= queue.db.now
      ensures queue.db.now <= until && NoneUnder(queue.workerId, meanwhile)
              && Standing(before, old(queue.db.State()), queue.workerId, chosen, i, answers, until)
              ==> reported && Standing(before, queue.db.State(), queue.workerId, chosen, i + 1, answers, until)
    {
      var m := queue.db.State();
      EveryRunKeepsInv(m, meanwhile);
      RunKeepsBounces(before, m, meanwhile);
      var n := Run(m, meanwhile);
      queue.db.Become(n);
      reported := Report(id, under, answer);
      ReportKeepsBounces(before, n, queue.workerId, id, under, answer);
      if n.now <= until && NoneUnder(queue.workerId, meanwhile)
           && Standing(before, m, queue.workerId, chosen, i, answers, until) {
        WhileAnalysing(before, m, meanwhile, queue.workerId, chosen, i, answers, until);
        ReportSettles(before, n, queue.workerId, chosen, i, under, answers, until);
      }
    }

    /** `others(i)` is what the rest of the world does while job `i` is being analysed. If nobody else
        reports under this worker's id and the call ends before the leases it took run out, it processes
        every claimed job: each analysis is stored, each provider error is recorded. A batch size out of
        bounds raises, and nothing is claimed. */
    method RunOnce(batchSize: int, locked: set<nat>, chosen: seq<nat>, answers: nat -> Answer, others: nat -> seq<Step>)
      returns (r: Processed, ghost until: real)
      requires Inv(queue.db.State()) && (1 <= batchSize <= 100 ==> Picks(queue.db.State(), locked, batchSize, chosen))
      modifies queue.db
      ensures Inv(queue.db.State()) && until == old(queue.db.now) + 120.0
      ensures r == BadBatchSize <==> !(1 <= batchSize <= 100)
      ensures r == BadBatchSize ==> queue.db.State() == old(queue.db.State())
      ensures r.AllProcessed? ==> r.count == |chosen|
      ensures 1 <= batchSize <= 100 && NobodyReportsAs(queue.workerId, others) && queue.db.now <= until ==>
                r.AllProcessed? && Standing(old(queue.db.State()), queue.db.State(), queue.workerId, chosen, |chosen|,
                                            answers, until)
    {
      ghost var before := queue.db.State();
      if !(1 <= batchSize <= 100) {
        return BadBatchSize, queue.db.now + 120.0;
      }
      assert NoRepeat(chosen);
      until := Begin(batchSize, locked, chosen, answers);
      var counts := AttemptCounts(queue.db.State(), chosen);
      var i := 0;
      while i < |chosen|
        invariant 0 <= i <= |chosen| && Inv(queue.db.State()) && NoFewerBounces(before, queue.db.State())
        invariant NobodyReportsAs(queue.workerId, others) && queue.db.now <= until ==>
                    Standing(before, queue.db.State(), queue.workerId, chosen, i, answers, until)
      {
        var reported := Process(i, counts[i], answers(i), others(i), before, chosen, answers, until, chosen[i]);
        if !reported {
          return LostLease(i), until;
        }
        i := i + 1;
      }
      r := AllProcessed(i);
    }
  }
}
