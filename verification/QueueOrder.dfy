/** In what order the analysis queue gives out its jobs, and how long one can wait for its turn.

    The claim statement is set against the tables before and after it: which rows it may take, in what order of age,
    and what it leaves behind. From that follows that nothing is overtaken, and a bound on the wait. */
module QueueOrder {
  import opened Wrappers
  import opened AnalysisQueue

  /** Waiting to be processed, or given up by a worker whose lease has run out. */
  ghost predicate Free(job: Job, now: real) {
    || job.status == Pending
    || (job.status == Processing && job.leaseUntil.Some? && job.leaseUntil.value < now)
  }

  /** What the statement may take: free rows nobody has locked, at most as many as asked for, and leaving none
      behind unless it has that many, all of them at least as old as any left behind. */
  ghost predicate OldestFirst(m: Model, locked: set<nat>, batchSize: int, taken: set<nat>) {
    && taken <= m.jobs.Keys && taken !! locked && |taken| <= batchSize
    && (forall id :: id in taken ==> Free(m.jobs[id], m.now))
    && (forall id, other :: id in m.jobs && id !in locked && id !in taken && Free(m.jobs[id], m.now) && other in taken
          ==> m.jobs[other].createdAt <= m.jobs[id].createdAt)
    && (forall id :: id in m.jobs && id !in locked && id !in taken && Free(m.jobs[id], m.now) ==>
          |taken| == batchSize)
  }

  ghost function Members(chosen: seq<nat>): set<nat> {
    set id | id in chosen
  }

  lemma {:induction false} MembersCount(chosen: seq<nat>)
    requires NoRepeat(chosen)
    ensures |Members(chosen)| == |chosen|
  {
    if chosen == [] {
      assert Members(chosen) == {};
    } else {
      MembersCount(chosen[1..]);
      assert Members(chosen) == {chosen[0]} + Members(chosen[1..]);
    }
  }

  /** The statement takes exactly the sets of rows that are oldest first, each row once. */
  lemma PicksIff(m: Model, locked: set<nat>, batchSize: int, chosen: seq<nat>)
    ensures Picks(m, locked, batchSize, chosen)
            <==> NoRepeat(chosen) && OldestFirst(m, locked, batchSize, Members(chosen))
  {
    if NoRepeat(chosen) {
      MembersCount(chosen);
      forall i | 0 <= i < |chosen| ensures chosen[i] in Members(chosen) {
      }
    }
  }

  lemma {:induction false} OldestOf(m: Model, ids: set<nat>) returns (oldest: nat)
    requires ids <= m.jobs.Keys && ids != {}
    ensures oldest in ids && forall id :: id in ids ==> m.jobs[oldest].createdAt <= m.jobs[id].createdAt
    decreases |ids|
  {
    oldest :| oldest in ids;
    var rest := ids - {oldest};
    if rest != {} {
      var other := OldestOf(m, rest);
      if m.jobs[other].createdAt < m.jobs[oldest].createdAt {
        oldest := other;
      }
    }
  }

  lemma {:induction false} Listed(ids: set<nat>) returns (chosen: seq<nat>)
    ensures Members(chosen) == ids && NoRepeat(chosen)
    decreases |ids|
  {
    if ids == {} {
      return [];
    }
    var first :| first in ids;
    var rest := Listed(ids - {first});
    chosen := [first] + rest;
    assert chosen[1..] == rest;
    assert forall x :: x in chosen <==> x == first || x in Members(rest);
  }

  lemma AnyLeft(m: Model, locked: set<nat>, batchSize: int, taken: set<nat>) returns (left: set<nat>)
    requires OldestFirst(m, locked, batchSize, taken)
    ensures left <= m.jobs.Keys && left !! taken && left !! locked
    ensures forall id :: id in left <==> id in m.jobs && id !in locked && id !in taken && Free(m.jobs[id], m.now)
    ensures left != {} ==> |taken| == batchSize
  {
    left := set id | id in m.jobs && id !in locked && id !in taken && Free(m.jobs[id], m.now);
    if left != {} {
      var id :| id in left;
      assert Free(m.jobs[id], m.now);
    }
  }

  /** There is always such a batch. */
  lemma {:induction false} SomeBatch(m: Model, locked: set<nat>, batchSize: nat) returns (taken: set<nat>)
    ensures OldestFirst(m, locked, batchSize, taken)
  {
    if batchSize == 0 {
      return {};
    }
    taken := SomeBatch(m, locked, batchSize - 1);
    var left := AnyLeft(m, locked, batchSize - 1, taken);
    if left != {} {
      var next := OldestOf(m, left);
      taken := taken + {next};
    }
  }

  // ---------- a claim, by the rows before and after ----------

  /** One more attempt, for this worker, until so many seconds from now; nothing else in the row changes. */
  ghost predicate TakenOver(before: Job, after: Job, worker: string, until: real) {
    && after.status == Processing && after.owner == Some(worker) && after.leaseUntil == Some(until)
    && after.attempts == before.attempts + 1
    && after.replyId == before.replyId && after.createdAt == before.createdAt
    && after.analysis == before.analysis && after.error == before.error
  }

  lemma {:induction false} RowsTaken(m: Model, worker: string, until: real, chosen: seq<nat>, id: nat)
    requires NoRepeat(chosen) && id in m.jobs
    ensures var n := ClaimRows(m, worker, until, chosen);
            && id in n.jobs
            && (if id in chosen then TakenOver(m.jobs[id], n.jobs[id], worker, until) else n.jobs[id] == m.jobs[id])
    decreases |chosen|
  {
    if chosen != [] {
      RowsTaken(ClaimRow(m, worker, until, chosen[0]), worker, until, chosen[1..], id);
      if id == chosen[0] {
        ClaimRowsOthers(ClaimRow(m, worker, until, id), worker, until, chosen[1..], id);
      }
    }
  }

  /** The rows that one statement gave another attempt. */
  ghost function Taken(m: Model, n: Model): set<nat> {
    set id | id in m.jobs && id in n.jobs && n.jobs[id].attempts > m.jobs[id].attempts
  }

  lemma ClaimTakesChosen(m: Model, worker: string, batchSize: int, until: real, locked: set<nat>, chosen: seq<nat>)
    requires Inv(m) && Picks(m, locked, batchSize, chosen)
    ensures var n := ClaimRows(m, worker, until, chosen);
            && n.now == m.now && n.jobs.Keys == m.jobs.Keys && Taken(m, n) == Members(chosen)
            && (forall id :: id in Members(chosen) ==> TakenOver(m.jobs[id], n.jobs[id], worker, until))
            && (forall id :: id in m.jobs && id !in Members(chosen) ==> n.jobs[id] == m.jobs[id])
  {
    ClaimRowsKeeps(m, worker, until, chosen);
    forall id | id in m.jobs
      ensures var n := ClaimRows(m, worker, until, chosen);
              if id in chosen then TakenOver(m.jobs[id], n.jobs[id], worker, until) else n.jobs[id] == m.jobs[id]
    {
      RowsTaken(m, worker, until, chosen, id);
    }
  }

  /** Whatever a claim changes, it changes in this way: within the bounds on its arguments it takes a batch that is
      oldest first, each row for the worker until so many seconds from now; outside them it changes nothing. */
  lemma ClaimTakesTheOldest(m: Model, worker: string, batchSize: int, leaseSeconds: int, locked: set<nat>,
                            chosen: seq<nat>, n: Model)
    requires Inv(m) && n == Apply(m, Claim(worker, batchSize, leaseSeconds, locked, chosen))
    ensures n.now == m.now && n.jobs.Keys == m.jobs.Keys
    ensures n == m || (1 <= batchSize <= 100 && 10 <= leaseSeconds <= 3600)
    ensures n == m || OldestFirst(m, locked, batchSize, Taken(m, n))
    ensures forall id :: id in m.jobs ==>
              if id in Taken(m, n) then TakenOver(m.jobs[id], n.jobs[id], worker, m.now + leaseSeconds as real)
              else n.jobs[id] == m.jobs[id]
  {
    if n != m {
      ClaimTakesChosen(m, worker, batchSize, m.now + leaseSeconds as real, locked, chosen);
      PicksIff(m, locked, batchSize, chosen);
    }
  }

  /** And every such batch can be taken. */
  lemma EveryBatchCanBeTaken(m: Model, worker: string, batchSize: int, leaseSeconds: int, locked: set<nat>,
                             taken: set<nat>)
    returns (chosen: seq<nat>)
    requires Inv(m) && 1 <= batchSize <= 100 && 10 <= leaseSeconds <= 3600 && OldestFirst(m, locked, batchSize, taken)
    ensures Taken(m, Apply(m, Claim(worker, batchSize, leaseSeconds, locked, chosen))) == taken
    ensures Picks(m, locked, batchSize, chosen)
  {
    chosen := Listed(taken);
    PicksIff(m, locked, batchSize, chosen);
    ClaimTakesChosen(m, worker, batchSize, m.now + leaseSeconds as real, locked, chosen);
  }

  /** Nothing is overtaken: what a claim takes was enqueued no later than any free job it passes by. */
  lemma NothingIsOvertaken(m: Model, worker: string, batchSize: int, leaseSeconds: int, locked: set<nat>,
                           chosen: seq<nat>, n: Model, id: nat, other: nat)
    requires Inv(m) && n == Apply(m, Claim(worker, batchSize, leaseSeconds, locked, chosen))
    requires id in m.jobs && id in n.jobs && n.jobs[id].attempts > m.jobs[id].attempts
    requires other in m.jobs && other in n.jobs && n.jobs[other].attempts == m.jobs[other].attempts
    requires other !in locked && Free(m.jobs[other], m.now)
    ensures m.jobs[id].createdAt <= m.jobs[other].createdAt
  {
    ClaimTakesTheOldest(m, worker, batchSize, leaseSeconds, locked, chosen, n);
    assert id in Taken(m, n) && other !in Taken(m, n);
  }

  // ---------- how long a job can wait ----------

  /** The other jobs, no younger, that a claim could take at `horizon` at the latest. */
  ghost function Ahead(m: Model, id: nat, horizon: real): set<nat>
    requires id in m.jobs
  {
    set other | other in m.jobs && other != id && m.jobs[other].createdAt <= m.jobs[id].createdAt
                && Free(m.jobs[other], horizon)
  }

  /** A claim that is carried out, does not find the job locked, and holds what it takes beyond the horizon. */
  ghost predicate Carried(m: Model, step: Step, id: nat, horizon: real) {
    && step.Claim? && 1 <= step.batchSize <= 100 && 10 <= step.leaseSeconds <= 3600
    && Picks(m, step.locked, step.batchSize, step.chosen)
    && id !in step.locked && m.now + step.leaseSeconds as real >= horizon
  }

  /** Nobody reports on the job, and every claim is carried out. */
  ghost predicate Waiting(m: Model, steps: seq<Step>, id: nat, horizon: real)
    decreases |steps|
  {
    steps == []
    || (&& (steps[0].Claim? ==> Carried(m, steps[0], id, horizon))
        && (steps[0].Complete? || steps[0].Fail? ==> steps[0].id != id)
        && Waiting(Apply(m, steps[0]), steps[1..], id, horizon))
  }

  ghost function ClaimsIn(steps: seq<Step>): nat {
    if steps == [] then 0 else (if steps[0].Claim? then 1 else 0) + ClaimsIn(steps[1..])
  }

  /** How often a job may come to be ahead: given back by a failure, or enqueued at the very same instant. */
  ghost function JoinsIn(m: Model, steps: seq<Step>, id: nat): nat
    requires id in m.jobs
    decreases |steps|
  {
    if steps == [] then 0
    else
      (if steps[0].Fail? || (steps[0].Enqueue? && m.now <= m.jobs[id].createdAt) then 1 else 0)
        + (if id in Apply(m, steps[0]).jobs then JoinsIn(Apply(m, steps[0]), steps[1..], id) else 0)
  }

  lemma SubsetCount(a: set<nat>, b: set<nat>)
    requires a <= b
    ensures |a| <= |b|
  {
    assert b == a + (b - a);
  }

  /** The job was given another attempt, or it is as it was and `fewer` of those ahead of it are left. */
  ghost predicate Advanced(m: Model, n: Model, id: nat, horizon: real, served: nat, joined: nat)
    requires id in m.jobs
  {
    && id in n.jobs
    && (n.jobs[id].attempts > m.jobs[id].attempts
        || (n.jobs[id] == m.jobs[id] && |Ahead(n, id, horizon)| + served <= |Ahead(m, id, horizon)| + joined))
  }

  lemma AheadTaken(m: Model, n: Model, id: nat, horizon: real, taken: set<nat>, worker: string, until: real)
    requires id in m.jobs && id !in taken && taken <= m.jobs.Keys && taken != {} && n.jobs.Keys == m.jobs.Keys
    requires m.now <= horizon <= until
    requires forall other :: other in taken ==> Free(m.jobs[other], m.now)
    requires forall other :: other in taken ==> m.jobs[other].createdAt <= m.jobs[id].createdAt
    requires forall other :: other in taken ==> TakenOver(m.jobs[other], n.jobs[other], worker, until)
    requires forall other :: other in m.jobs && other !in taken ==> n.jobs[other] == m.jobs[other]
    ensures |Ahead(n, id, horizon)| + 1 <= |Ahead(m, id, horizon)|
  {
    forall other | other in taken ensures other in Ahead(m, id, horizon) {
    }
    assert Ahead(n, id, horizon) <= Ahead(m, id, horizon) - taken;
    SubsetCount(Ahead(n, id, horizon), Ahead(m, id, horizon) - taken);
    assert taken <= Ahead(m, id, horizon);
    SubsetCount({}, taken);
    assert Ahead(m, id, horizon) == (Ahead(m, id, horizon) - taken) + taken;
  }

  /** A claim that passes the job by takes some of those ahead of it. */
  lemma ClaimAdvances(m: Model, step: Step, id: nat, horizon: real)
    requires Inv(m) && id in m.jobs && Free(m.jobs[id], m.now) && m.now <= horizon && Carried(m, step, id, horizon)
    ensures Advanced(m, Apply(m, step), id, horizon, 1, 0)
  {
    var n, until, taken := Apply(m, step), m.now + step.leaseSeconds as real, Members(step.chosen);
    ClaimTakesChosen(m, step.worker, step.batchSize, until, step.locked, step.chosen);
    PicksIff(m, step.locked, step.batchSize, step.chosen);
    if id !in taken {
      assert |taken| == step.batchSize;
      assert taken != {};
      AheadTaken(m, n, id, horizon, taken, step.worker, until);
    }
  }

  ghost function Joining(m: Model, step: Step, id: nat): set<nat>
    requires id in m.jobs
  {
    if step.Fail? then {step.id}
    else if step.Enqueue? && m.now <= m.jobs[id].createdAt then {step.freshId} else {}
  }

  lemma OthersJoin(m: Model, step: Step, id: nat, horizon: real)
    requires Inv(m) && id in m.jobs && Free(m.jobs[id], m.now) && !step.Claim?
    requires step.Complete? || step.Fail? ==> step.id != id
    ensures id in Apply(m, step).jobs && Apply(m, step).jobs[id] == m.jobs[id]
    ensures Ahead(Apply(m, step), id, horizon) <= Ahead(m, id, horizon) + Joining(m, step, id)
  {
    match step
    case Enqueue(replyId, freshId) =>
    case Complete(worker, done, under, analysis) =>
    case Fail(worker, done, under, error) =>
    case Pass(seconds) =>
  }

  /** Any other step lets at most one job in ahead. */
  lemma OthersAdvance(m: Model, step: Step, id: nat, horizon: real)
    requires Inv(m) && id in m.jobs && Free(m.jobs[id], m.now) && !step.Claim?
    requires step.Complete? || step.Fail? ==> step.id != id
    ensures Advanced(m, Apply(m, step), id, horizon, 0,
                     if step.Fail? || (step.Enqueue? && m.now <= m.jobs[id].createdAt) then 1 else 0)
  {
    var before, joined := Ahead(m, id, horizon), Joining(m, step, id);
    OthersJoin(m, step, id, horizon);
    SubsetCount(Ahead(Apply(m, step), id, horizon), before + joined);
    assert |before + joined| <= |before| + |joined|;
  }

  lemma {:induction false} AttemptsOnlyGrow(m: Model, steps: seq<Step>, id: nat)
    requires Inv(m) && id in m.jobs
    ensures id in Run(m, steps).jobs && m.jobs[id].attempts <= Run(m, steps).jobs[id].attempts
    decreases |steps|
  {
    if steps != [] {
      StepKeeps(m, steps[0]);
      if steps[0].Claim? {
        ClaimTakesTheOldest(m, steps[0].worker, steps[0].batchSize, steps[0].leaseSeconds, steps[0].locked,
                            steps[0].chosen, Apply(m, steps[0]));
      }
      AttemptsOnlyGrow(Apply(m, steps[0]), steps[1..], id);
    }
  }

  /** A bound on the wait. Let a job be free, let nobody report on it, and let claims find it unlocked and hold what
      they take until the end: after more claims than there are jobs ahead of it, and than jobs coming to be ahead
      by being given back, it has been claimed. */
  lemma {:induction false} WaitIsBounded(m: Model, steps: seq<Step>, id: nat, horizon: real)
    requires Inv(m) && id in m.jobs && Free(m.jobs[id], m.now)
    requires Waiting(m, steps, id, horizon) && Run(m, steps).now <= horizon
    requires ClaimsIn(steps) > |Ahead(m, id, horizon)| + JoinsIn(m, steps, id)
    ensures id in Run(m, steps).jobs && Run(m, steps).jobs[id].attempts > m.jobs[id].attempts
    decreases |steps|
  {
    var n := Apply(m, steps[0]);
    EveryRunKeepsInv(m, steps);
    StepKeeps(m, steps[0]);
    EveryRunKeepsInv(n, steps[1..]);
    if steps[0].Claim? {
      ClaimAdvances(m, steps[0], id, horizon);
    } else {
      OthersAdvance(m, steps[0], id, horizon);
    }
    if n.jobs[id].attempts > m.jobs[id].attempts {
      AttemptsOnlyGrow(n, steps[1..], id);
    } else {
      WaitIsBounded(n, steps[1..], id, horizon);
    }
  }
}
