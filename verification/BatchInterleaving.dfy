/** Several executors at work under one request key at once.

    The source lets a process continue a run that another one has open. Here any number of processes take
    their commits one at a time, in any order, and may stop anywhere. */
module BatchInterleaving {
  import opened Wrappers
  import Matching
  import opened ResumableLoop
  import opened BatchExecutor
  import opened BatchReplay

  /** A process that joined the run: `done` handoffs worked off, or an exception at the next one and the run
      still to be closed. */
  datatype Process = Working(runId: string, done: nat) | Failing(runId: string, done: nat) | Over(ending: Ending)

  datatype Model = Model(tables: Tables, processes: map<nat, Process>)

  /** What a process finds under its request key. */
  function Joining(b: Batch, t: Tables): Process
    requires b.requestKey in t.keys
  {
    var runId := t.keys[b.requestKey];
    if runId !in t.runs || t.runs[runId].version != b.version then Over(Raised)
    else if t.runs[runId].status == Running then Working(runId, 0)
    else Over(Replayed(runId, t.runs[runId]))
  }

  function Closing(b: Batch, m: Model, x: nat, runId: string, done: nat, raised: bool): Model {
    var e := b.finish(runId)(Progress(m.tables, done, raised));
    Model(e.state, m.processes[x := Over(e.ending)])
  }

  /** A process's next commit, or the exception in its place. */
  function Advance(b: Batch, m: Model, x: nat, freshId: string): Model {
    if x !in m.processes then
      if !b.legal then m.(processes := m.processes[x := Over(Raised)])
      else
        var t := Created(b, m.tables, freshId);
        Model(t, m.processes[x := Joining(b, t)])
    else
      match m.processes[x]
      case Working(runId, i) =>
        if i >= |b.leads| then Closing(b, m, x, runId, i, false)
        else
          (match b.turn(runId)(m.tables, b.leads[i])
           case None => m.(processes := m.processes[x := Failing(runId, i)])
           case Some(u) => Model(u, m.processes[x := Working(runId, i + 1)]))
      case Failing(runId, i) => Closing(b, m, x, runId, i, true)
      case Over(_) => m
  }

  /** The processes that come up, each with the id it would open a run under. */
  function Interleaved(b: Batch, m: Model, order: seq<(nat, string)>): Model
    decreases |order|
  {
    if order == [] then m else Interleaved(b, Advance(b, m, order[0].0, order[0].1), order[1..])
  }

  // ---------- where the processes and the tables can be ----------

  /** All the turns there are to take. */
  function Turns(b: Batch, t: Tables, runId: string): Progress<Tables> {
    Loop(b.turn(runId), Opened(b, t, runId), b.leads, |b.leads|)
  }

  /** What closing a closed run again takes: handoffs stay settled or failing, and nothing is written. */
  ghost predicate Reclosable(b: Batch, settled: Settlement) {
    && (forall runId, p: Progress<Tables>, lead :: settled(runId)(p.state, lead) ==>
          settled(runId)(b.finish(runId)(p).state, lead))
    && (forall runId, p: Progress<Tables>, lead :: b.turn(runId)(p.state, lead).None? ==>
          b.turn(runId)(b.finish(runId)(p).state, lead).None?)
    && (forall runId, p: Progress<Tables> :: p.done <= |b.leads| ==>
          b.finish(runId)(p.(state := b.finish(runId)(p).state)) == b.finish(runId)(p))
  }

  ghost predicate ProcessInv(b: Batch, t: Tables, runId: string, n: nat, closed: bool, p: Process) {
    match p
    case Working(id, i) => id == runId && i <= n
    case Failing(id, i) => id == runId && i == n == Turns(b, t, runId).done && Turns(b, t, runId).raised
    case Over(ending) =>
      var whole := Whole(b, Opened(b, t, runId), runId);
      closed && (ending == whole.ending
                 || (runId in whole.state.runs && ending == Replayed(runId, whole.state.runs[runId])))
  }

  function TablesAt(b: Batch, t: Tables, runId: string, n: nat, closed: bool): Tables
    requires n <= |b.leads|
  {
    if closed then Whole(b, Opened(b, t, runId), runId).state else StateAt(b, Opened(b, t, runId), runId, n)
  }

  /** The foremost process has worked off `n` handoffs of the run opened in `t`; the tables are those of one
      execution that has come as far, or of a whole one. */
  ghost predicate InvAt(b: Batch, t: Tables, m: Model, runId: string, n: nat, closed: bool) {
    && n <= Turns(b, t, runId).done && (closed ==> n == Turns(b, t, runId).done)
    && m.tables == TablesAt(b, t, runId, n, closed)
    && forall x :: x in m.processes ==> ProcessInv(b, t, runId, n, closed, m.processes[x])
  }

  /** Nothing has happened, or the run was opened under one of the ids offered. */
  ghost predicate Inv(b: Batch, t: Tables, m: Model, ids: set<string>) {
    || m == Model(t, map[])
    || exists runId, n, closed :: runId in ids && InvAt(b, t, m, runId, n, closed)
  }

  // ---------- one commit ----------

  lemma FarEnough(b: Batch, settled: Settlement, t: Tables, runId: string, n: nat)
    requires Restartable(b, settled) && n <= Turns(b, t, runId).done
    ensures var start := Opened(b, t, runId);
            && Loop(b.turn(runId), start, b.leads, n) == Progress(StateAt(b, start, runId, n), n, false)
            && (forall i :: 0 <= i < n ==> settled(runId)(StateAt(b, start, runId, n), b.leads[i]))
  {
    var start := Opened(b, t, runId);
    if Loop(b.turn(runId), start, b.leads, n).raised {
      LoopStays(b.turn(runId), start, b.leads, n, |b.leads|);
    }
    LoopSettles(b.turn(runId), settled(runId), start, b.leads, n);
  }

  /** A whole execution closes the state of its last turn. */
  lemma WholeFinishes(b: Batch, t: Tables, runId: string)
    ensures Whole(b, Opened(b, t, runId), runId) == b.finish(runId)(Turns(b, t, runId))
    ensures Turns(b, t, runId).raised <==> Turns(b, t, runId).done < |b.leads|
  {
  }

  /** A turn of a process that lags behind changes nothing. */
  lemma LaggingTurn(b: Batch, settled: Settlement, t: Tables, m: Model, runId: string, n: nat, closed: bool, i: nat)
    requires Restartable(b, settled) && Reclosable(b, settled) && InvAt(b, t, m, runId, n, closed) && i < n
    ensures b.turn(runId)(m.tables, b.leads[i]) == Some(m.tables)
  {
    FarEnough(b, settled, t, runId, n);
    LoopAtDone(b.turn(runId), Opened(b, t, runId), b.leads, |b.leads|);
    WholeFinishes(b, t, runId);
    assert settled(runId)(StateAt(b, Opened(b, t, runId), runId, n), b.leads[i]);
    assert settled(runId)(m.tables, b.leads[i]);
  }

  lemma {:induction false} DoneGrows(turn: (Tables, Matching.Lead) -> Option<Tables>, s: Tables, xs: seq<Matching.Lead>,
                                     n: nat, m: nat)
    requires n <= m <= |xs|
    ensures Loop(turn, s, xs, n).done <= Loop(turn, s, xs, m).done
    decreases m
  {
    if n < m {
      DoneGrows(turn, s, xs, n, m - 1);
    }
  }

  /** The last turn of a single execution that stopped early failed. */
  lemma LastTurnFails(b: Batch, t: Tables, runId: string)
    requires Turns(b, t, runId).done < |b.leads|
    ensures b.turn(runId)(Turns(b, t, runId).state, b.leads[Turns(b, t, runId).done]).None?
  {
    var start, p := Opened(b, t, runId), Turns(b, t, runId);
    LoopAtDone(b.turn(runId), start, b.leads, |b.leads|);
    LoopNext(b.turn(runId), start, b.leads, p.done, p.state, |b.leads|);
    DoneGrows(b.turn(runId), start, b.leads, p.done + 1, |b.leads|);
  }

  lemma NextTurn(b: Batch, settled: Settlement, t: Tables, runId: string, n: nat)
    requires Restartable(b, settled) && n < Turns(b, t, runId).done
    ensures var start := Opened(b, t, runId);
            b.turn(runId)(StateAt(b, start, runId, n), b.leads[n]) == Some(StateAt(b, start, runId, n + 1))
  {
    FarEnough(b, settled, t, runId, n);
    FarEnough(b, settled, t, runId, n + 1);
  }

  /** Where a single execution stops, the foremost process does, before the run is closed and after. */
  lemma ForemostFails(b: Batch, settled: Settlement, t: Tables, m: Model, runId: string, n: nat, closed: bool)
    requires Reclosable(b, settled) && InvAt(b, t, m, runId, n, closed) && n == Turns(b, t, runId).done < |b.leads|
    ensures b.turn(runId)(m.tables, b.leads[n]).None?
  {
    LastTurnFails(b, t, runId);
    LoopAtDone(b.turn(runId), Opened(b, t, runId), b.leads, |b.leads|);
    WholeFinishes(b, t, runId);
  }

  lemma OthersStay(b: Batch, t: Tables, m: Model, runId: string, n: nat, closed: bool, k: nat, later: bool)
    requires InvAt(b, t, m, runId, n, closed) && n <= k && (closed ==> later) && (n < k ==> n < Turns(b, t, runId).done)
    ensures forall x :: x in m.processes ==> ProcessInv(b, t, runId, k, later, m.processes[x])
  {
    forall x | x in m.processes ensures ProcessInv(b, t, runId, k, later, m.processes[x]) {
      assert ProcessInv(b, t, runId, n, closed, m.processes[x]);
    }
  }

  /** One process moves on and the tables with it, the others stay where they are. */
  lemma MoveKeeps(b: Batch, t: Tables, m: Model, runId: string, n: nat, closed: bool, x: nat, p: Process, k: nat,
                  later: bool)
    requires InvAt(b, t, m, runId, n, closed) && n <= k <= Turns(b, t, runId).done
    requires (closed ==> later) && (later ==> k == Turns(b, t, runId).done) && ProcessInv(b, t, runId, k, later, p)
    ensures InvAt(b, t, Model(TablesAt(b, t, runId, k, later), m.processes[x := p]), runId, k, later)
  {
    OthersStay(b, t, m, runId, n, closed, k, later);
  }

  lemma TurnIsTaken(b: Batch, m: Model, x: nat, freshId: string, runId: string, i: nat, u: Tables)
    requires x in m.processes && m.processes[x] == Working(runId, i) && i < |b.leads|
    requires b.turn(runId)(m.tables, b.leads[i]) == Some(u)
    ensures Advance(b, m, x, freshId) == Model(u, m.processes[x := Working(runId, i + 1)])
  {
  }

  lemma LaggingAdvances(b: Batch, settled: Settlement, t: Tables, m: Model, x: nat, freshId: string, runId: string,
                        n: nat, closed: bool, i: nat)
    requires Restartable(b, settled) && Reclosable(b, settled) && InvAt(b, t, m, runId, n, closed)
    requires x in m.processes && m.processes[x] == Working(runId, i) && i < n
    ensures InvAt(b, t, Advance(b, m, x, freshId), runId, n, closed)
  {
    LaggingTurn(b, settled, t, m, runId, n, closed, i);
    TurnIsTaken(b, m, x, freshId, runId, i, m.tables);
    MoveKeeps(b, t, m, runId, n, closed, x, Working(runId, i + 1), n, closed);
  }

  lemma ForemostAdvances(b: Batch, settled: Settlement, t: Tables, m: Model, x: nat, freshId: string, runId: string,
                         n: nat, closed: bool)
    requires Restartable(b, settled) && Reclosable(b, settled) && InvAt(b, t, m, runId, n, closed)
    requires x in m.processes && m.processes[x] == Working(runId, n) && n < |b.leads|
    ensures var next := Advance(b, m, x, freshId);
            if n < Turns(b, t, runId).done then InvAt(b, t, next, runId, n + 1, false)
            else InvAt(b, t, next, runId, n, closed)
  {
    if n < Turns(b, t, runId).done {
      NextTurn(b, settled, t, runId, n);
      TurnIsTaken(b, m, x, freshId, runId, n, TablesAt(b, t, runId, n + 1, false));
      MoveKeeps(b, t, m, runId, n, closed, x, Working(runId, n + 1), n + 1, false);
    } else {
      ForemostFails(b, settled, t, m, runId, n, closed);
      MoveKeeps(b, t, m, runId, n, closed, x, Failing(runId, n), n, closed);
      assert Advance(b, m, x, freshId) == Model(m.tables, m.processes[x := Failing(runId, n)]);
    }
  }

  lemma WorkingAdvances(b: Batch, settled: Settlement, t: Tables, m: Model, x: nat, freshId: string, runId: string,
                        n: nat, closed: bool)
    requires Restartable(b, settled) && Reclosable(b, settled) && InvAt(b, t, m, runId, n, closed)
    requires x in m.processes && m.processes[x].Working? && m.processes[x].done < |b.leads|
    ensures exists k, later :: InvAt(b, t, Advance(b, m, x, freshId), runId, k, later)
  {
    assert ProcessInv(b, t, runId, n, closed, m.processes[x]);
    if m.processes[x].done < n {
      LaggingAdvances(b, settled, t, m, x, freshId, runId, n, closed, m.processes[x].done);
    } else {
      ForemostAdvances(b, settled, t, m, x, freshId, runId, n, closed);
    }
  }

  /** Closing comes to the same whether or not the run was closed before. */
  lemma ClosingIsWhole(b: Batch, settled: Settlement, t: Tables, m: Model, runId: string, n: nat, closed: bool)
    requires Restartable(b, settled) && Reclosable(b, settled) && InvAt(b, t, m, runId, n, closed)
    requires n == Turns(b, t, runId).done
    ensures b.finish(runId)(Progress(m.tables, n, Turns(b, t, runId).raised)) == Whole(b, Opened(b, t, runId), runId)
  {
    var p := Turns(b, t, runId);
    WholeFinishes(b, t, runId);
    LoopAtDone(b.turn(runId), Opened(b, t, runId), b.leads, |b.leads|);
    assert b.finish(runId)(p.(state := b.finish(runId)(p).state)) == b.finish(runId)(p);
  }

  lemma ClosingKeeps(b: Batch, settled: Settlement, t: Tables, m: Model, x: nat, freshId: string, runId: string, n: nat,
                     closed: bool)
    requires Restartable(b, settled) && Reclosable(b, settled) && InvAt(b, t, m, runId, n, closed) && x in m.processes
    requires m.processes[x].Failing? || (m.processes[x].Working? && m.processes[x].done >= |b.leads|)
    ensures InvAt(b, t, Advance(b, m, x, freshId), runId, n, true)
  {
    assert ProcessInv(b, t, runId, n, closed, m.processes[x]);
    WholeFinishes(b, t, runId);
    ClosingIsWhole(b, settled, t, m, runId, n, closed);
    MoveKeeps(b, t, m, runId, n, closed, x, Over(Whole(b, Opened(b, t, runId), runId).ending), n, true);
  }

  lemma JoiningKeeps(b: Batch, settled: Settlement, t: Tables, m: Model, x: nat, freshId: string,
                     runId: string, n: nat, closed: bool)
    requires Restartable(b, settled) && InvAt(b, t, m, runId, n, closed) && b.legal && x !in m.processes
    ensures InvAt(b, t, Advance(b, m, x, freshId), runId, n, closed)
  {
    var start := Opened(b, t, runId);
    assert StillOpen(b, start, runId);
    if closed {
      WholeCloses(b, settled, start, runId);
    } else {
      StateIsOpen(b, settled, start, runId, n);
    }
  }

  lemma FirstOpens(b: Batch, t: Tables, x: nat, freshId: string)
    requires b.legal && b.requestKey !in t.keys
    ensures InvAt(b, t, Advance(b, Model(t, map[]), x, freshId), freshId, 0, false)
  {
  }

  lemma MovingKeeps(b: Batch, settled: Settlement, t: Tables, m: Model, x: nat, freshId: string, runId: string, n: nat,
                    closed: bool)
    requires Restartable(b, settled) && Reclosable(b, settled) && b.legal && InvAt(b, t, m, runId, n, closed)
    ensures exists k, later :: InvAt(b, t, Advance(b, m, x, freshId), runId, k, later)
  {
    if x !in m.processes {
      JoiningKeeps(b, settled, t, m, x, freshId, runId, n, closed);
    } else if m.processes[x].Over? {
      assert InvAt(b, t, Advance(b, m, x, freshId), runId, n, closed);
    } else if m.processes[x].Working? && m.processes[x].done < |b.leads| {
      WorkingAdvances(b, settled, t, m, x, freshId, runId, n, closed);
    } else {
      ClosingKeeps(b, settled, t, m, x, freshId, runId, n, closed);
    }
  }

  lemma AdvanceKeeps(b: Batch, settled: Settlement, t: Tables, m: Model, x: nat, freshId: string, ids: set<string>)
    requires Restartable(b, settled) && Reclosable(b, settled) && b.legal && b.requestKey !in t.keys
    requires Inv(b, t, m, ids) && freshId in ids
    ensures Inv(b, t, Advance(b, m, x, freshId), ids)
  {
    if m == Model(t, map[]) {
      FirstOpens(b, t, x, freshId);
    } else {
      var runId, n, closed :| runId in ids && InvAt(b, t, m, runId, n, closed);
      MovingKeeps(b, settled, t, m, x, freshId, runId, n, closed);
    }
  }

  function Offered(order: seq<(nat, string)>): set<string> {
    set k | 0 <= k < |order| :: order[k].1
  }

  lemma {:induction false} EveryInterleavingKeepsInv(b: Batch, settled: Settlement, t: Tables, m: Model,
                                                     order: seq<(nat, string)>,
                                                     ids: set<string>)
    requires Restartable(b, settled) && Reclosable(b, settled) && b.legal && b.requestKey !in t.keys
    requires Inv(b, t, m, ids) && forall k :: 0 <= k < |order| ==> order[k].1 in ids
    ensures Inv(b, t, Interleaved(b, m, order), ids)
    decreases |order|
  {
    if order != [] {
      AdvanceKeeps(b, settled, t, m, order[0].0, order[0].1, ids);
      EveryInterleavingKeepsInv(b, settled, t, Advance(b, m, order[0].0, order[0].1), order[1..], ids);
    }
  }

  // ---------- the executor's batch ----------

  lemma ClosingLeavesTurns(job: Job, runId: string, t: Tables, status: RunStatus, metadata: Metadata,
                           lead: Matching.Lead)
    ensures Step(job, t, runId, lead).None? ==> Step(job, Close(t, runId, status, metadata), runId, lead).None?
    ensures Absorbed(job, t, runId, lead) ==> Absorbed(job, Close(t, runId, status, metadata), runId, lead)
  {
  }

  lemma ClosingAgain(t: Tables, runId: string, status: RunStatus, metadata: Metadata)
    ensures Close(Close(t, runId, status, metadata), runId, status, metadata) == Close(t, runId, status, metadata)
  {
    if runId in t.runs {
      var run := t.runs[runId].(status := status, metadata := metadata);
      assert t.runs[runId := run][runId := run] == t.runs[runId := run];
    }
  }

  lemma FinishingLeavesTurns(job: Job, runId: string, p: Progress<Tables>, lead: Matching.Lead)
    ensures var f := BatchOf(job).finish(runId)(p).state;
            && (Absorbed(job, p.state, runId, lead) ==> Absorbed(job, f, runId, lead))
            && (Step(job, p.state, runId, lead).None? ==> Step(job, f, runId, lead).None?)
  {
    if p.done <= |job.leads| {
      var f := Finish(job, runId, p).state;
      if p.raised && p.done < |job.leads| {
        var counts := Noticed(job, job.leads[p.done], CountsAfter(job, p.done));
        ClosingLeavesTurns(job, runId, p.state, Failed, Failure(counts.providerErrors), lead);
      } else {
        ClosingLeavesTurns(job, runId, p.state, Completed, Summary(CountsAfter(job, p.done)), lead);
      }
    }
  }

  lemma FinishingAgain(job: Job, runId: string, p: Progress<Tables>)
    requires p.done <= |job.leads|
    ensures Finish(job, runId, p.(state := Finish(job, runId, p).state)) == Finish(job, runId, p)
  {
    if p.raised && p.done < |job.leads| {
      var counts := Noticed(job, job.leads[p.done], CountsAfter(job, p.done));
      ClosingAgain(p.state, runId, Failed, Failure(counts.providerErrors));
    } else {
      ClosingAgain(p.state, runId, Completed, Summary(CountsAfter(job, p.done)));
    }
  }

  lemma BatchIsReclosable(job: Job)
    ensures Reclosable(BatchOf(job), Settled(job))
  {
    var b := BatchOf(job);
    forall runId, p: Progress<Tables>, lead
      ensures Settled(job)(runId)(p.state, lead) ==> Settled(job)(runId)(b.finish(runId)(p).state, lead)
      ensures b.turn(runId)(p.state, lead).None? ==> b.turn(runId)(b.finish(runId)(p).state, lead).None?
    {
      FinishingLeavesTurns(job, runId, p, lead);
    }
    forall runId, p: Progress<Tables> | p.done <= |b.leads|
      ensures b.finish(runId)(p.(state := b.finish(runId)(p).state)) == b.finish(runId)(p)
    {
      FinishingAgain(job, runId, p);
    }
  }

  /** The tables are those of one execution under `runId`: part of the way through, or at its end once any of the
      processes is over. Whoever is over ended as that execution, or as its closed run is read back. */
  ghost predicate OneExecution(b: Batch, t: Tables, m: Model, runId: string) {
    var start := Opened(b, t, runId);
    var whole := Attempt(b, t, runId, Uninterrupted(b));
    && Underway(b, start, runId, m.tables)
    && forall x :: x in m.processes && m.processes[x].Over? ==>
         && m.tables == whole.state
         && (m.processes[x].ending == whole.ending
             || (runId in whole.state.runs && m.processes[x].ending == Replayed(runId, whole.state.runs[runId])))
  }

  lemma InvIsOneExecution(b: Batch, t: Tables, m: Model, runId: string, n: nat, closed: bool)
    requires b.legal && b.requestKey !in t.keys && InvAt(b, t, m, runId, n, closed)
    ensures OneExecution(b, t, m, runId)
  {
    var whole := Whole(b, Opened(b, t, runId), runId);
    assert Attempt(b, t, runId, Uninterrupted(b)) == whole;
    forall x | x in m.processes && m.processes[x].Over?
      ensures m.tables == whole.state
      ensures m.processes[x].ending == whole.ending
              || (runId in whole.state.runs && m.processes[x].ending == Replayed(runId, whole.state.runs[runId]))
    {
      assert ProcessInv(b, t, runId, n, closed, m.processes[x]);
    }
  }

  /** Any number of executors under one request key, their commits interleaved in any order, each stopping
      wherever it does: if anything has happened, it is what one execution does. */
  lemma AnyInterleavingIsOneExecution(job: Job, t: Tables, order: seq<(nat, string)>)
    requires BatchOf(job).legal && job.requestKey !in t.keys
    ensures var b := BatchOf(job);
            var m := Interleaved(b, Model(t, map[]), order);
            m == Model(t, map[]) || exists runId :: runId in Offered(order) && OneExecution(b, t, m, runId)
  {
    var b := BatchOf(job);
    BatchIsRestartable(job);
    BatchIsReclosable(job);
    EveryInterleavingKeepsInv(b, Settled(job), t, Model(t, map[]), order, Offered(order));
    var m := Interleaved(b, Model(t, map[]), order);
    if m != Model(t, map[]) {
      var runId, n, closed :| runId in Offered(order) && InvAt(b, t, m, runId, n, closed);
      InvIsOneExecution(b, t, m, runId, n, closed);
    }
  }

  lemma RaisedRunFailed(job: Job, t: Tables, runId: string, whole: Attempted)
    requires BatchOf(job).legal && job.requestKey !in t.keys
    requires whole == Attempt(BatchOf(job), t, runId, Uninterrupted(BatchOf(job))) && runId in whole.state.runs
    ensures whole.ending.Returned? || whole.ending.Raised?
    ensures whole.ending.Raised? ==> Replayed(runId, whole.state.runs[runId]) == Raised
  {
    assert whole == BatchOf(job).finish(runId)(Turns(BatchOf(job), t, runId));
  }

  /** With distinct leads a closed run is read back as it ended. */
  lemma ReadBackAsItEnded(job: Job, t: Tables, runId: string, whole: Attempted)
    requires Identifying(job.resolve) && FreshRun(t, runId) && DistinctLeads(job.leads)
    requires BatchOf(job).legal && job.requestKey !in t.keys
    requires whole == Attempt(BatchOf(job), t, runId, Uninterrupted(BatchOf(job))) && runId in whole.state.runs
    ensures Replayed(runId, whole.state.runs[runId]) == whole.ending
  {
    var b := BatchOf(job);
    RaisedRunFailed(job, t, runId, whole);
    if whole.ending.Returned? {
      BatchIsRestartable(job);
      WholeCloses(b, Settled(job), Opened(b, t, runId), runId);
      ClosedRunIsLeftAlone(b, whole.state, runId, runId, 1);
      ReplayIsFaithful(job, t, runId, runId, 1, whole, Attempt(b, whole.state, runId, 1));
    }
  }

  /** Everyone who is over ended alike, as the one execution did, when no lead is handed off twice. */
  lemma EveryoneEndsAlike(job: Job, t: Tables, order: seq<(nat, string)>)
    requires Identifying(job.resolve) && DistinctLeads(job.leads) && BatchOf(job).legal && job.requestKey !in t.keys
    requires forall id :: id in Offered(order) ==> FreshRun(t, id)
    ensures var b := BatchOf(job);
            var m := Interleaved(b, Model(t, map[]), order);
            m == Model(t, map[])
            || exists runId :: runId in Offered(order) && OneExecution(b, t, m, runId)
                 && forall x :: x in m.processes && m.processes[x].Over?
                      ==> m.processes[x].ending == Attempt(b, t, runId, Uninterrupted(b)).ending
  {
    var b := BatchOf(job);
    var m := Interleaved(b, Model(t, map[]), order);
    AnyInterleavingIsOneExecution(job, t, order);
    if m != Model(t, map[]) {
      var runId :| runId in Offered(order) && OneExecution(b, t, m, runId);
      var whole := Attempt(b, t, runId, Uninterrupted(b));
      if runId in whole.state.runs {
        ReadBackAsItEnded(job, t, runId, whole);
      }
    }
  }

  // ---------- everyone gets through ----------

  /** How many commits a process has before it at the most. */
  function Remaining(b: Batch, m: Model, x: nat): nat {
    if x !in m.processes then |b.leads| + 3
    else
      match m.processes[x]
      case Working(_, i) => if i <= |b.leads| then |b.leads| - i + 2 else 1
      case Failing(_, _) => 1
      case Over(_) => 0
  }

  lemma AdvanceProgresses(b: Batch, m: Model, x: nat, freshId: string, y: nat)
    ensures x == y && Remaining(b, m, x) > 0 ==> Remaining(b, Advance(b, m, x, freshId), x) < Remaining(b, m, x)
    ensures x != y || Remaining(b, m, x) == 0 ==> Remaining(b, Advance(b, m, x, freshId), y) == Remaining(b, m, y)
  {
  }

  /** How often a process comes up. */
  function TurnsOf(order: seq<(nat, string)>, x: nat): nat {
    if order == [] then 0 else (if order[0].0 == x then 1 else 0) + TurnsOf(order[1..], x)
  }

  lemma {:induction false} RemainingFalls(b: Batch, m: Model, order: seq<(nat, string)>, x: nat)
    ensures var left := Remaining(b, Interleaved(b, m, order), x);
            left == 0 || left + TurnsOf(order, x) <= Remaining(b, m, x)
    decreases |order|
  {
    if order != [] {
      AdvanceProgresses(b, m, order[0].0, order[0].1, x);
      RemainingFalls(b, Advance(b, m, order[0].0, order[0].1), order[1..], x);
    }
  }

  /** Nobody waits for anybody: a process that comes up once to open or join the run, once a handoff, and twice to end
      is over, whatever the others do. */
  lemma EveryoneGetsThrough(b: Batch, t: Tables, order: seq<(nat, string)>, x: nat)
    requires TurnsOf(order, x) >= |b.leads| + 3
    ensures var m := Interleaved(b, Model(t, map[]), order);
            x in m.processes && m.processes[x].Over?
  {
    RemainingFalls(b, Model(t, map[]), order, x);
  }

  /** A process that comes to a closed run is over at once, as the run is read back. */
  lemma ClosedRunIsReadBack(b: Batch, m: Model, x: nat, freshId: string, runId: string)
    requires b.legal && x !in m.processes && ClosedRun(b, m.tables, runId)
    ensures Advance(b, m, x, freshId)
            == Model(m.tables, m.processes[x := Over(if m.tables.runs[runId].status == Completed
                                                     then Returned(CompletedResult(runId, m.tables.runs[runId]))
                                                     else Raised)])
  {
  }

  /** A process whose request is not legal, or whose key stands for a run of another version, is turned away. */
  lemma TurnedAway(b: Batch, m: Model, x: nat, freshId: string)
    requires x !in m.processes
    requires !b.legal || (b.requestKey in m.tables.keys
                          && (m.tables.keys[b.requestKey] !in m.tables.runs
                              || m.tables.runs[m.tables.keys[b.requestKey]].version != b.version))
    ensures Advance(b, m, x, freshId) == Model(m.tables, m.processes[x := Over(Raised)])
  {
  }
}
