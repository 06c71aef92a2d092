/** What the numbers a batch reports are numbers of.

    The executor's counters, and the counters of the run in the tables, are set against the handoffs themselves:
    each is the number of positions at which something happened, or of pairs of a position and a candidate. */
module BatchCounts {
  import opened Text
  import opened Wrappers
  import opened Resolver
  import opened Counting
  import opened ResumableLoop
  import opened BatchExecutor
  import opened BatchReplay
  import Matching

  /** A request with a blank key or no budget is refused, and so is one whose key stands for a run of another version;
      nothing is written. */
  lemma RequestIsRefused(job: Job, t: Tables, freshId: string, commits: nat)
    requires (forall i :: 0 <= i < |job.requestKey| ==> IsSpace(job.requestKey[i])) || job.budget < 1
             || (commits > 0 && job.requestKey in t.keys
                 && (t.keys[job.requestKey] !in t.runs || t.runs[t.keys[job.requestKey]].version != job.version))
    ensures Attempt(BatchOf(job), t, freshId, commits) == Ended(t, Raised)
  {
    BlankIff(job.requestKey);
  }

  // ---------- the handoffs, position by position ----------

  ghost predicate UnavailableAt(job: Job, i: nat) {
    i < |job.leads| && job.provider(job.leads[i]).Unavailable?
  }

  /** What the resolver is called with for a lead: what the provider found, or nothing when it is unavailable. */
  ghost predicate AskedWith(job: Job, lead: Matching.Lead, candidates: seq<Matching.Candidate>,
                            relationships: seq<string>)
  {
    || job.provider(lead) == Found(candidates, relationships)
    || (job.provider(lead).Unavailable? && candidates == [] && relationships == [])
  }

  /** The resolver, asked about the handoff at this position, answers `d`. */
  ghost predicate AnsweredAt(job: Job, i: nat, d: Decision) {
    i < |job.leads| && exists candidates, relationships ::
      AskedWith(job, job.leads[i], candidates, relationships)
      && job.resolve(job.leads[i], candidates, relationships) == Ok(d)
  }

  ghost predicate MatchedAt(job: Job, i: nat) {
    exists d :: AnsweredAt(job, i, d) && (d.status == Matched || d.status == MatchedWithRelationship)
  }

  ghost predicate ResearchAt(job: Job, i: nat) {
    exists d :: AnsweredAt(job, i, d) && d.researchRequired
  }

  /** The first handoff of its lead. */
  ghost predicate FirstAt(job: Job, i: nat) {
    i < |job.leads| && forall j :: 0 <= j < i ==> job.leads[j].leadId != job.leads[i].leadId
  }

  /** The provider found a candidate number `k` for the handoff. */
  ghost predicate CandidateAt(job: Job, i: nat, k: nat) {
    i < |job.leads| && job.provider(job.leads[i]).Found? && k < |job.provider(job.leads[i]).candidates|
  }

  lemma DecidedAt(job: Job, i: nat)
    requires i < |job.leads|
    ensures Decide(job, job.leads[i]).Some? <==> exists d :: AnsweredAt(job, i, d)
    ensures Decide(job, job.leads[i]).Some? ==>
              forall d :: AnsweredAt(job, i, d) <==> d == Decide(job, job.leads[i]).value
  {
    var lead := job.leads[i];
    if Decide(job, lead).Some? {
      var d := Decide(job, lead).value;
      var rs := if job.provider(lead).Found? then job.provider(lead).relationships else [];
      assert AskedWith(job, lead, CandidatesOf(job, lead), rs);
      assert AnsweredAt(job, i, d);
    }
  }

  // ---------- the executor's counters ----------

  /** The positions among the first `n` at which the provider was unavailable, ... */
  ghost function Unavailables(job: Job, n: nat): set<nat> {
    Positions(n, (i: nat) => UnavailableAt(job, i))
  }

  /** ... those matched, ... */
  ghost function MatchedOnes(job: Job, n: nat): set<nat> {
    Positions(n, (i: nat) => MatchedAt(job, i))
  }

  /** ... and those that need research. */
  ghost function Researches(job: Job, n: nat): set<nat> {
    Positions(n, (i: nat) => ResearchAt(job, i))
  }

  lemma CountedNext(job: Job, n: nat)
    requires 0 < n <= |job.leads| && AllDecided(job, n)
    ensures CountsAfter(job, n).decisions == CountsAfter(job, n - 1).decisions + 1
    ensures CountsAfter(job, n).providerErrors
            == CountsAfter(job, n - 1).providerErrors + if UnavailableAt(job, n - 1) then 1 else 0
    ensures CountsAfter(job, n).matched == CountsAfter(job, n - 1).matched + if MatchedAt(job, n - 1) then 1 else 0
    ensures CountsAfter(job, n).research == CountsAfter(job, n - 1).research + if ResearchAt(job, n - 1) then 1 else 0
  {
    DecidedAt(job, n - 1);
    assert Decide(job, job.leads[n - 1]).Some?;
    assert AnsweredAt(job, n - 1, Decide(job, job.leads[n - 1]).value);
  }

  lemma {:induction false} UnavailableCounted(job: Job, n: nat)
    requires n <= |job.leads| && AllDecided(job, n)
    ensures CountsAfter(job, n).providerErrors == |Unavailables(job, n)|
  {
    if n == 0 {
      NoPositions((i: nat) => UnavailableAt(job, i));
    } else {
      UnavailableCounted(job, n - 1);
      CountedNext(job, n);
      PositionsNext(n, (i: nat) => UnavailableAt(job, i));
    }
  }

  lemma {:induction false} MatchedCounted(job: Job, n: nat)
    requires n <= |job.leads| && AllDecided(job, n)
    ensures CountsAfter(job, n).matched == |MatchedOnes(job, n)|
  {
    if n == 0 {
      NoPositions((i: nat) => MatchedAt(job, i));
    } else {
      MatchedCounted(job, n - 1);
      CountedNext(job, n);
      PositionsNext(n, (i: nat) => MatchedAt(job, i));
    }
  }

  lemma {:induction false} ResearchCounted(job: Job, n: nat)
    requires n <= |job.leads| && AllDecided(job, n)
    ensures CountsAfter(job, n).research == |Researches(job, n)|
  {
    if n == 0 {
      NoPositions((i: nat) => ResearchAt(job, i));
    } else {
      ResearchCounted(job, n - 1);
      CountedNext(job, n);
      PositionsNext(n, (i: nat) => ResearchAt(job, i));
    }
  }

  ghost function DecidedSoFar(job: Job): (Tables, nat) -> bool {
    (t: Tables, n: nat) => n <= |job.leads| && AllDecided(job, n)
  }

  lemma TurnsDecide(job: Job, t: Tables, runId: string, n: nat)
    requires n <= |job.leads|
    ensures AllDecided(job, Loop(BatchOf(job).turn(runId), t, job.leads, n).done)
  {
    var turn, holds := BatchOf(job).turn(runId), DecidedSoFar(job);
    LoopTracks(turn, holds, t, job.leads, n);
    assert holds(Loop(turn, t, job.leads, n).state, Loop(turn, t, job.leads, n).done);
  }

  /** The attempt does the work itself, rather than find it done: its run is new, or was left open. */
  ghost predicate WorksOff(job: Job, t: Tables, runId: string) {
    BatchOf(job).legal && (job.requestKey !in t.keys || StillOpen(BatchOf(job), t, runId))
  }

  /** All the turns there are to take by an attempt that works. */
  ghost function WholeLoop(b: Batch, t: Tables, runId: string): Progress<Tables> {
    Loop(b.turn(runId), Created(b, t, runId), b.leads, |b.leads|)
  }

  /** An attempt that works and is not cut short comes to the finish. */
  lemma WorkComesToFinish(b: Batch, t: Tables, runId: string, commits: nat, a: Attempted)
    requires b.legal && (b.requestKey !in t.keys || StillOpen(b, t, runId))
    requires a == Attempt(b, t, runId, commits) && !a.ending.Killed?
    ensures a == b.finish(runId)(WholeLoop(b, t, runId))
  {
    var start := Created(b, t, runId);
    assert commits > 0 && a == WorkOn(b, start, runId, commits - 1);
    WorkEnds(b.turn(runId), b.finish(runId), Killed, start, b.leads, commits - 1);
  }

  lemma FinishOf(job: Job, runId: string, p: Progress<Tables>)
    ensures p.done <= |job.leads| ==> BatchOf(job).finish(runId)(p) == Finish(job, runId, p)
  {
  }

  /** Every handoff it got through is decided. */
  lemma AttemptFinishes(job: Job, t: Tables, runId: string, commits: nat, a: Attempted, p: Progress<Tables>)
    requires WorksOff(job, t, runId) && a == Attempt(BatchOf(job), t, runId, commits) && !a.ending.Killed?
    requires p == WholeLoop(BatchOf(job), t, runId)
    ensures p.done <= |job.leads| && (p.raised <==> p.done < |job.leads|)
    ensures a == Finish(job, runId, p) && AllDecided(job, p.done)
  {
    var b := BatchOf(job);
    WorkComesToFinish(b, t, runId, commits, a);
    FinishOf(job, runId, p);
    TurnsDecide(job, Created(b, t, runId), runId, |job.leads|);
  }

  /** The counts an attempt reports, when it returns: how many handoffs there were, and how many of them found the
      provider unavailable, were matched, and need research. */
  lemma ResultCountsPositions(job: Job, t: Tables, runId: string, commits: nat, a: Attempted)
    requires WorksOff(job, t, runId) && a == Attempt(BatchOf(job), t, runId, commits) && a.ending.Returned?
    ensures a.ending.result.runId == runId
    ensures a.ending.result.inputCount == a.ending.result.decisionCount == |job.leads|
    ensures a.ending.result.providerErrors == |Unavailables(job, |job.leads|)|
    ensures a.ending.result.matched == |MatchedOnes(job, |job.leads|)|
    ensures a.ending.result.research == |Researches(job, |job.leads|)|
  {
    AttemptFinishes(job, t, runId, commits, a, WholeLoop(BatchOf(job), t, runId));
    ExecutorCountsHandoffs(job, |job.leads|);
    UnavailableCounted(job, |job.leads|);
    MatchedCounted(job, |job.leads|);
    ResearchCounted(job, |job.leads|);
  }

  lemma FinishFails(job: Job, runId: string, p: Progress<Tables>)
    requires p.done < |job.leads| && p.raised && AllDecided(job, p.done)
    ensures Finish(job, runId, p)
            == Ended(Close(p.state, runId, Failed, Failure(|Unavailables(job, p.done + 1)|)),
                     Raised)
  {
    UnavailableCounted(job, p.done);
    PositionsNext(p.done + 1, (i: nat) => UnavailableAt(job, i));
  }

  /** An attempt that works finds its run open, and keeps it so until the closing commit. */
  lemma RunStaysOpen(job: Job, t: Tables, runId: string, p: Progress<Tables>)
    requires WorksOff(job, t, runId)
    requires p == WholeLoop(BatchOf(job), t, runId)
    ensures StillOpen(BatchOf(job), p.state, runId)
  {
    BatchIsRestartable(job);
    assert StillOpen(BatchOf(job), Created(BatchOf(job), t, runId), runId);
    StateIsOpen(BatchOf(job), Settled(job), Created(BatchOf(job), t, runId), runId, |job.leads|);
  }

  lemma FailureIsRecorded(job: Job, runId: string, p: Progress<Tables>, a: Attempted)
    requires p.done < |job.leads| && p.raised && AllDecided(job, p.done) && runId in p.state.runs
    requires a == Finish(job, runId, p)
    ensures runId in a.state.runs && a.state.runs[runId].status == Failed
    ensures a.state.runs[runId].metadata == Failure(|Unavailables(job, p.done + 1)|)
  {
    FinishFails(job, runId, p);
  }

  lemma FinishRaises(job: Job, runId: string, p: Progress<Tables>)
    requires p.raised <==> p.done < |job.leads|
    requires p.done <= |job.leads| && Finish(job, runId, p).ending.Raised?
    ensures p.raised && p.done < |job.leads|
  {
  }

  /** A run that fails is closed with the number of handoffs that found the provider unavailable, up to and including
      the one it failed at. */
  lemma FailureCountsPositions(job: Job, t: Tables, runId: string, commits: nat, a: Attempted, p: Progress<Tables>)
    requires WorksOff(job, t, runId) && a == Attempt(BatchOf(job), t, runId, commits) && a.ending.Raised?
    requires p == WholeLoop(BatchOf(job), t, runId)
    ensures p.raised && p.done < |job.leads|
    ensures runId in a.state.runs && a.state.runs[runId].status == Failed
    ensures a.state.runs[runId].metadata == Failure(|Unavailables(job, p.done + 1)|)
  {
    AttemptFinishes(job, t, runId, commits, a, p);
    FinishRaises(job, runId, p);
    RunStaysOpen(job, t, runId, p);
    FailureIsRecorded(job, runId, p, a);
  }

  // ---------- the run's counters in the tables ----------

  /** The positions among the first `n` that hand a lead off for the first time, ... */
  ghost function Firsts(job: Job, n: nat): set<nat> {
    Positions(n, (i: nat) => FirstAt(job, i))
  }

  /** ... those of them that need research, ... */
  ghost function FirstResearches(job: Job, n: nat): set<nat> {
    Positions(n, (i: nat) => FirstAt(job, i) && ResearchAt(job, i))
  }

  /** ... and the candidates found there, each as its position and its number in the provider's list. */
  ghost function FirstCandidates(job: Job, n: nat): set<(nat, nat)>
    requires n <= |job.leads|
  {
    set i: nat, k: nat | i < n && k < |CandidatesOf(job, job.leads[i])| && FirstAt(job, i) && CandidateAt(job, i, k)
      :: (i, k)
  }

  lemma FirstIffNew(job: Job, n: nat)
    requires n < |job.leads|
    ensures FirstAt(job, n) <==> job.leads[n].leadId !in LeadIds(job.leads, n)
  {
    LeadIdsAre(job.leads, n, job.leads[n].leadId);
  }

  ghost function PairsAt(n: nat, width: nat): set<(nat, nat)> {
    set k: nat | k < width :: (n, k)
  }

  lemma {:induction false} PairsCount(n: nat, width: nat)
    ensures |PairsAt(n, width)| == width
  {
    if width > 0 {
      PairsCount(n, width - 1);
      assert PairsAt(n, width) == PairsAt(n, width - 1) + {(n, width - 1 as nat)};
    }
  }

  lemma CandidatesNext(job: Job, n: nat)
    requires 0 < n <= |job.leads|
    ensures |FirstCandidates(job, n)|
            == |FirstCandidates(job, n - 1)| + if FirstAt(job, n - 1) then |CandidatesOf(job, job.leads[n - 1])| else 0
  {
    var width := |CandidatesOf(job, job.leads[n - 1])|;
    PairsCount(n - 1, width);
    assert FirstCandidates(job, n - 1) !! PairsAt(n - 1, width);
    assert FirstCandidates(job, n) == FirstCandidates(job, n - 1) + if FirstAt(job, n - 1) then PairsAt(n - 1, width)
           else {};
  }

  lemma RecordedNext(job: Job, n: nat)
    requires 0 < n <= |job.leads| && AllDecided(job, n)
    ensures var added := if FirstAt(job, n - 1) then 1 else 0;
            && RunAfter(job, n).inputCount == RunAfter(job, n - 1).inputCount + added
            && RunAfter(job, n).candidateCount
               == RunAfter(job, n - 1).candidateCount + added * |CandidatesOf(job, job.leads[n - 1])|
            && RunAfter(job, n).escalationCount
               == RunAfter(job, n - 1).escalationCount + if FirstAt(job, n - 1) && ResearchAt(job, n - 1) then 1 else 0
  {
    FirstIffNew(job, n - 1);
    DecidedAt(job, n - 1);
    assert Decide(job, job.leads[n - 1]).Some?;
    assert AnsweredAt(job, n - 1, Decide(job, job.leads[n - 1]).value);
  }

  lemma LeadIdsNext(leads: seq<Matching.Lead>, n: nat)
    requires 0 < n <= |leads|
    ensures |LeadIds(leads, n)|
            == |LeadIds(leads, n - 1)| + if leads[n - 1].leadId in LeadIds(leads, n - 1) then 0 else 1
  {
    if leads[n - 1].leadId in LeadIds(leads, n - 1) {
      assert LeadIds(leads, n) == LeadIds(leads, n - 1);
    }
  }

  /** As many positions hand a lead off for the first time as there are leads. */
  lemma {:induction false} FirstsAreLeads(job: Job, n: nat)
    requires n <= |job.leads|
    ensures |Firsts(job, n)| == |LeadIds(job.leads, n)|
  {
    if n == 0 {
      NoPositions((i: nat) => FirstAt(job, i));
    } else {
      FirstsAreLeads(job, n - 1);
      FirstIffNew(job, n - 1);
      PositionsNext(n, (i: nat) => FirstAt(job, i));
      LeadIdsNext(job.leads, n);
    }
  }

  lemma {:induction false} RecordedCandidates(job: Job, n: nat)
    requires n <= |job.leads| && AllDecided(job, n)
    ensures RunAfter(job, n).candidateCount == |FirstCandidates(job, n)|
  {
    if n == 0 {
      assert FirstCandidates(job, 0) == {};
    } else {
      RecordedCandidates(job, n - 1);
      RecordedNext(job, n);
      CandidatesNext(job, n);
    }
  }

  lemma {:induction false} RecordedEscalations(job: Job, n: nat)
    requires n <= |job.leads| && AllDecided(job, n)
    ensures RunAfter(job, n).escalationCount == |FirstResearches(job, n)|
  {
    if n == 0 {
      NoPositions((i: nat) => FirstAt(job, i) && ResearchAt(job, i));
    } else {
      RecordedEscalations(job, n - 1);
      RecordedNext(job, n);
      PositionsNext(n, (i: nat) => FirstAt(job, i) && ResearchAt(job, i));
    }
  }

  lemma {:induction false} RunKeepsKey(job: Job, n: nat)
    requires n <= |job.leads|
    ensures RunAfter(job, n).requestKey == job.requestKey && RunAfter(job, n).version == job.version
  {
    if n > 0 {
      RunKeepsKey(job, n - 1);
    }
  }

  lemma ReturnedIsClosed(job: Job, t: Tables, runId: string, a: Attempted)
    requires BatchOf(job).legal && job.requestKey !in t.keys
    requires a == Attempt(BatchOf(job), t, runId, Uninterrupted(BatchOf(job)))
    ensures ClosedRun(BatchOf(job), a.state, runId)
  {
    BatchIsRestartable(job);
    WholeCloses(BatchOf(job), Settled(job), Opened(BatchOf(job), t, runId), runId);
  }

  /** The counters on record once an undisturbed execution has returned: leads, the candidates found for them, and
      those that need research, each lead at its first handoff. */
  lemma RunCountsPositions(job: Job, t: Tables, runId: string, a: Attempted)
    requires Identifying(job.resolve) && FreshRun(t, runId) && BatchOf(job).legal && job.requestKey !in t.keys
    requires a == Attempt(BatchOf(job), t, runId, Uninterrupted(BatchOf(job))) && a.ending.Returned?
    ensures job.requestKey in a.state.keys && a.state.keys[job.requestKey] == runId && runId in a.state.runs
    ensures a.state.runs[runId].requestKey == job.requestKey && a.state.runs[runId].version == job.version
    ensures a.state.runs[runId].status == Completed
    ensures a.state.runs[runId].inputCount == a.state.runs[runId].decisionCount == |Firsts(job, |job.leads|)|
    ensures a.state.runs[runId].candidateCount == |FirstCandidates(job, |job.leads|)|
    ensures a.state.runs[runId].escalationCount == |FirstResearches(job, |job.leads|)|
  {
    ReturnedRun(job, t, runId, a);
    RunKeepsKey(job, |job.leads|);
    ReturnedIsClosed(job, t, runId, a);
    RunCountsLeads(job, |job.leads|);
    FirstsAreLeads(job, |job.leads|);
    RecordedCandidates(job, |job.leads|);
    RecordedEscalations(job, |job.leads|);
  }
}
