/** Retrying a campaign step whose send may already be on file.

    The documentation promises that a retry recovers such a send by its key. The procedure raises unless the
    retry asks for the very same send; both sides are shown here, over all interleavings. */
module CampaignRetries {
  import opened Text
  import opened Wrappers
  import opened CampaignSteps
  import opened CampaignDriver

  // ---------- the retry that recovers ----------

  /** What others do leaves an execution alone. */
  lemma {:induction false} ForeignLeavesExecution(env: Setting, m: Model, x: nat, id: string, events: seq<Event>)
    requires x in m.executions && forall i :: 0 <= i < |events| ==> Foreign(events[i], x, id)
    ensures x in Run(env, m, events).executions && Run(env, m, events).executions[x] == m.executions[x]
    decreases |events|
  {
    if events != [] {
      assert Foreign(events[0], x, id);
      ForeignLeavesExecution(env, Apply(env, m, events[0]), x, id, events[1..]);
    }
  }

  /** A worker with a request, its claim held and leased for the given time. */
  ghost predicate Ready(env: Setting, m: Model, x: nat, time: nat) {
    && Inv(env, m) && HeldBy(m, x) && m.executions[x].phase.Requested? && Leased(m, x, time)
    && Live(m.store.enrollments[m.executions[x].enrollmentId].status)
  }

  /** Persisting the request: the send is on file and the claim still held, or the execution fails. */
  lemma RequestIsPersisted(env: Setting, m: Model, x: nat, time: nat)
    requires Ready(env, m, x, time)
    ensures var c, p := m.executions[x].claim, m.executions[x].phase.payload;
            var n := Apply(env, m, Enqueue(x, true));
            && x in n.executions && n.executions[x].claim == c
               && n.executions[x].enrollmentId == m.executions[x].enrollmentId
            && n.store.enrollments == m.store.enrollments
            && (if env.driver.adaptsDicts && env.driver.byName && Agrees(m.store.sends, c, p)
                then n.executions[x].phase == Persisted(p) && HeldBy(n, x) && Leased(n, x, time)
                     && KeyOf(c) in n.store.sends && n.store.sends[KeyOf(c)] == SendOf(c, p)
                else n.executions[x].phase == Failing)
  {
  }

  /** The run of an execution from its request on, the others doing what they like in between. */
  function Requesting(env: Setting, m: Model, x: nat, before: seq<Event>, after: seq<Event>): Model {
    Apply(env, Run(env, Apply(env, Run(env, m, before), Enqueue(x, true)), after), Complete(x))
  }

  /** From there on: a persisted request is completed if the driver can, a failed one stays failed. */
  lemma RequestIsDecided(env: Setting, m: Model, x: nat, after: seq<Event>, id: string)
    requires Inv(env, m) && x in m.executions && m.executions[x].enrollmentId == id
    requires id in m.store.enrollments && Live(m.store.enrollments[id].status)
    requires m.executions[x].phase == Failing
             || (m.executions[x].phase.Persisted? && HeldBy(m, x) && Leased(m, x, Elapsed(after)))
    requires forall i :: 0 <= i < |after| ==> Foreign(after[i], x, id)
    ensures var n := Apply(env, Run(env, m, after), Complete(x));
            && x in n.executions && id in n.store.enrollments
            && (n.executions[x].phase == Ended(true) <==> m.executions[x].phase.Persisted? && env.driver.byPosition)
            && (n.executions[x].phase == Ended(true) ==> n.store.enrollments[id].step == m.executions[x].claim.stepNo)
  {
    if m.executions[x].phase == Failing {
      ForeignLeavesExecution(env, m, x, id, after);
      RowsStay(env, m, after);
    } else {
      InTimeCompletionSucceeds(env, m, x, after);
    }
  }

  lemma {:induction false} RunLast(env: Setting, m: Model, events: seq<Event>, last: Event)
    ensures Run(env, m, events + [last]) == Apply(env, Run(env, m, events), last)
    decreases |events|
  {
    if events == [] {
      assert events + [last] == [last] + [];
      RunFirst(env, m, last, []);
    } else {
      assert (events + [last])[1..] == events[1..] + [last];
      RunLast(env, Apply(env, m, events[0]), events[1..], last);
    }
  }

  /** A request made while the lease lasts succeeds exactly when the driver works and, at that moment, there
      is no send of the step on file or it is field by field the one asked for. Then the step is advanced and
      that send is on file; otherwise the enrollment stands where it stood. */
  lemma RetryRecoversIffSamePayload(env: Setting, m: Model, x: nat, before: seq<Event>, after: seq<Event>)
    requires Ready(env, m, x, Elapsed(before) + Elapsed(after))
    requires forall i :: 0 <= i < |before| ==> Foreign(before[i], x, m.executions[x].enrollmentId)
    requires forall i :: 0 <= i < |after| ==> Foreign(after[i], x, m.executions[x].enrollmentId)
    ensures var c, p, id := m.executions[x].claim, m.executions[x].phase.payload, m.executions[x].enrollmentId;
            var n := Requesting(env, m, x, before, after);
            var ok := Works(env.driver) && Agrees(Run(env, m, before).store.sends, c, p);
            && x in n.executions && (n.executions[x].phase == Ended(true) <==> ok)
            && id in n.store.enrollments
            && (ok ==>
                  && n.store.enrollments[id].step == c.stepNo
                  && KeyOf(c) in n.store.sends && n.store.sends[KeyOf(c)] == SendOf(c, p))
  {
    var m1 := Run(env, m, before);
    var c, p, id := m.executions[x].claim, m.executions[x].phase.payload, m.executions[x].enrollmentId;
    RunTime(env, m, before);
    ClaimSurvives(env, m, x, before);
    EveryRunKeepsInv(env, m, before);
    RequestIsPersisted(env, m1, x, Elapsed(after));
    var m2 := Apply(env, m1, Enqueue(x, true));
    StepKeeps(env, m1, Enqueue(x, true));
    RequestIsDecided(env, m2, x, after, id);
    if m2.executions[x].phase.Persisted? {
      SendsNeverChange(env, m2, after + [Complete(x)], KeyOf(c));
      RunLast(env, m2, after, Complete(x));
    }
  }

  // ---------- the retries that do not ----------

  /** The send on file differs from whatever this payload could ask for. */
  predicate Differs(send: Send, p: Payload) {
    send.mailboxId != p.mailboxId || send.scheduledAt != p.scheduledAt || send.subject != p.subject
      || send.body != p.body
  }

  function StepKey(s: Store, id: string, stepId: string): string
    requires id in s.enrollments
  {
    Key(s.enrollments[id].campaignId, s.enrollments[id].personId, stepId)
  }

  /** The row is the enrollment's only next one, and has a send on file. */
  ghost predicate SentAhead(env: Setting, s: Store, id: string, stepId: string) {
    && id in s.enrollments && stepId in env.plan
    && NextRow(env, s.enrollments[id], stepId)
    && (forall other :: other in env.plan && NextRow(env, s.enrollments[id], other) ==> other == stepId)
    && StepKey(s, id, stepId) in s.sends
  }

  /** The execution cannot complete the step: it does not hold the claim, or is about to ask for something else. */
  ghost predicate Harmless(s: Store, id: string, stepId: string, x: Execution)
    requires id in s.enrollments && StepKey(s, id, stepId) in s.sends
  {
    x.enrollmentId == id && x.claim.stepId == stepId ==>
      && (x.phase.Persisted? ==> s.enrollments[id].token != Some(x.claim.token))
      && (x.phase.Requested? ==> Differs(s.sends[StepKey(s, id, stepId)], x.phase.payload))
  }

  /** The enrollment's next step has a send on file, and no execution that persisted it holds the claim: the
      one that did is gone, or its claim was taken over. */
  ghost predicate Orphaned(env: Setting, m: Model, id: string, stepId: string) {
    && SentAhead(env, m.store, id, stepId)
    && forall x :: x in m.executions ==> Harmless(m.store, id, stepId, m.executions[x])
  }

  function OrphanedSend(m: Model, id: string, stepId: string): Option<Send> {
    if id !in m.store.enrollments then None
    else if StepKey(m.store, id, stepId) in m.store.sends then Some(m.store.sends[StepKey(m.store, id, stepId)])
    else None
  }

  /** Sends, and the rest of the enrollment's row, are as they were. */
  ghost predicate SameStanding(s: Store, t: Store, id: string, key: string)
    requires id in s.enrollments && key in s.sends
  {
    && id in t.enrollments && key in t.sends && t.sends[key] == s.sends[key]
    && t.enrollments[id].campaignId == s.enrollments[id].campaignId
    && t.enrollments[id].personId == s.enrollments[id].personId
    && t.enrollments[id].sequence == s.enrollments[id].sequence
    && t.enrollments[id].step == s.enrollments[id].step
  }

  /** No completion gets past an orphaned step. */
  lemma CompletionIsRefused(env: Setting, m: Model, x: nat, id: string, stepId: string)
    requires Inv(env, m) && Orphaned(env, m, id, stepId)
    ensures SameStanding(m.store, Apply(env, m, Complete(x)).store, id, StepKey(m.store, id, stepId))
  {
    if x in m.executions && m.executions[x].phase.Persisted? && m.executions[x].enrollmentId == id {
      var c := m.executions[x].claim;
      assert ExecutionInv(env, m.store, m.executions[x]);
      assert Harmless(m.store, id, stepId, m.executions[x]);
      assert c.stepNo == m.store.enrollments[id].step + 1 ==> NextRow(env, m.store.enrollments[id], c.stepId);
    }
  }

  lemma StandingAfter(env: Setting, m: Model, ev: Event, id: string, stepId: string)
    requires Inv(env, m) && Orphaned(env, m, id, stepId)
    ensures SameStanding(m.store, Apply(env, m, ev).store, id, StepKey(m.store, id, stepId))
  {
    StepGrows(env, m, ev);
    if Apply(env, m, ev).store.enrollments[id].step != m.store.enrollments[id].step {
      OnlyTheHolderAdvances(env, m, ev, id);
      CompletionIsRefused(env, m, ev.execution, id, stepId);
    }
  }

  /** Where an execution that is there already may be after an event. */
  lemma PhaseAfter(env: Setting, m: Model, ev: Event, x: nat)
    requires x in m.executions
    ensures var before, n := m.executions[x], Apply(env, m, ev);
            && x in n.executions && n.executions[x].claim == before.claim
               && n.executions[x].enrollmentId == before.enrollmentId
            && (n.executions[x].phase.Requested? ==>
                  || n.executions[x].phase == before.phase
                  || (ev.Build? && ev.rendered == Some(n.executions[x].phase.payload)))
            && (n.executions[x].phase.Persisted? ==>
                  || n.executions[x].phase == before.phase
                  || (before.phase.Requested? && Agrees(m.store.sends, before.claim, before.phase.payload)))
  {
  }

  lemma NewExecution(env: Setting, m: Model, ev: Event, x: nat)
    requires x !in m.executions && x in Apply(env, m, ev).executions
    ensures !Apply(env, m, ev).executions[x].phase.Requested? && !Apply(env, m, ev).executions[x].phase.Persisted?
  {
  }

  lemma HarmlessAfter(env: Setting, m: Model, ev: Event, id: string, stepId: string, x: nat)
    requires Inv(env, m) && Orphaned(env, m, id, stepId) && x in Apply(env, m, ev).executions
    requires SameStanding(m.store, Apply(env, m, ev).store, id, StepKey(m.store, id, stepId))
    requires ev.Build? && ev.rendered.Some? ==> Differs(m.store.sends[StepKey(m.store, id, stepId)], ev.rendered.value)
    ensures Harmless(Apply(env, m, ev).store, id, stepId, Apply(env, m, ev).executions[x])
  {
    if x in m.executions {
      PhaseAfter(env, m, ev, x);
      assert ExecutionInv(env, m.store, m.executions[x]);
      assert Harmless(m.store, id, stepId, m.executions[x]);
      if m.store.enrollments[m.executions[x].enrollmentId].token != Some(m.executions[x].claim.token) {
        StaleAfter(env, m, x, ev);
      }
    } else {
      NewExecution(env, m, ev, x);
    }
  }

  lemma OrphanSurvives(env: Setting, m: Model, ev: Event, id: string, stepId: string)
    requires Inv(env, m) && Orphaned(env, m, id, stepId)
    requires ev.Build? && ev.rendered.Some? ==> Differs(m.store.sends[StepKey(m.store, id, stepId)], ev.rendered.value)
    ensures Orphaned(env, Apply(env, m, ev), id, stepId)
    ensures SameStanding(m.store, Apply(env, m, ev).store, id, StepKey(m.store, id, stepId))
  {
    var n := Apply(env, m, ev);
    StandingAfter(env, m, ev, id, stepId);
    forall other | other in env.plan && NextRow(env, n.store.enrollments[id], other) ensures other == stepId {
      assert NextRow(env, m.store.enrollments[id], other);
    }
    forall x | x in n.executions ensures Harmless(n.store, id, stepId, n.executions[x]) {
      HarmlessAfter(env, m, ev, id, stepId, x);
    }
  }

  /** No request made from now on agrees with the send on file. */
  predicate AllDiffer(send: Send, events: seq<Event>) {
    events == []
    || ((events[0].Build? && events[0].rendered.Some? ==> Differs(send, events[0].rendered.value))
        && AllDiffer(send, events[1..]))
  }

  /** As long as every request asks for something else, say another time, the enrollment never gets past an
      orphaned step. */
  lemma {:induction false} DifferentRetriesNeverRecover(env: Setting, m: Model, events: seq<Event>, id: string,
                                                        stepId: string)
    requires Inv(env, m) && Orphaned(env, m, id, stepId)
    requires AllDiffer(OrphanedSend(m, id, stepId).value, events)
    ensures id in Run(env, m, events).store.enrollments
    ensures Run(env, m, events).store.enrollments[id].step == m.store.enrollments[id].step
    decreases |events|
  {
    if events != [] {
      OrphanSurvives(env, m, events[0], id, stepId);
      StepKeeps(env, m, events[0]);
      DifferentRetriesNeverRecover(env, Apply(env, m, events[0]), events[1..], id, stepId);
    }
  }

  // ---------- how an enrollment gets there ----------

  /** Taking over a claim orphans the send its worker had persisted, whatever phase that worker is in. */
  lemma TakeoverOrphans(env: Setting, m: Model, ev: Event, stepId: string)
    requires Inv(env, m) && ev.Start? && ev.execution !in m.executions
    requires ev.execution in Apply(env, m, ev).executions && ev.around.stepId == Some(stepId)
    requires var e := m.store.enrollments[ev.enrollmentId];
             && OnFile(m.store.sends, e.campaignId, e.personId, stepId)
             && (forall other :: other in env.plan && NextRow(env, e, other) ==> other == stepId)
             && forall x ::
                  (&& x in m.executions && m.executions[x].enrollmentId == ev.enrollmentId
                   && m.executions[x].phase.Requested?)
                  ==> Differs(m.store.sends[Key(e.campaignId, e.personId, stepId)], m.executions[x].phase.payload)
    ensures Orphaned(env, Apply(env, m, ev), ev.enrollmentId, stepId)
  {
    var n, id := Apply(env, m, ev), ev.enrollmentId;
    forall other | other in env.plan && NextRow(env, n.store.enrollments[id], other) ensures other == stepId {
      assert NextRow(env, m.store.enrollments[id], other);
    }
    forall x | x in n.executions ensures Harmless(n.store, id, stepId, n.executions[x]) {
      if x in m.executions {
        assert ExecutionInv(env, m.store, m.executions[x]);
      }
    }
  }

  /** A worker persists a send and dies; its lease runs out and another takes over. */
  function CrashAndTakeover(stepId: string, email: string, p: Payload): seq<Event> {
    var around := Surroundings(Some(stepId), true, true, email);
    [Start(0, "e", "w", 30, around, "t"), Build(0, Some(p)), Enqueue(0, true), Pass(30),
     Start(1, "e", "w", 30, around, "u")]
  }

  /** The row is the only first one of its sequence. */
  ghost predicate FirstRow(env: Setting, stepId: string) {
    && stepId in env.plan && env.plan[stepId].no == 1
    && forall other ::
         (other in env.plan && env.plan[other].sequence == env.plan[stepId].sequence && env.plan[other].no == 1)
         ==> other == stepId
  }

  function ClaimOn(env: Setting, stepId: string, email: string, token: string): Claim
    requires stepId in env.plan
  {
    Claim(token, "c", "p", stepId, 1, env.plan[stepId].delayDays, email)
  }

  function TakenOver(env: Setting, stepId: string, email: string, p: Payload): Model
    requires stepId in env.plan
  {
    var first, second := ClaimOn(env, stepId, email, "t"), ClaimOn(env, stepId, email, "u");
    Model(Store(map["e" := Enrollment("c", "p", env.plan[stepId].sequence, 1, Active, 0, None, Some("u"), Some(60))],
                map[KeyOf(first) := SendOf(first, p)], {"t", "u"}, 30),
          map[0 := Execution("e", first, Persisted(p)), 1 := Execution("e", second, Claimed)])
  }

  function Crashed(env: Setting, stepId: string, email: string, p: Payload): Model
    requires stepId in env.plan
  {
    var first := ClaimOn(env, stepId, email, "t");
    Model(Store(map["e" := Enrollment("c", "p", env.plan[stepId].sequence, 1, Active, 0, None, Some("t"), Some(30))],
                map[KeyOf(first) := SendOf(first, p)], {"t"}, 30),
          map[0 := Execution("e", first, Persisted(p))])
  }

  function FirstClaimed(env: Setting, stepId: string, email: string): Model
    requires stepId in env.plan
  {
    Model(Store(map["e" := Enrollment("c", "p", env.plan[stepId].sequence, 1, Active, 0, None, Some("t"), Some(30))],
                map[], {"t"}, 0),
          map[0 := Execution("e", ClaimOn(env, stepId, email, "t"), Claimed)])
  }

  lemma FirstIsClaimed(env: Setting, stepId: string, email: string)
    requires env.columnsWin && env.driver.byName && FirstRow(env, stepId) && !OnlySpaces(email)
    ensures Apply(env, OneEnrollment(env.plan[stepId]),
                  Start(0, "e", "w", 30, Surroundings(Some(stepId), true, true, email), "t"))
            == FirstClaimed(env, stepId, email)
  {
    var m := Apply(env, OneEnrollment(env.plan[stepId]),
                   Start(0, "e", "w", 30, Surroundings(Some(stepId), true, true, email), "t"));
    assert m.executions == FirstClaimed(env, stepId, email).executions;
  }

  lemma SendIsPersisted(env: Setting, stepId: string, email: string, p: Payload)
    requires env.columnsWin && env.driver.byName && env.driver.adaptsDicts && FirstRow(env, stepId)
    requires !OnlySpaces(email)
    ensures var start := Start(0, "e", "w", 30, Surroundings(Some(stepId), true, true, email), "t");
            var m2 := Apply(env, Apply(env, OneEnrollment(env.plan[stepId]), start), Build(0, Some(p)));
            Apply(env, Apply(env, m2, Enqueue(0, true)), Pass(30)) == Crashed(env, stepId, email, p)
  {
    FirstIsClaimed(env, stepId, email);
    var first, m1 := ClaimOn(env, stepId, email, "t"), FirstClaimed(env, stepId, email);
    var m2 := Apply(env, m1, Build(0, Some(p)));
    assert m2 == m1.(executions := map[0 := Execution("e", first, Requested(p))]);
    assert Apply(env, m2, Enqueue(0, true)).executions == map[0 := Execution("e", first, Persisted(p))];
  }

  lemma TakeoverIsReached(env: Setting, stepId: string, email: string, p: Payload)
    requires env.columnsWin && env.driver.byName && env.driver.adaptsDicts && FirstRow(env, stepId)
    requires !OnlySpaces(email)
    ensures Initial(OneEnrollment(env.plan[stepId]))
    ensures Run(env, OneEnrollment(env.plan[stepId]), CrashAndTakeover(stepId, email, p))
            == TakenOver(env, stepId, email, p)
  {
    var m := OneEnrollment(env.plan[stepId]);
    var around := Surroundings(Some(stepId), true, true, email);
    var start, again := Start(0, "e", "w", 30, around, "t"), Start(1, "e", "w", 30, around, "u");
    RunOfFive(env, m, start, Build(0, Some(p)), Enqueue(0, true), Pass(30), again);
    SendIsPersisted(env, stepId, email, p);
    var crashed := Crashed(env, stepId, email, p);
    assert Claimable(crashed.store.enrollments["e"], 30);
    assert Apply(env, crashed, again).executions == TakenOver(env, stepId, email, p).executions;
  }

  lemma TakenOverIsOrphaned(env: Setting, stepId: string, email: string, p: Payload)
    requires FirstRow(env, stepId)
    ensures Orphaned(env, TakenOver(env, stepId, email, p), "e", stepId)
  {
    var m := TakenOver(env, stepId, email, p);
    forall other | other in env.plan && NextRow(env, m.store.enrollments["e"], other) ensures other == stepId {
    }
  }

  /** So it happens: from fresh tables, after one crash in the wrong place, any further run in which every
      request differs from the one persisted leaves the enrollment where it was. */
  lemma OneCrashCanStickForGood(env: Setting, stepId: string, email: string, p: Payload, events: seq<Event>)
    requires env.columnsWin && env.driver.byName && env.driver.adaptsDicts && FirstRow(env, stepId)
    requires !OnlySpaces(email)
    requires AllDiffer(SendOf(ClaimOn(env, stepId, email, "t"), p), events)
    ensures var start := OneEnrollment(env.plan[stepId]);
            var n := Run(env, Run(env, start, CrashAndTakeover(stepId, email, p)), events);
            Initial(start) && "e" in n.store.enrollments && n.store.enrollments["e"].step == 0
  {
    var m := TakenOver(env, stepId, email, p);
    TakeoverIsReached(env, stepId, email, p);
    EveryRunKeepsInv(env, OneEnrollment(env.plan[stepId]), CrashAndTakeover(stepId, email, p));
    TakenOverIsOrphaned(env, stepId, email, p);
    DifferentRetriesNeverRecover(env, m, events, "e", stepId);
  }

  /** One such retry: a request that differs in anything is refused, and the send on file stays what it was. */
  lemma RefusedRetry(env: Setting, stepId: string, email: string, p: Payload, q: Payload)
    requires env.columnsWin && env.driver.byName && env.driver.adaptsDicts && FirstRow(env, stepId)
    requires !OnlySpaces(email)
    requires p != q
    ensures var n := Run(env, OneEnrollment(env.plan[stepId]), CrashAndTakeover(stepId, email, p));
            var r := Apply(env, Apply(env, n, Build(1, Some(q))), Enqueue(1, true));
            1 in r.executions && r.executions[1].phase == Failing && r.store == n.store
  {
    TakeoverIsReached(env, stepId, email, p);
    var m := Apply(env, TakenOver(env, stepId, email, p), Build(1, Some(q)));
    assert m.executions[1] == Execution("e", ClaimOn(env, stepId, email, "u"), Requested(q));
  }
}
