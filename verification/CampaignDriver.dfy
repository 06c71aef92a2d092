/** What the database and its driver make of the campaign protocol.

    The claim procedure looks the next step up by names that are its own variables as well. The database class
    reads two of its answers by position, while its connections key rows by name, and it passes dicts as
    parameters. Here it is shown what can happen all the same, and what it takes for anything to advance. */
module CampaignDriver {
  import opened Wrappers
  import opened CampaignSteps

  lemma {:induction false} RunTime(env: Setting, m: Model, events: seq<Event>)
    ensures Run(env, m, events).store.now == m.store.now + Elapsed(events)
    decreases |events|
  {
    if events != [] {
      RunTime(env, Apply(env, m, events[0]), events[1..]);
    }
  }

  // ---------- rows without positions ----------

  /** Completing and releasing raise on reading their answer, and the transaction is rolled back. */
  lemma NothingIsCommitted(env: Setting, m: Model, x: nat)
    requires !env.driver.byPosition
    ensures Apply(env, m, Complete(x)).store == m.store && Apply(env, m, Release(x)).store == m.store
  {
  }

  lemma RowAfter(env: Setting, m: Model, ev: Event, id: string)
    requires !env.driver.byPosition && id in m.store.enrollments
    ensures var next := Apply(env, m, ev).store;
            && id in next.enrollments && next.enrollments[id].step == m.store.enrollments[id].step
            && (m.store.enrollments[id].leaseUntil.Some? && m.store.now < m.store.enrollments[id].leaseUntil.value ==>
                  next.enrollments[id].(status := m.store.enrollments[id].status) == m.store.enrollments[id])
  {
    if ev.Complete? || ev.Release? {
      NothingIsCommitted(env, m, ev.execution);
    }
  }

  /** No enrollment ever advances. */
  lemma {:induction false} NothingAdvances(env: Setting, m: Model, events: seq<Event>, id: string)
    requires !env.driver.byPosition && id in m.store.enrollments
    ensures id in Run(env, m, events).store.enrollments
    ensures Run(env, m, events).store.enrollments[id].step == m.store.enrollments[id].step
    decreases |events|
  {
    if events != [] {
      RowAfter(env, m, events[0], id);
      NothingAdvances(env, Apply(env, m, events[0]), events[1..], id);
    }
  }

  /** No claim is ever given back: whatever its own execution and the others do, it stands until its lease
      runs out. */
  lemma {:induction false} ClaimsOnlyRunOut(env: Setting, m: Model, events: seq<Event>, id: string)
    requires !env.driver.byPosition && id in m.store.enrollments && m.store.enrollments[id].leaseUntil.Some?
    requires Run(env, m, events).store.now < m.store.enrollments[id].leaseUntil.value
    ensures id in Run(env, m, events).store.enrollments
    ensures Run(env, m, events).store.enrollments[id].(status := m.store.enrollments[id].status)
            == m.store.enrollments[id]
    decreases |events|
  {
    if events != [] {
      RunTime(env, m, events);
      RowAfter(env, m, events[0], id);
      ClaimsOnlyRunOut(env, Apply(env, m, events[0]), events[1..], id);
    }
  }

  // ---------- parameters without dicts, rows without names ----------

  /** No send is ever persisted. */
  lemma {:induction false} NothingIsSent(env: Setting, m: Model, events: seq<Event>)
    requires !(env.driver.adaptsDicts && env.driver.byName)
    ensures Run(env, m, events).store.sends == m.store.sends
    decreases |events|
  {
    if events != [] {
      NothingIsSent(env, Apply(env, m, events[0]), events[1..]);
    }
  }

  // ---------- names that can be read two ways ----------

  /** Not claimed anew, and where it was in its sequence; it may have been closed, or its status changed. */
  ghost predicate Untouched(before: Enrollment, after: Enrollment) {
    && after.step == before.step && after.nextActionAt == before.nextActionAt
    && (after.token == before.token || after.token == None)
  }

  lemma ClaimIsRefused(env: Setting, s: Store, id: string, workerId: string, leaseSeconds: int, around: Surroundings,
                       token: string)
    requires !env.columnsWin
    ensures var (t, claim) := ClaimStep(env, s, id, workerId, leaseSeconds, around, token);
            && claim.None? && t.sends == s.sends && t.issued == s.issued && t.enrollments.Keys == s.enrollments.Keys
            && forall e :: e in s.enrollments ==> Untouched(s.enrollments[e], t.enrollments[e])
  {
  }

  /** Nothing has been claimed, and nothing is claimed, persisted or advanced from now on. */
  ghost predicate AtRest(m: Model, n: Model) {
    && n.executions == map[] && n.store.sends == m.store.sends && n.store.issued == m.store.issued
    && n.store.enrollments.Keys == m.store.enrollments.Keys
    && forall id :: id in m.store.enrollments ==> Untouched(m.store.enrollments[id], n.store.enrollments[id])
  }

  lemma RestStep(env: Setting, m: Model, ev: Event)
    requires !env.columnsWin && m.executions == map[]
    ensures AtRest(m, Apply(env, m, ev))
  {
    if ev.Start? {
      ClaimIsRefused(env, m.store, ev.enrollmentId, ev.workerId, ev.leaseSeconds, ev.around, ev.token);
    }
  }

  lemma RestChains(m: Model, n: Model, k: Model)
    requires AtRest(m, n) && AtRest(n, k)
    ensures AtRest(m, k)
  {
    forall id | id in m.store.enrollments ensures Untouched(m.store.enrollments[id], k.store.enrollments[id]) {
      assert Untouched(n.store.enrollments[id], k.store.enrollments[id]);
    }
  }

  /** Unless the names are read as columns no run grants a claim, and so none persists or advances anything. */
  lemma {:induction false} NothingIsClaimed(env: Setting, m: Model, events: seq<Event>)
    requires !env.columnsWin && m.executions == map[]
    ensures AtRest(m, Run(env, m, events))
    decreases |events|
  {
    if events != [] {
      var n := Apply(env, m, events[0]);
      RestStep(env, m, events[0]);
      NothingIsClaimed(env, n, events[1..]);
      RestChains(m, n, Run(env, n, events[1..]));
    }
  }

  // ---------- as shipped ----------

  /** All of this holds of procedure and connections as they are. From fresh tables no run ever claims, persists
      or advances anything; and even from tables in which claims stand nothing is persisted or advanced, and a
      claim stands until its lease runs out. */
  lemma AsShipped(plan: Plan, m: Model, events: seq<Event>, id: string)
    requires id in m.store.enrollments
    ensures m.executions == map[] ==> AtRest(m, Run(Shipped(plan), m, events))
    ensures var s := Run(Shipped(plan), m, events).store;
            && s.sends == m.store.sends && id in s.enrollments && s.enrollments[id].step == m.store.enrollments[id].step
            && (m.store.enrollments[id].leaseUntil.Some? && s.now < m.store.enrollments[id].leaseUntil.value ==>
                  s.enrollments[id].token == m.store.enrollments[id].token)
  {
    var env := Shipped(plan);
    if m.executions == map[] {
      NothingIsClaimed(env, m, events);
    }
    NothingAdvances(env, m, events, id);
    NothingIsSent(env, m, events);
    if m.store.enrollments[id].leaseUntil.Some?
         && Run(env, m, events).store.now < m.store.enrollments[id].leaseUntil.value {
      ClaimsOnlyRunOut(env, m, events, id);
    }
  }

  // ---------- what it takes to advance ----------

  /** A run from fresh tables that takes some enrollment past a step. */
  ghost predicate Advances(env: Setting, m: Model, events: seq<Event>, id: string) {
    var s := Run(env, m, events).store;
    Initial(m) && id in s.enrollments && s.enrollments[id].step > 0
  }

  lemma AdvancedMeansSent(env: Setting, s: Store, e: Enrollment)
    requires EnrollmentInv(env, s, e) && e.step > 0
    ensures s.sends != map[]
  {
    assert StepSent(env, s.sends, e, 1);
  }

  lemma {:induction false} RowsStay(env: Setting, m: Model, events: seq<Event>)
    ensures Run(env, m, events).store.enrollments.Keys == m.store.enrollments.Keys
    decreases |events|
  {
    if events != [] {
      StepGrows(env, m, events[0]);
      RowsStay(env, Apply(env, m, events[0]), events[1..]);
    }
  }

  /** The claim procedure grants claims, and the driver serves all calls. */
  predicate Operates(env: Setting) {
    env.columnsWin && Works(env.driver)
  }

  lemma AdvanceNeedsAll(env: Setting, m: Model, events: seq<Event>, id: string)
    requires Advances(env, m, events, id)
    ensures Operates(env)
  {
    EveryRunKeepsInv(env, m, events);
    RowsStay(env, m, events);
    if !env.columnsWin {
      NothingIsClaimed(env, m, events);
    } else if !env.driver.byPosition {
      NothingAdvances(env, m, events, id);
    } else if !Works(env.driver) {
      NothingIsSent(env, m, events);
      var s := Run(env, m, events).store;
      assert EnrollmentInv(env, s, s.enrollments[id]);
      AdvancedMeansSent(env, s, s.enrollments[id]);
    }
  }

  // ---------- one execution from end to end ----------

  const DEFAULT_LEASE := 300

  /** With nobody else at work; true when it reports success. */
  function ExecuteAlone(env: Setting, s: Store, id: string, workerId: string, around: Surroundings, token: string,
                        rendered: Option<Payload>, accepted: bool): (Store, bool)
  {
    var (s1, claim) := ClaimStep(env, s, id, workerId, DEFAULT_LEASE, around, token);
    if claim.None? || !env.driver.byName then (s1, false)
    else if rendered.None? then (ReleaseCall(env.driver, s1, id, token).0, false)
    else
      var c, p := claim.value, rendered.value;
      var (s2, send) := EnqueueCall(env.driver, s1, KeyOf(c), SendOf(c, p), accepted);
      if send.None? then (ReleaseCall(env.driver, s2, id, token).0, false)
      else
        var (s3, found) := CompleteCall(env.driver, s2, id, token, c.stepNo, p.scheduledAt + c.delayDays * DAY);
        if found == Some(true) then (s3, true) else (ReleaseCall(env.driver, s3, id, token).0, false)
  }

  function AloneEvents(id: string, workerId: string, around: Surroundings, token: string, rendered: Option<Payload>,
                       accepted: bool): seq<Event>
  {
    [Start(0, id, workerId, DEFAULT_LEASE, around, token), Build(0, rendered), Enqueue(0, accepted), Complete(0),
     Release(0)]
  }

  lemma AloneChain(env: Setting, s: Store, id: string, workerId: string, around: Surroundings, token: string,
                   rendered: Option<Payload>, accepted: bool)
    requires token !in s.issued
    ensures var m1 := Apply(env, Model(s, map[]), Start(0, id, workerId, DEFAULT_LEASE, around, token));
            var m3 := Apply(env, Apply(env, m1, Build(0, rendered)), Enqueue(0, accepted));
            ExecuteAlone(env, s, id, workerId, around, token, rendered, accepted).0
            == Apply(env, Apply(env, m3, Complete(0)), Release(0)).store
  {
  }

  lemma RunFirst(env: Setting, m: Model, ev: Event, rest: seq<Event>)
    ensures Run(env, m, [ev] + rest) == Run(env, Apply(env, m, ev), rest)
  {
    assert ([ev] + rest)[1..] == rest;
  }

  lemma RunOfFive(env: Setting, m: Model, a: Event, b: Event, c: Event, d: Event, e: Event)
    ensures Run(env, m, [a, b, c, d, e]) == Apply(env, Apply(env, Apply(env, Apply(env, Apply(env, m, a), b), c), d), e)
  {
    var m1 := Apply(env, m, a);
    var m2 := Apply(env, m1, b);
    var m3 := Apply(env, m2, c);
    var m4 := Apply(env, m3, d);
    assert [a, b, c, d, e] == [a] + [b, c, d, e] && [b, c, d, e] == [b] + [c, d, e];
    assert [c, d, e] == [c] + [d, e] && [d, e] == [d] + [e] && [e] == [e] + [];
    RunFirst(env, m, a, [b, c, d, e]);
    RunFirst(env, m1, b, [c, d, e]);
    RunFirst(env, m2, c, [d, e]);
    RunFirst(env, m3, d, [e]);
    RunFirst(env, m4, e, []);
  }

  /** An execution on its own is one of the runs of the step model. */
  lemma AloneIsARun(env: Setting, s: Store, id: string, workerId: string, around: Surroundings, token: string,
                    rendered: Option<Payload>, accepted: bool)
    requires token !in s.issued
    ensures ExecuteAlone(env, s, id, workerId, around, token, rendered, accepted).0
            == Run(env, Model(s, map[]), AloneEvents(id, workerId, around, token, rendered, accepted)).store
  {
    AloneChain(env, s, id, workerId, around, token, rendered, accepted);
    RunOfFive(env, Model(s, map[]), Start(0, id, workerId, DEFAULT_LEASE, around, token), Build(0, rendered),
              Enqueue(0, accepted),
              Complete(0), Release(0));
  }

  /** A send can be put on file: there is none under the key, or it is the very same. */
  predicate Agrees(sends: map<string, Send>, c: Claim, p: Payload) {
    KeyOf(c) !in sends || sends[KeyOf(c)] == SendOf(c, p)
  }

  /** How an execution ends whose claim is granted, whose step renders and is acceptable to the mail system. */
  ghost predicate AloneEnds(d: Driver, s: Store, id: string, c: Claim, p: Payload, t: Store, ok: bool)
    requires id in s.enrollments
  {
    var e := s.enrollments[id];
    && (ok <==> Works(d) && Agrees(s.sends, c, p))
    && t.sends == (if d.adaptsDicts && d.byName && Agrees(s.sends, c, p) then s.sends[KeyOf(c) := SendOf(c, p)]
                   else s.sends)
    && t.enrollments == s.enrollments[id :=
         if ok then e.(step := e.step + 1, nextActionAt := Some(p.scheduledAt + c.delayDays * 86400),
                       token := None, leaseUntil := None)
         else if d.byName && d.byPosition then e.(token := None, leaseUntil := None)
         else e.(token := Some(c.token), leaseUntil := Some(s.now + 300))]
  }

  /** It succeeds exactly when the driver works and no other send of the step is on file. Then the step is
      advanced and there is one send of it. Otherwise the step stays, and the claim is given back if the
      driver can do that, or left to run out. */
  lemma AloneSucceedsIff(env: Setting, s: Store, id: string, workerId: string, around: Surroundings, token: string,
                         p: Payload)
    requires ClaimStep(env, s, id, workerId, DEFAULT_LEASE, around, token).1.Some?
    ensures id in s.enrollments
    ensures var c := ClaimStep(env, s, id, workerId, DEFAULT_LEASE, around, token).1.value;
            var (t, ok) := ExecuteAlone(env, s, id, workerId, around, token, Some(p), true);
            AloneEnds(env.driver, s, id, c, p, t, ok)
  {
  }

  /** What an execution does in any case: it advances its own enrollment by one step, with a send on file, and
      only through a working driver; or it leaves every step where it was. */
  ghost predicate AloneDoes(d: Driver, s: Store, id: string, t: Store, ok: bool) {
    && t.enrollments.Keys == s.enrollments.Keys
    && (forall k :: k in s.sends ==> k in t.sends && t.sends[k] == s.sends[k])
    && (forall other :: other in s.enrollments && other != id ==> t.enrollments[other] == s.enrollments[other])
    && (ok ==> Works(d) && id in s.enrollments && t.enrollments[id].step == s.enrollments[id].step + 1
               && exists k :: k in t.sends && t.sends[k].campaignId == t.enrollments[id].campaignId
                              && t.sends[k].personId == t.enrollments[id].personId)
    && (!ok && id in s.enrollments ==> t.enrollments[id].step == s.enrollments[id].step)
  }

  lemma AloneEffects(env: Setting, s: Store, id: string, workerId: string, around: Surroundings, token: string,
                     rendered: Option<Payload>, accepted: bool)
    ensures var (t, ok) := ExecuteAlone(env, s, id, workerId, around, token, rendered, accepted);
            AloneDoes(env.driver, s, id, t, ok)
  {
    var (s1, claim) := ClaimStep(env, s, id, workerId, DEFAULT_LEASE, around, token);
    var (t, ok) := ExecuteAlone(env, s, id, workerId, around, token, rendered, accepted);
    if ok {
      assert KeyOf(claim.value) in t.sends;
    }
  }

  /** Fresh tables with one enrollment in the sequence of a step row. */
  function OneEnrollment(row: StepRow): Model {
    Model(Store(map["e" := Enrollment("c", "p", row.sequence, 1, Active, 0, None, None, None)], map[], {}, 0), map[])
  }

  lemma OperatingAdvances(env: Setting, stepId: string)
    requires Operates(env) && stepId in env.plan && env.plan[stepId].no == 1
    ensures exists events :: Advances(env, OneEnrollment(env.plan[stepId]), events, "e")
  {
    var m := OneEnrollment(env.plan[stepId]);
    var around := Surroundings(Some(stepId), true, true, "a");
    var p := Payload("m", 0, "s", "b");
    AloneSucceedsIff(env, m.store, "e", "w", around, "t", p);
    AloneIsARun(env, m.store, "e", "w", around, "t", Some(p), true);
    assert Advances(env, m, AloneEvents("e", "w", around, "t", Some(p), true), "e");
  }

  /** Some run takes some enrollment past a step if and only if the names in the claim procedure are read as
      columns, the rows answer to positions and names alike, and dicts can be passed. */
  lemma SomethingAdvancesIff(env: Setting, stepId: string)
    requires stepId in env.plan && env.plan[stepId].no == 1
    ensures (exists m, events, id :: Advances(env, m, events, id)) <==> env.columnsWin && Works(env.driver)
  {
    if m, events, id :| Advances(env, m, events, id) {
      AdvanceNeedsAll(env, m, events, id);
    }
    if Operates(env) {
      OperatingAdvances(env, stepId);
    }
  }
}
