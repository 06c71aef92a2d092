/** When the steps of a campaign are handed out: not before their date, and not while another worker has them.

    What a claim does is set against the enrollment before and after it, with every condition written out; from that
    follow the dates over whole runs. */
module CampaignDates {
  import opened Wrappers
  import opened Text
  import opened CampaignSteps

  /** Nothing holds the enrollment back: it is neither ended nor paused, its date has come and no lease runs. */
  ghost predicate Due(e: Enrollment, now: int) {
    && (e.status == Pending || e.status == Active)
    && (e.nextActionAt == None || e.nextActionAt.value <= now)
    && (e.leaseUntil == None || e.leaseUntil.value <= now)
  }

  /** The request is well formed and about a due enrollment whose sequence is in use. */
  ghost predicate Admitted(s: Store, id: string, workerId: string, leaseSeconds: int, around: Surroundings) {
    && (exists i :: 0 <= i < |workerId| && !IsSpace(workerId[i]))
    && 30 <= leaseSeconds <= 3600 && around.sequenceInUse
    && id in s.enrollments && Due(s.enrollments[id], s.now)
  }

  /** There is a next step that can be prepared: its row follows on the steps done, names its message and its call to
      action, and the person has an address. */
  ghost predicate Prepared(plan: Plan, e: Enrollment, around: Surroundings) {
    && around.stepId.Some? && around.stepId.value in plan
    && plan[around.stepId.value].sequence == e.sequence && plan[around.stepId.value].no == e.step + 1
    && around.versionsNamed && exists i :: 0 <= i < |around.email| && around.email[i] != ' '
  }

  /** Only the enrollment changes, and in it neither the step nor its date. */
  ghost predicate OnlyMarked(s: Store, t: Store, id: string) {
    && id in s.enrollments && t.enrollments.Keys == s.enrollments.Keys && t.sends == s.sends && t.now == s.now
    && (forall other :: other in s.enrollments && other != id ==> t.enrollments[other] == s.enrollments[other])
    && t.enrollments[id].step == s.enrollments[id].step
    && t.enrollments[id].nextActionAt == s.enrollments[id].nextActionAt
    && t.enrollments[id].campaignId == s.enrollments[id].campaignId
    && t.enrollments[id].personId == s.enrollments[id].personId
    && t.enrollments[id].sequence == s.enrollments[id].sequence
    && t.enrollments[id].maxSteps == s.enrollments[id].maxSteps
  }

  lemma {:induction false} OnlySpacesIff(s: string)
    ensures OnlySpaces(s) <==> forall i :: 0 <= i < |s| ==> s[i] == ' '
  {
    if s != "" {
      OnlySpacesIff(s[1..]);
      assert forall i :: 0 < i < |s| ==> s[i] == s[1..][i - 1];
    }
  }

  /** A claim is granted exactly when the request is admitted, steps are left, the names of the lookup are read as
      columns, and the next step is prepared. It then marks the enrollment as the worker's for the time asked for. */
  lemma ClaimGrantedIff(env: Setting, s: Store, id: string, workerId: string, leaseSeconds: int, around: Surroundings,
                        token: string, t: Store, claim: Option<Claim>)
    requires (t, claim) == ClaimStep(env, s, id, workerId, leaseSeconds, around, token)
    ensures claim.Some? <==> Admitted(s, id, workerId, leaseSeconds, around) && env.columnsWin
                             && s.enrollments[id].step < s.enrollments[id].maxSteps
                             && Prepared(env.plan, s.enrollments[id], around)
    ensures claim.Some? ==>
              && OnlyMarked(s, t, id) && t.issued == s.issued + {token}
              && t.enrollments[id].token == Some(token) && t.enrollments[id].leaseUntil == Some(s.now + leaseSeconds)
              && t.enrollments[id].status == s.enrollments[id].status
    ensures claim.Some? ==>
              && claim.value.token == token && claim.value.stepId == around.stepId.value
              && claim.value.stepNo == s.enrollments[id].step + 1 && claim.value.recipient == around.email
              && claim.value.delayDays == env.plan[claim.value.stepId].delayDays
              && claim.value.campaignId == s.enrollments[id].campaignId
              && claim.value.personId == s.enrollments[id].personId
  {
    BlankIff(workerId);
    OnlySpacesIff(around.email);
  }

  /** Without a claim the tables change only by closing a due enrollment that has no steps left. */
  lemma ClosedIffDone(env: Setting, s: Store, id: string, workerId: string, leaseSeconds: int, around: Surroundings,
                      token: string, t: Store)
    requires (t, None) == ClaimStep(env, s, id, workerId, leaseSeconds, around, token)
    ensures var done := Admitted(s, id, workerId, leaseSeconds, around)
                        && s.enrollments[id].step >= s.enrollments[id].maxSteps;
            && (!done ==> t == s)
            && (done ==> OnlyMarked(s, t, id) && t.issued == s.issued && t.enrollments[id].status == Completed
                         && t.enrollments[id].token == None && t.enrollments[id].leaseUntil == None)
  {
    BlankIff(workerId);
    OnlySpacesIff(around.email);
  }

  /** A send that is persisted is of the step claimed, to the person's address, and says what was rendered. */
  lemma SentAsClaimed(env: Setting, m: Model, x: nat, accepted: bool, n: Model)
    requires n == Apply(env, m, Enqueue(x, accepted)) && x in m.executions && m.executions[x].phase.Requested?
    requires x in n.executions && n.executions[x].phase.Persisted?
    ensures var claim, payload := m.executions[x].claim, m.executions[x].phase.payload;
            var key := "campaign-send:" + claim.campaignId + ":" + claim.personId + ":" + claim.stepId;
            && n.executions[x] == m.executions[x].(phase := Persisted(payload))
            && key in n.store.sends
            && n.store.sends[key].campaignId == claim.campaignId && n.store.sends[key].personId == claim.personId
            && n.store.sends[key].stepId == claim.stepId && n.store.sends[key].recipient == claim.recipient
            && n.store.sends[key].mailboxId == payload.mailboxId && n.store.sends[key].subject == payload.subject
            && n.store.sends[key].scheduledAt == payload.scheduledAt && n.store.sends[key].body == payload.body
  {
  }

  /** What the mail system does not accept is not put on file. */
  lemma RefusedIsNotSent(env: Setting, m: Model, x: nat, n: Model)
    requires n == Apply(env, m, Enqueue(x, false)) && x in m.executions && m.executions[x].phase.Requested?
    ensures n.store == m.store && n.executions == m.executions[x := m.executions[x].(phase := Failing)]
  {
  }

  // ---------- over whole runs ----------

  /** A new execution is about an enrollment whose date had come, and its claim is the next step. */
  lemma StartedWhenDue(env: Setting, m: Model, ev: Event, x: nat)
    requires x !in m.executions && x in Apply(env, m, ev).executions
    ensures var started := Apply(env, m, ev).executions[x];
            && started.enrollmentId in m.store.enrollments
            && Due(m.store.enrollments[started.enrollmentId], m.store.now)
            && started.claim.stepNo == m.store.enrollments[started.enrollmentId].step + 1
            && started.claim.stepNo <= m.store.enrollments[started.enrollmentId].maxSteps
  {
    assert ev.Start? && ev.execution == x;
    var (t, claim) := ClaimStep(env, m.store, ev.enrollmentId, ev.workerId, ev.leaseSeconds, ev.around, ev.token);
    ClaimGrantedIff(env, m.store, ev.enrollmentId, ev.workerId, ev.leaseSeconds, ev.around, ev.token, t, claim);
  }

  /** Nobody but the campaign's owner ends an enrollment before its date, or with steps left. */
  lemma EndedWhenDue(env: Setting, m: Model, ev: Event, id: string)
    requires id in m.store.enrollments && !ev.SetStatus?
    requires id in Apply(env, m, ev).store.enrollments
    requires Apply(env, m, ev).store.enrollments[id].status != m.store.enrollments[id].status
    ensures Apply(env, m, ev).store.enrollments[id].status == Completed
    ensures Due(m.store.enrollments[id], m.store.now)
    ensures m.store.enrollments[id].step >= m.store.enrollments[id].maxSteps
  {
  }

  /** Only the owner pauses, resumes or ends an enrollment otherwise, and does nothing else by it. */
  lemma OwnerSetsStatus(env: Setting, m: Model, id: string, status: Status, n: Model)
    requires id in m.store.enrollments && n == Apply(env, m, SetStatus(id, status))
    ensures n.executions == m.executions && n.store.sends == m.store.sends && n.store.now == m.store.now
    ensures n.store.issued == m.store.issued && n.store.enrollments.Keys == m.store.enrollments.Keys
    ensures forall other :: other in m.store.enrollments && other != id ==>
              n.store.enrollments[other] == m.store.enrollments[other]
    ensures n.store.enrollments[id].status == status
    ensures n.store.enrollments[id].(status := m.store.enrollments[id].status) == m.store.enrollments[id]
  {
  }

  /** While it is paused or ended nothing else touches it: it is not claimed, completed or released. */
  lemma PausedIsLeftAlone(env: Setting, m: Model, ev: Event, id: string)
    requires id in m.store.enrollments && !(ev.SetStatus? && ev.enrollmentId == id)
    requires m.store.enrollments[id].status != Pending && m.store.enrollments[id].status != Active
    ensures id in Apply(env, m, ev).store.enrollments
    ensures Apply(env, m, ev).store.enrollments[id] == m.store.enrollments[id]
    ensures forall x :: x in Apply(env, m, ev).executions && x !in m.executions ==>
              Apply(env, m, ev).executions[x].enrollmentId != id
  {
  }

  /** A completion moves the date to so many days of 86400 seconds after the time its send was scheduled for. */
  lemma CompletionSetsDate(env: Setting, m: Model, ev: Event, id: string)
    requires id in m.store.enrollments && id in Apply(env, m, ev).store.enrollments
    requires Apply(env, m, ev).store.enrollments[id].step != m.store.enrollments[id].step
    ensures ev.Complete? && ev.execution in m.executions && m.executions[ev.execution].phase.Persisted?
    ensures var x := m.executions[ev.execution];
            Apply(env, m, ev).store.enrollments[id].nextActionAt
            == Some(x.phase.payload.scheduledAt + x.claim.delayDays * 86400)
    ensures Apply(env, m, ev).store.enrollments[id].token.None?
    ensures Apply(env, m, ev).store.enrollments[id].leaseUntil.None?
    ensures Apply(env, m, ev).store.enrollments[id].step == m.store.enrollments[id].step + 1
  {
  }

  lemma DateStays(env: Setting, m: Model, ev: Event, id: string)
    requires id in m.store.enrollments
    ensures id in Apply(env, m, ev).store.enrollments && m.store.now <= Apply(env, m, ev).store.now
    ensures var e, f := m.store.enrollments[id], Apply(env, m, ev).store.enrollments[id];
            f.step > e.step || (f.step == e.step && f.nextActionAt == e.nextActionAt)
  {
  }

  lemma {:induction false} DateStaysOver(env: Setting, m: Model, events: seq<Event>, id: string)
    requires id in m.store.enrollments
    ensures id in Run(env, m, events).store.enrollments && m.store.now <= Run(env, m, events).store.now
    ensures var e, f := m.store.enrollments[id], Run(env, m, events).store.enrollments[id];
            f.step > e.step || (f.step == e.step && f.nextActionAt == e.nextActionAt)
    decreases |events|
  {
    if events != [] {
      DateStays(env, m, events[0], id);
      DateStaysOver(env, Apply(env, m, events[0]), events[1..], id);
    }
  }

  /** No step is claimed before its date. Let execution `x` complete a step, let anything happen, and let an event
      start an execution on the following step: by then the days the completed step asks for have passed since the
      time its send was scheduled for. */
  lemma NextStepWaits(env: Setting, m: Model, x: nat, events: seq<Event>, ev: Event, y: nat, n: Model)
    requires x in m.executions && m.executions[x].phase.Persisted?
    requires m.executions[x].enrollmentId in m.store.enrollments
    requires var id := m.executions[x].enrollmentId;
             var after := Apply(env, m, Complete(x)).store;
             id in after.enrollments && after.enrollments[id].step != m.store.enrollments[id].step
    requires n == Run(env, Apply(env, m, Complete(x)), events)
    requires y !in n.executions && y in Apply(env, n, ev).executions
    requires Apply(env, n, ev).executions[y].enrollmentId == m.executions[x].enrollmentId
    requires Apply(env, n, ev).executions[y].claim.stepNo == m.executions[x].claim.stepNo + 1
    ensures n.store.now >= m.executions[x].phase.payload.scheduledAt + m.executions[x].claim.delayDays * 86400
  {
    var id, after := m.executions[x].enrollmentId, Apply(env, m, Complete(x));
    CompletionSetsDate(env, m, Complete(x), id);
    DateStaysOver(env, after, events, id);
    StartedWhenDue(env, n, ev, y);
  }
}
