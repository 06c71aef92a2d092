/** Handing the steps of a campaign to the mail system: claim, render, persist the send, advance.

    The stored procedures are functions on the tables; any number of executions of the orchestrator take
    their database calls one at a time, in any order, and may stop anywhere. */
module CampaignSteps {
  import opened Wrappers
  import opened Text

  // ---------- the idempotency key ----------

  function Key(campaignId: string, personId: string, stepId: string): string {
    "campaign-send:" + campaignId + ":" + personId + ":" + stepId
  }

  ghost predicate NoColon(s: string) {
    ':' !in s
  }

  /** Keys are unambiguous when campaign and step ids contain no colon; person ids may contain any. */
  lemma KeyIsInjective(c: string, p: string, s: string, d: string, q: string, r: string)
    requires NoColon(c) && NoColon(s) && NoColon(d) && NoColon(r) && Key(c, p, s) == Key(d, q, r)
    ensures c == d && p == q && s == r
  {
    var tag := "campaign-send:";
    var whole, other := c + ":" + (p + ":" + s), d + ":" + (q + ":" + r);
    assert Key(c, p, s) == tag + whole && Key(d, q, r) == tag + other;
    assert (tag + whole)[|tag|..] == whole && (tag + other)[|tag|..] == other;
    ThreeParts(c, p, s, d, q, r, ':');
  }

  // ---------- the tables ----------

  datatype Status = Pending | Active | Paused | Replied | Completed | Suppressed | Bounced | Cancelled

  predicate Live(status: Status) {
    status in {Pending, Active}
  }

  datatype Enrollment = Enrollment(campaignId: string, personId: string, sequence: string, maxSteps: nat,
                                   status: Status,
                                   step: nat, nextActionAt: Option<int>, token: Option<string>, leaseUntil: Option<int>)

  /** A row of sequence_steps. */
  datatype StepRow = StepRow(sequence: string, no: nat, delayDays: nat)

  type Plan = map<string, StepRow>

  /** What the driver makes of rows and parameters: whether a row answers to positions, whether it answers to
      column names, and whether a parameter may be a dict. */
  datatype Driver = Driver(byPosition: bool, byName: bool, adaptsDicts: bool)

  /** The connections are opened with rows keyed by name alone, and nothing registers a way to pass dicts. */
  const SHIPPED := Driver(false, true, false)

  /** What the protocol runs on. Two names in the claim procedure's lookup of the next step are columns of the
      table and variables of the procedure alike: `columnsWin` says that they are read as columns. */
  datatype Setting = Setting(plan: Plan, columnsWin: bool, driver: Driver)

  /** As it comes: the database rejects a name that can be either, and rows are keyed by name. */
  function Shipped(plan: Plan): Setting {
    Setting(plan, false, SHIPPED)
  }

  datatype Send = Send(campaignId: string, personId: string, stepId: string, mailboxId: string, scheduledAt: int,
                       recipient: string, subject: string, body: string)

  /** `issued` are the claim tokens generated so far. */
  datatype Store = Store(enrollments: map<string, Enrollment>, sends: map<string, Send>, issued: set<string>, now: int)

  datatype Claim = Claim(token: string, campaignId: string, personId: string, stepId: string, stepNo: nat,
                         delayDays: nat,
                         recipient: string)

  /** What a claim finds in tables this model does not change: the active row chosen for the next step, if
      there is one, whether it names its message and call to action, whether the sequence is in use, and the
      person's address. */
  datatype Surroundings = Surroundings(stepId: Option<string>, versionsNamed: bool, sequenceInUse: bool, email: string)

  const DAY := 86400

  // ---------- the stored procedures ----------

  predicate Claimable(e: Enrollment, now: int) {
    && Live(e.status)
    && (e.nextActionAt.Some? ==> e.nextActionAt.value <= now)
    && (e.leaseUntil.Some? ==> e.leaseUntil.value <= now)
  }

  /** Trimming in the database takes spaces off, and no other white space. */
  predicate OnlySpaces(s: string) {
    s == "" || (s[0] == ' ' && OnlySpaces(s[1..]))
  }

  predicate NextRow(env: Setting, e: Enrollment, stepId: string) {
    stepId in env.plan && env.plan[stepId].sequence == e.sequence && env.plan[stepId].no == e.step + 1
  }

  /** claim_campaign_step. No claim stands for no row and for an exception alike; the lookup of the next step is
      an exception unless its names are read as columns. */
  function ClaimStep(env: Setting, s: Store, id: string, workerId: string, leaseSeconds: int, around: Surroundings,
                     token: string)
    : (Store, Option<Claim>)
  {
    if Blank(workerId) || leaseSeconds < 30 || leaseSeconds > 3600 then (s, None)
    else if id !in s.enrollments || !Claimable(s.enrollments[id], s.now) || !around.sequenceInUse then (s, None)
    else
      var e := s.enrollments[id];
      if e.step >= e.maxSteps then
        (s.(enrollments := s.enrollments[id := e.(status := Completed, token := None, leaseUntil := None)]), None)
      else if !env.columnsWin then (s, None)
      else
        match around.stepId
        case None => (s, None)
        case Some(stepId) =>
          if !NextRow(env, e, stepId) || !around.versionsNamed || OnlySpaces(around.email) then (s, None)
          else
            (s.(enrollments := s.enrollments[id := e.(token := Some(token), leaseUntil := Some(s.now + leaseSeconds))],
                issued := s.issued + {token}),
             Some(Claim(token, e.campaignId, e.personId, stepId, e.step + 1, env.plan[stepId].delayDays, around.email)))
  }

  predicate Holds(s: Store, id: string, token: string) {
    id in s.enrollments && s.enrollments[id].token == Some(token) && Live(s.enrollments[id].status)
  }

  /** release_campaign_step_claim. */
  function ReleaseStep(s: Store, id: string, token: string): (Store, bool) {
    if !Holds(s, id, token) then (s, false)
    else (s.(enrollments := s.enrollments[id := s.enrollments[id].(token := None, leaseUntil := None)]), true)
  }

  /** complete_campaign_step_claim. */
  function CompleteStep(s: Store, id: string, token: string, stepNo: nat, nextActionAt: int): (Store, bool) {
    if !Holds(s, id, token) || stepNo != s.enrollments[id].step + 1 then (s, false)
    else
      (s.(enrollments := s.enrollments[id := s.enrollments[id].(step := stepNo, nextActionAt := Some(nextActionAt),
                                                               token := None, leaseUntil := None)]), true)
  }

  /** enqueue_campaign_send. `accepted` are the checks on mailbox, recipient, suppression and replies. */
  function EnqueueSend(s: Store, key: string, send: Send, accepted: bool): (Store, Option<Send>) {
    if !accepted then (s, None)
    else if key in s.sends then (s, if s.sends[key] == send then Some(s.sends[key]) else None)
    else (s.(sends := s.sends[key := send]), Some(send))
  }

  // ---------- the database class: a procedure, then reading its row ----------

  /** Positions to read the answers of releasing and completing, names to read a claim and a send, and dicts
      to pass a send's headers and metadata. */
  predicate Works(d: Driver) {
    d.byPosition && d.byName && d.adaptsDicts
  }

  /** The answer is read by position while the transaction is open; None is the exception that rolls it back. */
  function ReleaseCall(d: Driver, s: Store, id: string, token: string): (Store, Option<bool>) {
    if !d.byPosition then (s, None)
    else
      var (t, found) := ReleaseStep(s, id, token);
      (t, Some(found))
  }

  function CompleteCall(d: Driver, s: Store, id: string, token: string, stepNo: nat,
                        nextActionAt: int): (Store, Option<bool>)
  {
    if !d.byPosition then (s, None)
    else
      var (t, found) := CompleteStep(s, id, token, stepNo, nextActionAt);
      (t, Some(found))
  }

  /** Dicts are passed, and the row is turned into a dict, inside the transaction. */
  function EnqueueCall(d: Driver, s: Store, key: string, send: Send, accepted: bool): (Store, Option<Send>) {
    if !d.adaptsDicts then (s, None)
    else
      var (t, row) := EnqueueSend(s, key, send, accepted);
      if row.None? || !d.byName then (s, None) else (t, row)
  }

  // ---------- executions of the orchestrator ----------

  /** What the caller and the renderer put into a request. */
  datatype Payload = Payload(mailboxId: string, scheduledAt: int, subject: string, body: string)

  datatype Phase = Claimed | Requested(payload: Payload) | Persisted(payload: Payload) | Failing | Ended(ok: bool)

  datatype Execution = Execution(enrollmentId: string, claim: Claim, phase: Phase)

  function SendOf(c: Claim, p: Payload): Send {
    Send(c.campaignId, c.personId, c.stepId, p.mailboxId, p.scheduledAt, c.recipient, p.subject, p.body)
  }

  function KeyOf(c: Claim): string {
    Key(c.campaignId, c.personId, c.stepId)
  }

  datatype Model = Model(store: Store, executions: map<nat, Execution>)

  datatype Event =
    | Start(execution: nat, enrollmentId: string, workerId: string, leaseSeconds: int, around: Surroundings,
            token: string)
    | Build(execution: nat, rendered: Option<Payload>)
    | Enqueue(execution: nat, accepted: bool)
    | Complete(execution: nat)
    | Release(execution: nat)
    | Pass(time: nat)
    | SetStatus(enrollmentId: string, status: Status)

  function MoveOn(m: Model, x: nat, s: Store, phase: Phase): Model
    requires x in m.executions
  {
    Model(s, m.executions[x := m.executions[x].(phase := phase)])
  }

  /** One database call, or one step between two. A claim is committed before its row is read, so without names
      to read it by the claim stands and the execution ends. An event that cannot happen changes nothing. */
  function Apply(env: Setting, m: Model, ev: Event): Model {
    match ev
    case Start(x, id, workerId, leaseSeconds, around, token) =>
      if x in m.executions || token in m.store.issued then m
      else
        var (s, claim) := ClaimStep(env, m.store, id, workerId, leaseSeconds, around, token);
        if claim.None? then m.(store := s)
        else
          Model(s, m.executions[x := Execution(id, claim.value, if env.driver.byName then Claimed else Ended(false))])
    case Build(x, rendered) =>
      if x !in m.executions || m.executions[x].phase != Claimed then m
      else MoveOn(m, x, m.store, if rendered.Some? then Requested(rendered.value) else Failing)
    case Enqueue(x, accepted) =>
      if x !in m.executions || !m.executions[x].phase.Requested? then m
      else
        var c, p := m.executions[x].claim, m.executions[x].phase.payload;
        var (s, send) := EnqueueCall(env.driver, m.store, KeyOf(c), SendOf(c, p), accepted);
        MoveOn(m, x, s, if send.Some? then Persisted(p) else Failing)
    case Complete(x) =>
      if x !in m.executions || !m.executions[x].phase.Persisted? then m
      else
        var c, p := m.executions[x].claim, m.executions[x].phase.payload;
        var (s, found) := CompleteCall(env.driver, m.store, m.executions[x].enrollmentId, c.token, c.stepNo,
                                       p.scheduledAt + c.delayDays * DAY);
        MoveOn(m, x, s, if found == Some(true) then Ended(true) else Failing)
    case Release(x) =>
      if x !in m.executions || m.executions[x].phase != Failing then m
      else
        MoveOn(m, x, ReleaseCall(env.driver, m.store, m.executions[x].enrollmentId, m.executions[x].claim.token).0,
               Ended(false))
    case Pass(time) => m.(store := m.store.(now := m.store.now + time))
    case SetStatus(id, status) =>
      if id !in m.store.enrollments then m
      else m.(store := m.store.(enrollments := m.store.enrollments[id := m.store.enrollments[id].(status := status)]))
  }

  function Run(env: Setting, m: Model, events: seq<Event>): Model
    decreases |events|
  {
    if events == [] then m else Run(env, Apply(env, m, events[0]), events[1..])
  }

  // ---------- what every run keeps ----------

  /** Sends are filed under the key of their own campaign, person and step. */
  ghost predicate Filed(sends: map<string, Send>) {
    forall k :: k in sends ==> k == Key(sends[k].campaignId, sends[k].personId, sends[k].stepId)
  }

  /** The send on file under the key of a campaign, person and step is of that campaign, person and step. */
  ghost predicate OnFile(sends: map<string, Send>, campaignId: string, personId: string, stepId: string) {
    var key := Key(campaignId, personId, stepId);
    key in sends && sends[key].campaignId == campaignId && sends[key].personId == personId
      && sends[key].stepId == stepId
  }

  /** A send of step number `n` of the enrollment's sequence is on file. */
  ghost predicate StepSent(env: Setting, sends: map<string, Send>, e: Enrollment, n: nat) {
    exists stepId :: stepId in env.plan && env.plan[stepId].sequence == e.sequence && env.plan[stepId].no == n
                     && OnFile(sends, e.campaignId, e.personId, stepId)
  }

  ghost predicate EnrollmentInv(env: Setting, s: Store, e: Enrollment) {
    && (forall n: nat :: 1 <= n <= e.step ==> StepSent(env, s.sends, e, n))
    && (e.token.Some? ==> e.token.value in s.issued)
  }

  ghost predicate ExecutionInv(env: Setting, s: Store, x: Execution) {
    && x.enrollmentId in s.enrollments
    && x.claim.token in s.issued
    && x.claim.campaignId == s.enrollments[x.enrollmentId].campaignId
    && x.claim.personId == s.enrollments[x.enrollmentId].personId
    && x.claim.stepId in env.plan && env.plan[x.claim.stepId].sequence == s.enrollments[x.enrollmentId].sequence
    && env.plan[x.claim.stepId].no == x.claim.stepNo
    && (s.enrollments[x.enrollmentId].token == Some(x.claim.token) ==>
          x.claim.stepNo == s.enrollments[x.enrollmentId].step + 1)
    && (x.phase.Persisted? ==> OnFile(s.sends, x.claim.campaignId, x.claim.personId, x.claim.stepId))
  }

  ghost predicate Inv(env: Setting, m: Model) {
    && Filed(m.store.sends)
    && (forall id :: id in m.store.enrollments ==> EnrollmentInv(env, m.store, m.store.enrollments[id]))
    && (forall x :: x in m.executions ==> ExecutionInv(env, m.store, m.executions[x]))
  }

  /** Nothing has been claimed or sent yet. */
  ghost predicate Initial(m: Model) {
    && m.executions == map[] && m.store.sends == map[]
    && forall id :: id in m.store.enrollments ==>
         m.store.enrollments[id].step == 0 && m.store.enrollments[id].token == None
  }

  /** What a call may do to the tables without breaking anyone's invariant. */
  ghost predicate Grows(s: Store, t: Store) {
    && t.enrollments.Keys == s.enrollments.Keys && s.issued <= t.issued
    && (forall k :: k in s.sends ==> k in t.sends && t.sends[k] == s.sends[k])
    && (forall id :: id in s.enrollments ==>
          && t.enrollments[id].campaignId == s.enrollments[id].campaignId
          && t.enrollments[id].personId == s.enrollments[id].personId
          && t.enrollments[id].sequence == s.enrollments[id].sequence)
  }

  lemma EnrollmentFramed(env: Setting, s: Store, t: Store, e: Enrollment)
    requires EnrollmentInv(env, s, e) && Grows(s, t)
    ensures EnrollmentInv(env, t, e)
  {
    forall n: nat | 1 <= n <= e.step ensures StepSent(env, t.sends, e, n) {
      assert StepSent(env, s.sends, e, n);
    }
  }

  /** An execution's invariant survives a call that does not hand its own token out with another step. */
  lemma ExecutionFramed(env: Setting, s: Store, t: Store, x: Execution)
    requires ExecutionInv(env, s, x) && Grows(s, t)
    requires t.enrollments[x.enrollmentId].token == Some(x.claim.token)
             ==> s.enrollments[x.enrollmentId].token == Some(x.claim.token)
                 && t.enrollments[x.enrollmentId].step == s.enrollments[x.enrollmentId].step
    ensures ExecutionInv(env, t, x)
  {
  }

  /** Enough for a call on one enrollment to keep the invariant of every other row and execution. */
  ghost predicate Handles(s: Store, t: Store, id: string) {
    && Grows(s, t)
    && (forall other :: other in s.enrollments && other != id ==> t.enrollments[other] == s.enrollments[other])
    && (id in s.enrollments ==>
          t.enrollments[id].token.None? || t.enrollments[id].token.value !in s.issued
          || (t.enrollments[id].token == s.enrollments[id].token && t.enrollments[id].step == s.enrollments[id].step))
  }

  lemma OthersKept(env: Setting, m: Model, t: Store, id: string)
    requires Inv(env, m) && Handles(m.store, t, id)
    ensures forall other :: other in m.store.enrollments && other != id ==> EnrollmentInv(env, t, t.enrollments[other])
    ensures forall x :: x in m.executions ==> ExecutionInv(env, t, m.executions[x])
  {
    forall other | other in m.store.enrollments && other != id ensures EnrollmentInv(env, t, t.enrollments[other]) {
      EnrollmentFramed(env, m.store, t, m.store.enrollments[other]);
    }
    forall x | x in m.executions ensures ExecutionInv(env, t, m.executions[x]) {
      assert m.executions[x].claim.token in m.store.issued;
      ExecutionFramed(env, m.store, t, m.executions[x]);
    }
  }

  lemma ClaimGrows(env: Setting, s: Store, id: string, workerId: string, leaseSeconds: int, around: Surroundings,
                   token: string)
    ensures Grows(s, ClaimStep(env, s, id, workerId, leaseSeconds, around, token).0)
  {
  }

  lemma ReleaseGrows(d: Driver, s: Store, id: string, token: string)
    ensures Grows(s, ReleaseCall(d, s, id, token).0)
  {
  }

  lemma CompleteGrows(d: Driver, s: Store, id: string, token: string, stepNo: nat, at: int)
    ensures Grows(s, CompleteCall(d, s, id, token, stepNo, at).0)
  {
  }

  lemma EnqueueGrows(d: Driver, s: Store, key: string, send: Send, accepted: bool)
    ensures Grows(s, EnqueueCall(d, s, key, send, accepted).0)
  {
  }

  lemma StepGrows(env: Setting, m: Model, ev: Event)
    ensures Grows(m.store, Apply(env, m, ev).store)
  {
    match ev
    case Start(_, id, workerId, leaseSeconds, around, token) =>
      ClaimGrows(env, m.store, id, workerId, leaseSeconds, around, token);
    case Build(_, _) =>
    case Enqueue(x, accepted) =>
      if x in m.executions && m.executions[x].phase.Requested? {
        var c := m.executions[x].claim;
        EnqueueGrows(env.driver, m.store, KeyOf(c), SendOf(c, m.executions[x].phase.payload), accepted);
      }
    case Complete(x) =>
      if x in m.executions && m.executions[x].phase.Persisted? {
        var c := m.executions[x].claim;
        CompleteGrows(env.driver, m.store, m.executions[x].enrollmentId, c.token, c.stepNo,
                      m.executions[x].phase.payload.scheduledAt + c.delayDays * DAY);
      }
    case Release(x) =>
      if x in m.executions {
        ReleaseGrows(env.driver, m.store, m.executions[x].enrollmentId, m.executions[x].claim.token);
      }
    case Pass(_) =>
    case SetStatus(_, _) =>
  }

  /** An execution moves on after a call on its own enrollment. */
  lemma MoveOnKeeps(env: Setting, m: Model, x: nat, t: Store, phase: Phase)
    requires Inv(env, m) && x in m.executions && Handles(m.store, t, m.executions[x].enrollmentId) && Filed(t.sends)
    requires ExecutionInv(env, m.store, m.executions[x])
    requires EnrollmentInv(env, t, t.enrollments[m.executions[x].enrollmentId])
    requires phase.Persisted? ==> OnFile(t.sends, m.executions[x].claim.campaignId, m.executions[x].claim.personId,
                                         m.executions[x].claim.stepId)
    ensures Inv(env, MoveOn(m, x, t, phase))
  {
    OthersKept(env, m, t, m.executions[x].enrollmentId);
  }

  lemma ClaimHandles(env: Setting, s: Store, id: string, workerId: string, leaseSeconds: int, around: Surroundings,
                     token: string)
    requires token !in s.issued
    ensures Handles(s, ClaimStep(env, s, id, workerId, leaseSeconds, around, token).0, id)
    ensures ClaimStep(env, s, id, workerId, leaseSeconds, around, token).0.sends == s.sends
  {
  }

  lemma StartKeeps(env: Setting, m: Model, x: nat, id: string, workerId: string, leaseSeconds: int,
                   around: Surroundings, token: string)
    requires Inv(env, m)
    ensures Inv(env, Apply(env, m, Start(x, id, workerId, leaseSeconds, around, token)))
  {
    if x !in m.executions && token !in m.store.issued {
      var (t, claim) := ClaimStep(env, m.store, id, workerId, leaseSeconds, around, token);
      ClaimHandles(env, m.store, id, workerId, leaseSeconds, around, token);
      OthersKept(env, m, t, id);
      if id in m.store.enrollments {
        EnrollmentFramed(env, m.store, t, m.store.enrollments[id]);
        var e, f := m.store.enrollments[id], t.enrollments[id];
        forall n: nat | 1 <= n <= f.step ensures StepSent(env, t.sends, f, n) {
          assert StepSent(env, t.sends, e, n);
        }
      }
    }
  }

  lemma EnqueueKeeps(env: Setting, m: Model, x: nat, accepted: bool)
    requires Inv(env, m)
    ensures Inv(env, Apply(env, m, Enqueue(x, accepted)))
  {
    if x in m.executions && m.executions[x].phase.Requested? {
      var c, p := m.executions[x].claim, m.executions[x].phase.payload;
      var (t, send) := EnqueueCall(env.driver, m.store, KeyOf(c), SendOf(c, p), accepted);
      var id := m.executions[x].enrollmentId;
      EnrollmentFramed(env, m.store, t, m.store.enrollments[id]);
      MoveOnKeeps(env, m, x, t, if send.Some? then Persisted(p) else Failing);
    }
  }

  /** The tables after an execution's completion call. */
  function Completing(env: Setting, s: Store, x: Execution): Store
    requires x.phase.Persisted?
  {
    CompleteCall(env.driver, s, x.enrollmentId, x.claim.token, x.claim.stepNo,
                 x.phase.payload.scheduledAt + x.claim.delayDays * DAY).0
  }

  lemma CompletingHandles(env: Setting, s: Store, x: Execution)
    requires x.phase.Persisted? && x.enrollmentId in s.enrollments
    ensures Handles(s, Completing(env, s, x), x.enrollmentId) && Completing(env, s, x).sends == s.sends
  {
  }

  lemma CompletedStepIsSent(env: Setting, s: Store, x: Execution)
    requires x.phase.Persisted? && ExecutionInv(env, s, x) && EnrollmentInv(env, s, s.enrollments[x.enrollmentId])
    ensures EnrollmentInv(env, Completing(env, s, x), Completing(env, s, x).enrollments[x.enrollmentId])
  {
    var e, f := s.enrollments[x.enrollmentId], Completing(env, s, x).enrollments[x.enrollmentId];
    forall n: nat | 1 <= n <= f.step ensures StepSent(env, s.sends, f, n) {
      if n <= e.step {
        assert StepSent(env, s.sends, e, n);
      } else {
        assert OnFile(s.sends, e.campaignId, e.personId, x.claim.stepId);
      }
    }
  }

  lemma CompleteKeeps(env: Setting, m: Model, x: nat)
    requires Inv(env, m)
    ensures Inv(env, Apply(env, m, Complete(x)))
  {
    if x in m.executions && m.executions[x].phase.Persisted? {
      var t := Completing(env, m.store, m.executions[x]);
      CompletingHandles(env, m.store, m.executions[x]);
      CompletedStepIsSent(env, m.store, m.executions[x]);
      MoveOnKeeps(env, m, x, t, Apply(env, m, Complete(x)).executions[x].phase);
    }
  }

  lemma ReleaseKeeps(env: Setting, m: Model, x: nat)
    requires Inv(env, m)
    ensures Inv(env, Apply(env, m, Release(x)))
  {
    if x in m.executions && m.executions[x].phase == Failing {
      var id := m.executions[x].enrollmentId;
      var t := ReleaseCall(env.driver, m.store, id, m.executions[x].claim.token).0;
      assert Handles(m.store, t, id);
      OthersKept(env, m, t, id);
      forall n: nat | 1 <= n <= t.enrollments[id].step ensures StepSent(env, t.sends, t.enrollments[id], n) {
        assert StepSent(env, m.store.sends, m.store.enrollments[id], n);
      }
    }
  }

  lemma StatusKeeps(env: Setting, m: Model, id: string, status: Status)
    requires Inv(env, m)
    ensures Inv(env, Apply(env, m, SetStatus(id, status)))
  {
    if id in m.store.enrollments {
      var t := Apply(env, m, SetStatus(id, status)).store;
      assert Handles(m.store, t, id);
      OthersKept(env, m, t, id);
      forall n: nat | 1 <= n <= t.enrollments[id].step ensures StepSent(env, t.sends, t.enrollments[id], n) {
        assert StepSent(env, m.store.sends, m.store.enrollments[id], n);
      }
    }
  }

  lemma TimeKeeps(env: Setting, m: Model, time: nat)
    requires Inv(env, m)
    ensures Inv(env, Apply(env, m, Pass(time)))
  {
    var t := Apply(env, m, Pass(time)).store;
    forall id | id in t.enrollments ensures EnrollmentInv(env, t, t.enrollments[id]) {
      EnrollmentFramed(env, m.store, t, m.store.enrollments[id]);
    }
  }

  lemma StepKeeps(env: Setting, m: Model, ev: Event)
    requires Inv(env, m)
    ensures Inv(env, Apply(env, m, ev))
  {
    match ev
    case Start(x, id, workerId, leaseSeconds, around, token) =>
      StartKeeps(env, m, x, id, workerId, leaseSeconds, around, token);
    case Build(_, _) =>
    case Enqueue(x, accepted) => EnqueueKeeps(env, m, x, accepted);
    case Complete(x) => CompleteKeeps(env, m, x);
    case Release(x) => ReleaseKeeps(env, m, x);
    case Pass(time) => TimeKeeps(env, m, time);
    case SetStatus(id, status) => StatusKeeps(env, m, id, status);
  }

  lemma {:induction false} EveryRunKeepsInv(env: Setting, m: Model, events: seq<Event>)
    requires Inv(env, m)
    ensures Inv(env, Run(env, m, events))
    decreases |events|
  {
    if events != [] {
      StepKeeps(env, m, events[0]);
      EveryRunKeepsInv(env, Apply(env, m, events[0]), events[1..]);
    }
  }

  predicate SameStep(a: Send, b: Send) {
    a.campaignId == b.campaignId && a.personId == b.personId && a.stepId == b.stepId
  }

  /** Exactly-once hand-off. Whatever the workers do, in whatever order, and wherever they stop: an enrollment
      stands past a step only if a send of that step is on file, and no two sends are of the same campaign,
      person and step. */
  lemma ExactlyOnceHandOff(env: Setting, start: Model, events: seq<Event>)
    requires Initial(start)
    ensures var s := Run(env, start, events).store;
            && (forall id, n: nat :: id in s.enrollments && 1 <= n <= s.enrollments[id].step
                  ==> StepSent(env, s.sends, s.enrollments[id], n))
            && (forall k, l :: k in s.sends && l in s.sends && SameStep(s.sends[k], s.sends[l]) ==> k == l)
  {
    EveryRunKeepsInv(env, start, events);
    var s := Run(env, start, events).store;
    forall id, n: nat | id in s.enrollments && 1 <= n <= s.enrollments[id].step
      ensures StepSent(env, s.sends, s.enrollments[id], n)
    {
      assert EnrollmentInv(env, s, s.enrollments[id]);
    }
  }

  /** With colon-free ids a key never finds the send of another campaign, person or step. */
  lemma KeyFindsItsOwnSend(sends: map<string, Send>, c: string, p: string, s: string)
    requires Filed(sends) && Key(c, p, s) in sends && NoColon(c) && NoColon(s)
    requires forall k :: k in sends ==> NoColon(sends[k].campaignId) && NoColon(sends[k].stepId)
    ensures sends[Key(c, p, s)].campaignId == c && sends[Key(c, p, s)].personId == p && sends[Key(c, p, s)].stepId == s
  {
    var send := sends[Key(c, p, s)];
    KeyIsInjective(c, p, s, send.campaignId, send.personId, send.stepId);
  }

  lemma {:induction false} SendsNeverChange(env: Setting, m: Model, events: seq<Event>, key: string)
    requires key in m.store.sends
    ensures key in Run(env, m, events).store.sends && Run(env, m, events).store.sends[key] == m.store.sends[key]
    decreases |events|
  {
    if events != [] {
      StepGrows(env, m, events[0]);
      SendsNeverChange(env, Apply(env, m, events[0]), events[1..], key);
    }
  }

  // ---------- claims ----------

  /** An enrollment advances only by one step, and only at the hands of the execution whose token it carries,
      after that execution's send was persisted. */
  lemma OnlyTheHolderAdvances(env: Setting, m: Model, ev: Event, id: string)
    requires id in m.store.enrollments
    requires Apply(env, m, ev).store.enrollments[id].step != m.store.enrollments[id].step
    ensures ev.Complete? && ev.execution in m.executions
    ensures var x := m.executions[ev.execution];
            && x.enrollmentId == id && x.phase.Persisted? && m.store.enrollments[id].token == Some(x.claim.token)
            && Apply(env, m, ev).store.enrollments[id].step == m.store.enrollments[id].step + 1
  {
  }

  /** A worker whose claim was taken over can neither release nor complete the new one, ... */
  lemma StaleWorkerIsHarmless(env: Setting, m: Model, x: nat)
    requires x in m.executions
    requires m.executions[x].enrollmentId in m.store.enrollments ==>
               m.store.enrollments[m.executions[x].enrollmentId].token != Some(m.executions[x].claim.token)
    ensures Apply(env, m, Complete(x)).store == m.store && Apply(env, m, Release(x)).store == m.store
  {
  }

  lemma StaleAfter(env: Setting, m: Model, x: nat, ev: Event)
    requires Inv(env, m) && x in m.executions
    requires m.store.enrollments[m.executions[x].enrollmentId].token != Some(m.executions[x].claim.token)
    ensures var next := Apply(env, m, ev);
            && x in next.executions && next.executions[x].claim == m.executions[x].claim
            && next.executions[x].enrollmentId == m.executions[x].enrollmentId
            && m.executions[x].enrollmentId in next.store.enrollments
            && next.store.enrollments[m.executions[x].enrollmentId].token != Some(m.executions[x].claim.token)
  {
    assert ExecutionInv(env, m.store, m.executions[x]);
  }

  /** Nor will its calls ever change anything later: tokens are not issued twice. */
  lemma {:induction false} StaleForGood(env: Setting, m: Model, x: nat, events: seq<Event>)
    requires Inv(env, m) && x in m.executions
    requires m.store.enrollments[m.executions[x].enrollmentId].token != Some(m.executions[x].claim.token)
    ensures var n := Run(env, m, events);
            && x in n.executions && n.executions[x].claim == m.executions[x].claim
            && Apply(env, n, Complete(x)).store == n.store && Apply(env, n, Release(x)).store == n.store
    decreases |events|
  {
    if events == [] {
      StaleWorkerIsHarmless(env, m, x);
    } else {
      var next := Apply(env, m, events[0]);
      StepKeeps(env, m, events[0]);
      StaleAfter(env, m, x, events[0]);
      StaleForGood(env, next, x, events[1..]);
    }
  }

  /** Until its lease runs out a claimed enrollment cannot be claimed. */
  lemma LeaseExcludes(env: Setting, m: Model, x: nat, id: string, workerId: string, leaseSeconds: int,
                      around: Surroundings, token: string)
    requires id in m.store.enrollments && m.store.enrollments[id].leaseUntil.Some?
    requires m.store.now < m.store.enrollments[id].leaseUntil.value
    ensures Apply(env, m, Start(x, id, workerId, leaseSeconds, around, token)) == m
  {
  }

  /** The claim a worker holds: nobody else changed the enrollment since it was made. */
  ghost predicate HeldBy(m: Model, x: nat) {
    && x in m.executions && m.executions[x].phase != Failing && !m.executions[x].phase.Ended?
    && m.executions[x].enrollmentId in m.store.enrollments
    && m.store.enrollments[m.executions[x].enrollmentId].token == Some(m.executions[x].claim.token)
    && (forall y :: y in m.executions && y != x ==> m.executions[y].claim.token != m.executions[x].claim.token)
  }

  /** The event is another's doing, and leaves the status of the enrollment alone. */
  predicate Foreign(ev: Event, x: nat, id: string) {
    match ev
    case Start(_, _, _, _, _, _) => true
    case Build(y, _) => y != x
    case Enqueue(y, _) => y != x
    case Complete(y) => y != x
    case Release(y) => y != x
    case Pass(_) => true
    case SetStatus(other, _) => other != id
  }

  function Elapsed(events: seq<Event>): nat {
    if events == [] then 0 else (if events[0].Pass? then events[0].time else 0) + Elapsed(events[1..])
  }

  /** The lease covers the given time. */
  ghost predicate Leased(m: Model, x: nat, time: nat)
    requires HeldBy(m, x)
  {
    var lease := m.store.enrollments[m.executions[x].enrollmentId].leaseUntil;
    lease.Some? && m.store.now + time < lease.value
  }

  lemma StartIsRefused(env: Setting, m: Model, x: nat, ev: Event)
    requires Inv(env, m) && HeldBy(m, x) && ev.Start? && Leased(m, x, 0)
    ensures HeldBy(Apply(env, m, ev), x)
    ensures Apply(env, m, ev).executions[x] == m.executions[x]
    ensures Apply(env, m, ev).store.enrollments[m.executions[x].enrollmentId]
            == m.store.enrollments[m.executions[x].enrollmentId]
    ensures Apply(env, m, ev).store.now == m.store.now
  {
    var Start(y, id, workerId, leaseSeconds, around, token) := ev;
    if id == m.executions[x].enrollmentId {
      LeaseExcludes(env, m, y, id, workerId, leaseSeconds, around, token);
    }
    assert ExecutionInv(env, m.store, m.executions[x]);
  }

  lemma ForeignReportIsHarmless(env: Setting, m: Model, x: nat, ev: Event)
    requires Inv(env, m) && HeldBy(m, x) && (ev.Complete? || ev.Release?)
    requires Foreign(ev, x, m.executions[x].enrollmentId)
    ensures HeldBy(Apply(env, m, ev), x)
    ensures Apply(env, m, ev).executions[x] == m.executions[x]
    ensures Apply(env, m, ev).store.enrollments[m.executions[x].enrollmentId]
            == m.store.enrollments[m.executions[x].enrollmentId]
    ensures Apply(env, m, ev).store.now == m.store.now
  {
    assert ExecutionInv(env, m.store, m.executions[x]);
  }

  lemma ForeignIsHarmless(env: Setting, m: Model, x: nat, ev: Event)
    requires Inv(env, m) && HeldBy(m, x) && !ev.Start? && Foreign(ev, x, m.executions[x].enrollmentId)
    ensures HeldBy(Apply(env, m, ev), x)
    ensures Apply(env, m, ev).executions[x] == m.executions[x]
    ensures Apply(env, m, ev).store.enrollments[m.executions[x].enrollmentId]
            == m.store.enrollments[m.executions[x].enrollmentId]
    ensures Apply(env, m, ev).store.now == m.store.now + (if ev.Pass? then ev.time else 0)
  {
    if ev.Complete? || ev.Release? {
      ForeignReportIsHarmless(env, m, x, ev);
    }
  }

  /** Nothing that others do takes a claim away while its lease lasts. */
  lemma {:induction false} ClaimSurvives(env: Setting, m: Model, x: nat, events: seq<Event>)
    requires Inv(env, m) && HeldBy(m, x) && Leased(m, x, Elapsed(events))
    requires forall i :: 0 <= i < |events| ==> Foreign(events[i], x, m.executions[x].enrollmentId)
    ensures HeldBy(Run(env, m, events), x)
    ensures Run(env, m, events).executions[x] == m.executions[x]
    ensures Run(env, m, events).store.enrollments[m.executions[x].enrollmentId]
            == m.store.enrollments[m.executions[x].enrollmentId]
    decreases |events|
  {
    if events != [] {
      assert Foreign(events[0], x, m.executions[x].enrollmentId);
      if events[0].Start? {
        StartIsRefused(env, m, x, events[0]);
      } else {
        ForeignIsHarmless(env, m, x, events[0]);
      }
      StepKeeps(env, m, events[0]);
      ClaimSurvives(env, Apply(env, m, events[0]), x, events[1..]);
    }
  }

  /** From `m` through `before` to `after`: the step claimed in `m` is completed, or the call undone. */
  ghost predicate Completes(m: Model, before: Model, after: Model, x: nat, ok: bool)
    requires x in m.executions
  {
    var id := m.executions[x].enrollmentId;
    && x in after.executions && id in after.store.enrollments
    && (if ok
        then after.executions[x].phase == Ended(true)
             && after.store.enrollments[id].step == m.executions[x].claim.stepNo
             && after.store.enrollments[id].token == None
        else after.executions[x].phase == Failing && after.store == before.store)
  }

  lemma CompletionEnds(env: Setting, m: Model, x: nat)
    requires Inv(env, m) && HeldBy(m, x) && m.executions[x].phase.Persisted?
    requires Live(m.store.enrollments[m.executions[x].enrollmentId].status)
    ensures Completes(m, m, Apply(env, m, Complete(x)), x, env.driver.byPosition)
  {
    assert ExecutionInv(env, m.store, m.executions[x]);
  }

  /** A worker whose send is persisted and whose lease lasts can complete the step it claimed, whatever the
      other workers do meanwhile; and it does so exactly when the driver's rows answer to positions. Otherwise
      nothing is committed. */
  lemma InTimeCompletionSucceeds(env: Setting, m: Model, x: nat, events: seq<Event>)
    requires Inv(env, m) && HeldBy(m, x) && m.executions[x].phase.Persisted? && Leased(m, x, Elapsed(events))
    requires Live(m.store.enrollments[m.executions[x].enrollmentId].status)
    requires forall i :: 0 <= i < |events| ==> Foreign(events[i], x, m.executions[x].enrollmentId)
    ensures Completes(m, Run(env, m, events), Apply(env, Run(env, m, events), Complete(x)), x, env.driver.byPosition)
  {
    ClaimSurvives(env, m, x, events);
    EveryRunKeepsInv(env, m, events);
    CompletionEnds(env, Run(env, m, events), x);
  }
}
