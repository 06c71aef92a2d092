/** The orchestrator and its database class as they run: one execution from claim to completion or release,
    every call a procedure and the reading of its row. */
module CampaignExecution {
  import opened Text
  import opened Wrappers
  import opened CampaignSteps
  import opened CampaignDriver

  class CampaignDatabase {
    const env: Setting
    var enrollments: map<string, Enrollment>
    var sends: map<string, Send>
    var issued: set<string>
    var now: int

    constructor (env: Setting, enrollments: map<string, Enrollment>, now: int)
      ensures this.env == env && View() == Store(enrollments, map[], {}, now)
    {
      this.env, this.enrollments, this.sends, this.issued, this.now := env, enrollments, map[], {}, now;
    }

    function View(): Store
      reads this
    {
      Store(enrollments, sends, issued, now)
    }

    method Claim(id: string, workerId: string, leaseSeconds: int, around: Surroundings, token: string)
      returns (claim: Option<CampaignSteps.Claim>)
      modifies this
      ensures (View(), claim) == ClaimStep(env, old(View()), id, workerId, leaseSeconds, around, token)
    {
      if Blank(workerId) || leaseSeconds < 30 || leaseSeconds > 3600 {
        return None;
      }
      if id !in enrollments || !Claimable(enrollments[id], now) || !around.sequenceInUse {
        return None;
      }
      var e := enrollments[id];
      if e.step >= e.maxSteps {
        enrollments := enrollments[id := e.(status := Completed, token := None, leaseUntil := None)];
        return None;
      }
      if !env.columnsWin {
        return None;
      }
      if around.stepId.None? || !NextRow(env, e, around.stepId.value) {
        return None;
      }
      if !around.versionsNamed || OnlySpaces(around.email) {
        return None;
      }
      var stepId := around.stepId.value;
      enrollments := enrollments[id := e.(token := Some(token), leaseUntil := Some(now + leaseSeconds))];
      issued := issued + {token};
      return Some(CampaignSteps.Claim.Claim(token, e.campaignId, e.personId, stepId, e.step + 1,
                                            env.plan[stepId].delayDays, around.email));
    }

    /** None is the exception raised on reading the answer, which rolls the procedure back. */
    method Release(id: string, token: string) returns (found: Option<bool>)
      modifies this`enrollments
      ensures (View(), found) == ReleaseCall(env.driver, old(View()), id, token)
      ensures !env.driver.byPosition ==> found == None && View() == old(View())
    {
      var pending, row := enrollments, Holds(View(), id, token);
      if row {
        pending := pending[id := pending[id].(token := None, leaseUntil := None)];
      }
      if !env.driver.byPosition {
        return None;
      }
      enrollments := pending;
      return Some(row);
    }

    method Complete(id: string, token: string, stepNo: nat, nextActionAt: int) returns (found: Option<bool>)
      modifies this`enrollments
      ensures (View(), found) == CompleteCall(env.driver, old(View()), id, token, stepNo, nextActionAt)
      ensures !env.driver.byPosition ==> found == None && View() == old(View())
    {
      var pending, row := enrollments, Holds(View(), id, token) && stepNo == enrollments[id].step + 1;
      if row {
        pending := pending[id := pending[id].(step := stepNo, nextActionAt := Some(nextActionAt), token := None,
                                              leaseUntil := None)];
      }
      if !env.driver.byPosition {
        return None;
      }
      enrollments := pending;
      return Some(row);
    }

    /** None is an exception: of the driver on passing dicts, of the procedure, or on reading the row. */
    method Enqueue(key: string, send: Send, accepted: bool) returns (row: Option<Send>)
      modifies this`sends
      ensures (View(), row) == EnqueueCall(env.driver, old(View()), key, send, accepted)
      ensures row.Some? ==> row == Some(send) && key in sends && sends[key] == send
    {
      if !env.driver.adaptsDicts || !accepted {
        return None;
      }
      var pending := sends;
      if key in pending {
        if pending[key] != send {
          return None;
        }
      } else {
        pending := pending[key := send];
      }
      if !env.driver.byName {
        return None;
      }
      sends := pending;
      return Some(pending[key]);
    }
  }

  class CampaignExecutionOrchestrator {
    const database: CampaignDatabase

    constructor (database: CampaignDatabase)
      ensures this.database == database
    {
      this.database := database;
    }

    /** True is a "queued" answer, false an exception. `rendered` is what rendering and building the request
        come to, `accepted` what the mail system's checks say. */
    method Execute(id: string, workerId: string, around: Surroundings, token: string, rendered: Option<Payload>,
                   accepted: bool)
      returns (queued: bool)
      modifies database
      ensures (database.View(), queued)
              == ExecuteAlone(database.env, old(database.View()), id, workerId, around, token, rendered, accepted)
      ensures AloneDoes(database.env.driver, old(database.View()), id, database.View(), queued)
    {
      AloneEffects(database.env, database.View(), id, workerId, around, token, rendered, accepted);
      var claim := database.Claim(id, workerId, DEFAULT_LEASE, around, token);
      if claim.None? || !database.env.driver.byName {
        return false;
      }
      if rendered.None? {
        var released := database.Release(id, token);
        return false;
      }
      var c, p := claim.value, rendered.value;
      var row := database.Enqueue(KeyOf(c), SendOf(c, p), accepted);
      if row.Some? {
        var found := database.Complete(id, token, c.stepNo, p.scheduledAt + c.delayDays * DAY);
        if found == Some(true) {
          return true;
        }
      }
      var released := database.Release(id, token);
      return false;
    }
  }
}
