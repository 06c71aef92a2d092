/** Which answers of the network are retried, after how long, and what is reported of them.

    The statuses and delays of the retry loop are written out here, and tied to the attempt that settles a request,
    to its result, and to its reports. */
module RetryPolicy {
  import opened Wrappers
  import opened RetryClient
  import RateLimiter

  /** Worth another attempt: too many requests, a failing server, or no answer at all. */
  ghost predicate Transient<P>(a: Attempt<P>) {
    || a.NetworkFailure?
    || a.TimedOut?
    || (a.HttpStatus? && (a.code == 429 || a.code == 500 || a.code == 502 || a.code == 503 || a.code == 504))
  }

  lemma RetryableIff<P>(a: Attempt<P>)
    ensures Retryable(a) <==> Transient(a)
  {
  }

  /** The attempt that settles a request is the only one that all earlier ones lead to and none follows. */
  lemma SettlesIff<P>(network: nat -> Attempt<P>, max: nat, k: nat)
    requires max > 0
    ensures k == Settling(network, 0, max)
            <==> && k < max
                 && (forall j: nat :: j < k ==> Transient(network(j)))
                 && (k + 1 == max || !Transient(network(k)))
  {
    var settling := Settling(network, 0, max);
    SettlingIsFirst(network, 0, max);
    forall j: nat ensures Retryable(network(j)) <==> Transient(network(j)) {
      RetryableIff(network(j));
    }
    if k < settling {
      assert Transient(network(k));
    } else if settling < k < max {
      assert !Transient(network(settling));
    }
  }

  /** With attempts left, an HTTP answer is followed by another attempt if and only if its status is one of five. */
  lemma FollowedIff<P>(network: nat -> Attempt<P>, max: nat, k: nat)
    requires k + 1 < max && k <= Settling(network, 0, max) && network(k).HttpStatus?
    ensures k < Settling(network, 0, max) <==> network(k).code in {429, 500, 502, 503, 504}
  {
    SettlesIff(network, max, Settling(network, 0, max));
  }

  /** What each status is reported as. */
  lemma StatusIsReportedAs(code: int, retryAfter: Option<real>, failure: FailureCode)
    requires ResultOf<int>(HttpStatus(code, retryAfter)) == Err(Provider(failure))
    ensures failure == AuthFailure <==> code == 401
    ensures failure == PolicyBlock <==> code == 403
    ensures failure == InvalidRequest <==> code == 400 || code == 422
    ensures failure == RateLimit <==> code == 429
    ensures failure == Provider5xx <==> code == 500 || code == 502 || code == 503 || code == 504
    ensures failure == Unclassified <==> code !in {400, 401, 403, 422, 429, 500, 502, 503, 504}
  {
  }

  /** What any other end is reported as. */
  lemma EndIsReportedAs<P>(a: Attempt<P>, r: Result<P, Failure>)
    requires r == ResultOf(a)
    ensures r.Ok? <==> a.Success?
    ensures r.Ok? ==> r.value == a.payload
    ensures r == Err(Provider(MalformedResult)) <==> a == InvalidJson || a == NonObjectPayload
    ensures r == Err(Provider(NetworkError)) <==> a == NetworkFailure
    ensures r == Err(Provider(Timeout)) <==> a == TimedOut
    ensures r != Err(Provider(QuotaExhausted)) && r != Err(BadUrlCount) && r != Err(EmptyDequeIndexed)
  {
  }

  // ---------- the reports of a settled request ----------

  ghost predicate IsReported(events: seq<Telemetry>, j: nat) {
    exists i :: 0 <= i < |events| && events[i].attempts == j + 1
  }

  /** The report speaks of one of the attempts made, by its number, and says how it ended. */
  ghost predicate Describes<P>(e: Telemetry, network: nat -> Attempt<P>) {
    && e.attempts > 0 && e.retryCount == e.attempts - 1
    && (e.status == Succeeded <==> network(e.retryCount).Success?)
    && (e.status != Succeeded ==>
          e.status.Failed? && ResultOf(network(e.retryCount)) == Err(Provider(e.status.code)))
  }

  ghost predicate AllDescribe<P>(events: seq<Telemetry>, network: nat -> Attempt<P>) {
    forall e :: e in events ==> Describes(e, network)
  }

  /** Reports in the order of their attempts, one at most for each of the first `n`. */
  ghost predicate InTurn(events: seq<Telemetry>, n: nat) {
    && (forall i :: 0 <= i < |events| ==> 1 <= events[i].attempts <= n)
    && (forall i, j :: 0 <= i < j < |events| ==> events[i].attempts < events[j].attempts)
  }

  lemma ReportAdded(events: seq<Telemetry>, e: Telemetry, n: nat, j: nat)
    requires InTurn(events, n) && e.attempts == n + 1
    ensures InTurn(events + [e], n + 1)
    ensures IsReported(events + [e], j) <==> IsReported(events, j) || j == n
  {
    var more := events + [e];
    if IsReported(events, j) {
      var i :| 0 <= i < |events| && events[i].attempts == j + 1;
      assert more[i].attempts == j + 1;
    }
    assert more[|events|].attempts == n + 1;
  }

  lemma OneReport<P>(network: nat -> Attempt<P>, n: nat, settles: bool)
    ensures var events := EventsOf(network(n), n, settles);
            if network(n).HttpStatus? || (settles && network(n) != NonObjectPayload) || network(n).Success?
            then |events| == 1 && events[0].attempts == n + 1 && Describes(events[0], network)
            else events == []
  {
  }

  lemma NotYetReported(events: seq<Telemetry>, n: nat, j: nat)
    requires InTurn(events, n) && n <= j
    ensures !IsReported(events, j)
  {
  }

  /** Appending the report on attempt `n`, if there is one. */
  lemma NextReported<P>(network: nat -> Attempt<P>, before: seq<Telemetry>, events: seq<Telemetry>, n: nat,
                        settles: bool, j: nat)
    requires InTurn(before, n) && AllDescribe(before, network)
    requires events == before + EventsOf(network(n), n, settles)
    ensures InTurn(events, n + 1) && AllDescribe(events, network)
    ensures IsReported(events, j) <==>
              IsReported(before, j)
              || (j == n && (network(n).HttpStatus? || (settles && network(n) != NonObjectPayload)
                             || network(n).Success?))
  {
    OneReport(network, n, settles);
    var report := EventsOf(network(n), n, settles);
    if report == [] {
      assert events == before;
    } else {
      assert events == before + [report[0]];
      ReportAdded(before, report[0], n, j);
    }
  }

  lemma {:induction false} EarlierAttemptsReported<P>(network: nat -> Attempt<P>, n: nat, j: nat)
    requires forall i: nat :: i < n ==> Transient(network(i))
    ensures InTurn(EventsBefore(network, n), n) && AllDescribe(EventsBefore(network, n), network)
    ensures IsReported(EventsBefore(network, n), j) <==> j < n && network(j).HttpStatus?
  {
    if n > 0 {
      var before := EventsBefore(network, n - 1);
      EarlierAttemptsReported(network, n - 1, j);
      NextReported(network, before, EventsBefore(network, n), n - 1, false, j);
    }
  }

  /** The reports of a request that attempt `k` settles: in the order of the attempts, one for every attempt that an
      HTTP status answered, and one for the last unless that was a payload of another kind than an object. */
  lemma ReportsOfARequest<P>(network: nat -> Attempt<P>, max: nat, k: nat, events: seq<Telemetry>, j: nat)
    requires max > 0 && k == Settling(network, 0, max) && j <= k
    requires events == EventsBefore(network, k) + EventsOf(network(k), k, true)
    ensures InTurn(events, k + 1) && AllDescribe(events, network)
    ensures IsReported(events, j) <==> network(j).HttpStatus? || (j == k && network(j) != NonObjectPayload)
  {
    SettlesIff(network, max, k);
    EarlierAttemptsReported(network, k, j);
    NextReported(network, EventsBefore(network, k), events, k, true, j);
  }

  /** A refusal by the limiter is reported exactly when the day's quota is what it ran into. */
  lemma RefusalIsReportedIff(refusal: Failure, made: nat, events: seq<Telemetry>)
    requires events == RefusalEvents(refusal, made)
    ensures events != [] <==> refusal == Provider(QuotaExhausted)
    ensures events != [] ==> |events| == 1 && events[0].attempts == made && events[0].status == Failed(QuotaExhausted)
    ensures events != [] && made > 0 ==> events[0].retryCount == made - 1
    ensures events != [] && made == 0 ==> events[0].retryCount == 0
  {
  }

  // ---------- how long a request waits ----------

  /** A server that says how long to stay away is obeyed. */
  lemma RetryAfterIsObeyed<P>(a: Attempt<P>, attempt: nat, seconds: real)
    requires a.HttpStatus? && a.retryAfter == Some(seconds)
    ensures RetryDelay(a, attempt) == if seconds > 0.0 then seconds else 0.0
  {
  }

  /** None of the attempts says how long to stay away. */
  ghost predicate Unadvised<P>(network: nat -> Attempt<P>, n: nat) {
    forall j: nat :: j < n ==> network(j).HttpStatus? ==> network(j).retryAfter.None?
  }

  /** Otherwise the waits double, and grow by a quarter of a second: 2^n - 1 + n (n + 1) / 8 seconds in all. */
  lemma {:induction false} WaitsDouble<P>(network: nat -> Attempt<P>, n: nat)
    requires Unadvised(network, n)
    ensures Waits(network, n) == (Pow2(n) - 1) as real + (n * (n + 1)) as real / 8.0
  {
    if n > 0 {
      WaitsDouble(network, n - 1);
      assert RetryDelay(network(n - 1), n - 1) == Pow2(n - 1) as real + n as real / 4.0;
      assert n * (n + 1) == (n - 1) * n + 2 * n;
    }
  }

  /** What is waited is never less than what one of the servers asked for. */
  lemma {:induction false} WaitsAddUp<P>(network: nat -> Attempt<P>, n: nat, j: nat, seconds: real)
    requires j < n && network(j).HttpStatus? && network(j).retryAfter == Some(seconds)
    ensures Waits(network, n) >= seconds
  {
    if j < n - 1 {
      WaitsAddUp(network, n - 1, j, seconds);
    }
  }
}
