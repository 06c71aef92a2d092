/** The provider client: cache first, then a bounded retry loop in which every attempt is charged to
    the limiter before it is made. What the network answers to attempt `i` is `network(i)`. */
module RetryClient {
  import opened Wrappers
  import opened Clocks
  import RateLimiter
  import TtlCache

  /** What one HTTP attempt can end in. */
  datatype Attempt<P> =
    | Success(payload: P)
    | NonObjectPayload
    | InvalidJson
    | HttpStatus(code: int, retryAfter: Option<real>)
    | NetworkFailure
    | TimedOut

  datatype FailureCode = AuthFailure | PolicyBlock | InvalidRequest | RateLimit | Provider5xx | Unclassified
                       | MalformedResult | NetworkError | Timeout | QuotaExhausted

  /** The exceptions a request can end in; the last two come from the limiter unannounced. */
  datatype Failure = Provider(code: FailureCode) | BadUrlCount | EmptyDequeIndexed

  datatype Status = CacheHit | Succeeded | Failed(code: FailureCode)

  datatype Telemetry = Telemetry(attempts: nat, retryCount: nat, status: Status)

  datatype Operation = Search | Fetch(urlCount: int)

  /** A fetch is of one to ten pages. */
  ghost predicate Fetchable(operation: Operation) {
    operation.Fetch? ==> 1 <= operation.urlCount <= 10
  }

  function Classify(code: int): FailureCode {
    if code == 401 then AuthFailure
    else if code == 403 then PolicyBlock
    else if code in {400, 422} then InvalidRequest
    else if code == 429 then RateLimit
    else if code in {500, 502, 503, 504} then Provider5xx
    else Unclassified
  }

  predicate Retryable<P>(a: Attempt<P>) {
    match a
    case HttpStatus(code, _) => Classify(code) in {RateLimit, Provider5xx}
    case NetworkFailure => true
    case TimedOut => true
    case _ => false
  }

  function ErrorCode<P>(a: Attempt<P>): FailureCode
    requires !a.Success?
  {
    match a
    case NonObjectPayload => MalformedResult
    case InvalidJson => MalformedResult
    case HttpStatus(code, _) => Classify(code)
    case NetworkFailure => NetworkError
    case TimedOut => Timeout
  }

  function Pow2(n: nat): nat {
    if n == 0 then 1 else 2 * Pow2(n - 1)
  }

  function RetryDelay<P>(a: Attempt<P>, attempt: nat): (d: real)
    ensures d >= 0.0
  {
    if a.HttpStatus? && a.retryAfter.Some? then RateLimiter.Larger(0.0, a.retryAfter.value)
    else Pow2(attempt) as real + 0.25 * (attempt + 1) as real
  }

  // ---------- the specification of a request that is not cut short by the limiter ----------

  /** The attempt that settles the request: the first that cannot be retried, or the last allowed. */
  function Settling<P>(network: nat -> Attempt<P>, from: nat, max: nat): (k: nat)
    requires from < max
    ensures from <= k < max
    decreases max - from
  {
    if Retryable(network(from)) && from + 1 < max then Settling(network, from + 1, max) else from
  }

  lemma {:induction false} SettlingIsFirst<P>(network: nat -> Attempt<P>, from: nat, max: nat)
    requires from < max
    ensures forall j :: from <= j < Settling(network, from, max) ==> Retryable(network(j))
    ensures Settling(network, from, max) + 1 < max ==> !Retryable(network(Settling(network, from, max)))
    decreases max - from
  {
    if Retryable(network(from)) && from + 1 < max {
      SettlingIsFirst(network, from + 1, max);
    }
  }

  /** A retried HTTP status is reported at once; a retried network failure or timeout is not. A
      payload that is not an object is never reported. */
  function EventsOf<P>(a: Attempt<P>, attempt: nat, settles: bool): seq<Telemetry> {
    match a
    case Success(_) => [Telemetry(attempt + 1, attempt, Succeeded)]
    case NonObjectPayload => []
    case _ =>
      if settles || a.HttpStatus? then [Telemetry(attempt + 1, attempt, Failed(ErrorCode(a)))] else []
  }

  function EventsBefore<P>(network: nat -> Attempt<P>, n: nat): seq<Telemetry> {
    if n == 0 then [] else EventsBefore(network, n - 1) + EventsOf(network(n - 1), n - 1, false)
  }

  function ResultOf<P>(a: Attempt<P>): Result<P, Failure> {
    match a
    case Success(payload) => Ok(payload)
    case _ => Err(Provider(ErrorCode(a)))
  }

  lemma {:induction false} EarlierReports<P>(network: nat -> Attempt<P>, n: nat)
    requires forall j :: 0 <= j < n ==> Retryable(network(j))
    ensures forall e :: e in EventsBefore(network, n) ==> e.attempts <= n && e.status.Failed?
  {
    if n > 0 {
      EarlierReports(network, n - 1);
    }
  }

  /** A request's last report describes how it ended, unless it ended in a payload that is not an
      object: then the end goes unreported. */
  lemma EndIsReported<P>(network: nat -> Attempt<P>, max: nat)
    requires max > 0
    ensures var k := Settling(network, 0, max);
            var events := EventsBefore(network, k) + EventsOf(network(k), k, true);
            (events != [] && events[|events| - 1].attempts == k + 1) <==> network(k) != NonObjectPayload
  {
    SettlingIsFirst(network, 0, max);
    EarlierReports(network, Settling(network, 0, max));
  }

  /** Only an exhausted quota is reported; the limiter's other exceptions are not. */
  function RefusalEvents(refusal: Failure, attempt: nat): seq<Telemetry> {
    if refusal == Provider(QuotaExhausted)
    then [Telemetry(attempt, if attempt > 0 then attempt - 1 else 0, Failed(QuotaExhausted))]
    else []
  }

  /** The least time spent waiting after the first `n` attempts. */
  function Waits<P>(network: nat -> Attempt<P>, n: nat): (total: real)
    ensures total >= 0.0
  {
    if n == 0 then 0.0 else Waits(network, n - 1) + RetryDelay(network(n - 1), n - 1)
  }

  // ---------- what the limiter is charged ----------

  ghost function Grants<T>(log: RateLimiter.History<T>): nat {
    match log
    case Start => 0
    case Then(earlier, _) => 1 + Grants(earlier)
  }

  class TinyFishClient<P(==)> {
    const limiter: RateLimiter.TinyFishRateLimiter
    const cache: TtlCache.TTLCache<P>
    const maxRetryAttempts: nat
    var telemetry: seq<Telemetry>
    ghost var paused: real  // how long the client itself has asked to sleep, in all

    ghost predicate Valid()
      reads this, limiter, cache, limiter.clock
    {
      limiter.Valid() && cache.Valid() && limiter.clock == cache.clock && maxRetryAttempts > 0
    }

    /** The client rejects a retry bound that is not positive. */
    constructor (limiter: RateLimiter.TinyFishRateLimiter, cache: TtlCache.TTLCache<P>, maxRetryAttempts: nat)
      requires limiter.Valid() && cache.Valid() && limiter.clock == cache.clock && maxRetryAttempts > 0
      ensures Valid() && telemetry == [] && this.maxRetryAttempts == maxRetryAttempts
      ensures this.limiter == limiter && this.cache == cache
    {
      this.limiter, this.cache, this.maxRetryAttempts := limiter, cache, maxRetryAttempts;
      telemetry, paused := [], 0.0;
    }

    ghost function Charges(): nat
      reads limiter
    {
      Grants(limiter.searchLog) + Grants(limiter.fetchLog)
    }

    /** The first `n` attempts have been waited for, by the client's own account and on its clock. */
    ghost predicate Waited(network: nat -> Attempt<P>, n: nat, mono: real, pausedBefore: real)
      reads this, limiter, limiter.clock
    {
      limiter.clock.mono >= mono + Waits(network, n) && paused == pausedBefore + Waits(network, n)
    }

    /** One charge to the limiter, or the exception it raises. */
    method Acquire(operation: Operation) returns (refused: Option<Failure>)
      requires Valid()
      modifies limiter, limiter.clock
      ensures Valid() && old(limiter.clock.wall) <= limiter.clock.wall && old(limiter.clock.mono) <= limiter.clock.mono
      ensures refused.None? ==> Charges() == old(Charges()) + 1
      ensures refused.Some? ==> Charges() == old(Charges()) && operation.Fetch?
      ensures refused.Some? ==> refused.value in {Provider(QuotaExhausted), BadUrlCount, EmptyDequeIndexed}
      ensures refused == Some(BadUrlCount) <==> !Fetchable(operation)
      ensures refused == Some(EmptyDequeIndexed) ==> operation.urlCount > limiter.policy.fetchUrlsPerMinute
      ensures refused == Some(Provider(QuotaExhausted)) ==>
                RateLimiter.Load(RateLimiter.DayStamps(old(limiter.fetchLog)), old(limiter.clock.wall), 86400.0)
                + operation.urlCount > limiter.policy.fetchUrlsPerDay
    {
      match operation
      case Search =>
        var _ := limiter.AcquireSearch();
        refused := None;
      case Fetch(urlCount) =>
        var outcome, _, _, _ := limiter.AcquireFetch(urlCount);
        match outcome {
          case Granted => refused := None;
          case BadUrlCount => refused := Some(BadUrlCount);
          case QuotaExceeded => refused := Some(Provider(QuotaExhausted));
          case EmptyDequeIndexed => refused := Some(EmptyDequeIndexed);
        }
    }

    /** Stores a success for later callers and reports the attempt. */
    method Record(answer: Attempt<P>, key: string, ttl: real, attempt: nat, settles: bool)
      requires Valid()
      modifies this`telemetry, cache, limiter.clock
      ensures Valid() && Charges() == old(Charges()) && old(limiter.clock.mono) <= limiter.clock.mono
      ensures telemetry == old(telemetry) + EventsOf(answer, attempt, settles)
      ensures answer.Success? && ttl > 0.0 ==>
                key in cache.entries.table && cache.entries.table[key].value == answer.payload
    {
      if answer.Success? && ttl > 0.0 {
        var at := cache.Set(key, answer.payload, ttl);
        TtlCache.SetKeeps(old(cache.entries), key, answer.payload, ttl, at, cache.maxEntries);
      }
      telemetry := telemetry + EventsOf(answer, attempt, settles);
    }

    /** The first `attempt` attempts were made, reported, and did not settle the request. */
    ghost predicate OnTheWay(before: seq<Telemetry>, attempt: nat, network: nat -> Attempt<P>)
      requires attempt < maxRetryAttempts
      reads this
    {
      && telemetry == before + EventsBefore(network, attempt)
      && Settling(network, 0, maxRetryAttempts) == Settling(network, attempt, maxRetryAttempts)
    }

    /** One attempt is charged, made and recorded, or the limiter refuses it. */
    method Try(operation: Operation, key: string, ttl: real, attempt: nat, network: nat -> Attempt<P>,
               ghost before: seq<Telemetry>)
      returns (refused: Option<Failure>, answer: Attempt<P>, settles: bool)
      requires Valid() && attempt < maxRetryAttempts && OnTheWay(before, attempt, network)
      modifies this`telemetry, limiter, cache, limiter.clock
      ensures Valid() && answer == network(attempt) && old(limiter.clock.mono) <= limiter.clock.mono
      ensures Charges() == old(Charges()) + (if refused.None? then 1 else 0)
      ensures refused.Some? ==>
                && operation.Fetch?
                && telemetry == before + (EventsBefore(network, attempt) + RefusalEvents(refused.value, attempt))
      ensures refused == Some(BadUrlCount) <==> !Fetchable(operation)
      ensures refused == Some(EmptyDequeIndexed) ==> operation.urlCount > limiter.policy.fetchUrlsPerMinute
      ensures refused.None? && settles ==> Settled(ResultOf(answer), before, attempt + 1, key, ttl, network)
      ensures refused.None? && !settles ==> attempt + 1 < maxRetryAttempts && OnTheWay(before, attempt + 1, network)
    {
      refused := Acquire(operation);
      answer := network(attempt);
      settles := !Retryable(answer) || attempt + 1 >= maxRetryAttempts;
      if refused.Some? {
        telemetry := telemetry + RefusalEvents(refused.value, attempt);
      } else {
        Record(answer, key, ttl, attempt, settles);
      }
    }

    /** Either the cache answers and nothing is charged, or the request goes to the network. */
    method RequestJson(operation: Operation, key: string, ttl: real, network: nat -> Attempt<P>)
      returns (result: Result<P, Failure>, ghost made: nat, ghost refused: bool)
      requires Valid()
      modifies this`telemetry, this`paused, limiter, cache, limiter.clock
      ensures Valid() && made <= maxRetryAttempts
      ensures Charges() == old(Charges()) + made
      ensures made == 0 && !refused ==>
                && ttl > 0.0 && key in old(cache.entries).table && result == Ok(old(cache.entries).table[key].value)
                && telemetry == old(telemetry) + [Telemetry(0, 0, CacheHit)]
      ensures made > 0 && !refused ==> Settled(result, old(telemetry), made, key, ttl, network)
      ensures refused ==> operation.Fetch? && Refused(result, old(telemetry), made, network)
      ensures Waited(network, if refused || made == 0 then made else made - 1, old(limiter.clock.mono), old(paused))
      ensures ttl > 0.0 && key in old(cache.entries).table ==>
                limiter.clock.mono >= old(cache.entries).table[key].expiresAt || (made == 0 && !refused)
      ensures refused && result == Err(BadUrlCount) ==> !Fetchable(operation)
      ensures made > 0 ==> Fetchable(operation)
    {
      if ttl > 0.0 {
        var cached, _ := cache.Get(key);
        if cached.Some? {
          telemetry := telemetry + [Telemetry(0, 0, CacheHit)];
          return Ok(cached.value), 0, false;
        }
      }
      result, made, refused := SendWithRetries(operation, key, ttl, network);
    }

    /** The request was settled by its last attempt; everything before it was worth retrying, each
        attempt was reported by the rules of `EventsOf`, and a success is cached for the next caller. */
    ghost predicate Settled(result: Result<P, Failure>, before: seq<Telemetry>, made: nat, key: string, ttl: real,
                            network: nat -> Attempt<P>)
      requires made > 0 && maxRetryAttempts > 0
      reads this, cache
    {
      var k := made - 1;
      && k == Settling(network, 0, maxRetryAttempts)
      && result == ResultOf(network(k))
      && telemetry == before + (EventsBefore(network, k) + EventsOf(network(k), k, true))
      && (result.Ok? && ttl > 0.0 ==> key in cache.entries.table && cache.entries.table[key].value == result.value)
    }

    /** The limiter refused to charge the attempt after the `made` ones, none of which settled the request. */
    ghost predicate Refused(result: Result<P, Failure>, before: seq<Telemetry>, made: nat, network: nat -> Attempt<P>)
      reads this
    {
      && result.Err?
      && made < maxRetryAttempts && made <= Settling(network, 0, maxRetryAttempts)
      && telemetry == before + (EventsBefore(network, made) + RefusalEvents(result.error, made))
    }

    /** Each attempt is charged before it is made; the loop ends with the first attempt that settles the
        request, or when the limiter refuses. It never runs out of attempts without an answer. */
    method SendWithRetries(operation: Operation, key: string, ttl: real, network: nat -> Attempt<P>)
      returns (result: Result<P, Failure>, ghost made: nat, ghost refused: bool)
      requires Valid()
      modifies this`telemetry, this`paused, limiter, cache, limiter.clock
      ensures Valid() && made <= maxRetryAttempts && (made == 0 ==> refused)
      ensures Charges() == old(Charges()) + made
      ensures made > 0 && !refused ==> Settled(result, old(telemetry), made, key, ttl, network)
      ensures refused ==> operation.Fetch? && Refused(result, old(telemetry), made, network)
      ensures Waited(network, if refused then made else made - 1, old(limiter.clock.mono), old(paused))
      ensures refused && result == Err(BadUrlCount) <==> !Fetchable(operation)
      ensures refused && result == Err(EmptyDequeIndexed) ==> operation.urlCount > limiter.policy.fetchUrlsPerMinute
      ensures made > 0 ==> Fetchable(operation)
    {
      made, refused := 0, false;
      var attempt := 0;
      while attempt < maxRetryAttempts
        invariant 0 <= attempt < maxRetryAttempts && Valid()
        invariant Charges() == old(Charges()) + attempt
        invariant OnTheWay(old(telemetry), attempt, network)
        invariant Waited(network, attempt, old(limiter.clock.mono), old(paused))
        invariant attempt > 0 ==> Fetchable(operation)
      {
        var refusal, answer, settles := Try(operation, key, ttl, attempt, network, old(telemetry));
        if refusal.Some? {
          return Err(refusal.value), attempt, true;
        }
        if settles {
          return ResultOf(answer), attempt + 1, false;
        }
        Pause(RetryDelay(answer, attempt));
        attempt := attempt + 1;
      }
      assert false;  // the last allowed attempt always returns
      result := Err(Provider(Unclassified));
    }

    method Pause(delay: real)
      requires Valid() && delay >= 0.0
      modifies this`paused, limiter.clock
      ensures Valid() && limiter.clock.mono >= old(limiter.clock.mono) + delay
      ensures limiter.clock.naps == old(limiter.clock.naps) + [Nap(old(limiter.clock.mono), delay)]
      ensures paused == old(paused) + delay
    {
      limiter.clock.Sleep(delay);
      paused := paused + delay;
    }
  }
}
