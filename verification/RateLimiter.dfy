/** Sliding-window limiter for the search and fetch budgets.

    The deques hold only recent grants; a ghost history holds every grant ever made. The invariant
    says that each deque is exactly the unexpired part of the history at the latest prune, and that
    the history is paced: no grant was made while its trailing window was full. `WindowBound` turns
    pacing into the promise that matters: no half-open window of the given width, wherever it
    starts, holds more units than its budget. */
module RateLimiter {
  import opened Clocks

  datatype Stamp = Stamp(at: real, units: nat)

  datatype FetchGrant = FetchGrant(at: real, wallAt: real, units: nat)

  /** Everything granted so far, oldest grants innermost. */
  datatype History<T> = Start | Then(earlier: History<T>, latest: T)

  /** A budget of at most `limit` units in any stretch of time of the given width. */
  datatype Window = Window(width: real, limit: int)

  datatype Policy = Policy(searchPerMinute: int, searchPerHour: int, fetchUrlsPerMinute: int, fetchUrlsPerDay: int,
                           maxRetryAttempts: int)
  {
    /** What the policy's own constructor insists on: every limit is positive. */
    predicate Accepted() {
      searchPerMinute > 0 && searchPerHour > 0 && fetchUrlsPerMinute > 0 && fetchUrlsPerDay > 0 && maxRetryAttempts > 0
    }

    function SearchMinute(): Window { Window(MINUTE, searchPerMinute) }

    function SearchHour(): Window { Window(HOUR, searchPerHour) }

    function FetchMinute(): Window { Window(MINUTE, fetchUrlsPerMinute) }

    function FetchDay(): Window { Window(DAY, fetchUrlsPerDay) }
  }

  /** A policy is accepted if and only if each of its limits admits something. */
  lemma AcceptedIff(policy: Policy)
    ensures policy.Accepted()
            <==> policy.searchPerMinute >= 1 && policy.searchPerHour >= 1 && policy.fetchUrlsPerMinute >= 1
                 && policy.fetchUrlsPerDay >= 1 && policy.maxRetryAttempts >= 1
  {
  }

  const MINUTE := 60.0
  const HOUR := 3600.0
  const DAY := 86400.0

  function Larger(x: real, y: real): real {
    if x >= y then x else y
  }

  function Smaller(x: real, y: real): real {
    if x <= y then x else y
  }

  // ---------- histories and windows ----------

  /** The grants still counted at time `now`: those younger than `width`, oldest first. */
  function Unexpired(log: History<Stamp>, now: real, width: real): seq<Stamp> {
    match log
    case Start => []
    case Then(earlier, latest) =>
      var kept := Unexpired(earlier, now, width);
      if now - latest.at < width then kept + [latest] else kept
  }

  /** The units of the grants still counted at time `now`. */
  ghost function Load(log: History<Stamp>, now: real, width: real): nat {
    match log
    case Start => 0
    case Then(earlier, latest) =>
      Load(earlier, now, width) + if now - latest.at < width then latest.units else 0
  }

  /** Units granted in the half-open window of the given width that starts at `a`. */
  ghost function UnitsIn(log: History<Stamp>, a: real, width: real): nat {
    match log
    case Start => 0
    case Then(earlier, latest) =>
      UnitsIn(earlier, a, width) + if a <= latest.at < a + width then latest.units else 0
  }

  ghost predicate NotAfter(log: History<Stamp>, now: real) {
    match log
    case Start => true
    case Then(_, latest) => latest.at <= now
  }

  ghost predicate Sorted(log: History<Stamp>) {
    match log
    case Start => true
    case Then(earlier, latest) => Sorted(earlier) && NotAfter(earlier, latest.at)
  }

  /** Each grant, together with the grants still unexpired when it was made, fits the budget. */
  ghost predicate Paced(log: History<Stamp>, width: real, limit: int) {
    match log
    case Start => true
    case Then(earlier, latest) => Paced(earlier, width, limit) && Load(log, latest.at, width) <= limit
  }

  lemma {:induction false} WindowWithinLoad(log: History<Stamp>, a: real, now: real, width: real)
    requires now < a + width
    ensures UnitsIn(log, a, width) <= Load(log, now, width)
  {
    match log
    case Start =>
    case Then(earlier, _) => WindowWithinLoad(earlier, a, now, width);
  }

  /** Pacing bounds every window, wherever it starts. */
  lemma {:induction false} WindowBound(log: History<Stamp>, width: real, limit: nat, a: real)
    requires Paced(log, width, limit)
    ensures UnitsIn(log, a, width) <= limit
  {
    match log
    case Start =>
    case Then(earlier, latest) =>
      if a <= latest.at < a + width {
        WindowWithinLoad(log, a, latest.at, width);
      } else {
        WindowBound(earlier, width, limit, a);
      }
  }

  /** No counted grant lies before `a`. */
  ghost predicate StartsBy(log: History<Stamp>, a: real, now: real, width: real) {
    match log
    case Start => true
    case Then(earlier, latest) => StartsBy(earlier, a, now, width) && (now - latest.at < width ==> a <= latest.at)
  }

  lemma {:induction false} StartsByEarlier(log: History<Stamp>, a: real, b: real, now: real, width: real)
    requires StartsBy(log, b, now, width) && a <= b
    ensures StartsBy(log, a, now, width)
  {
    match log
    case Start =>
    case Then(earlier, _) => StartsByEarlier(earlier, a, b, now, width);
  }

  lemma {:induction false} LoadWithinWindow(log: History<Stamp>, a: real, now: real, width: real)
    requires Sorted(log) && NotAfter(log, now) && now < a + width && StartsBy(log, a, now, width)
    ensures Load(log, now, width) <= UnitsIn(log, a, width)
  {
    match log
    case Start =>
    case Then(earlier, _) => LoadWithinWindow(earlier, a, now, width);
  }

  /** Some window of the given width contains everything unexpired at `now`. */
  lemma {:induction false} WindowCovering(log: History<Stamp>, now: real, width: real) returns (a: real)
    requires Sorted(log) && NotAfter(log, now) && width > 0.0
    ensures now - width < a <= now && StartsBy(log, a, now, width)
    ensures Load(log, now, width) <= UnitsIn(log, a, width)
  {
    match log
    case Start => a := now;
    case Then(earlier, latest) =>
      var b := WindowCovering(earlier, now, width);
      a := if now - latest.at < width then Smaller(b, latest.at) else b;
      StartsByEarlier(earlier, a, b, now, width);
      LoadWithinWindow(log, a, now, width);
  }

  /** Nothing weaker than pacing does: a history whose every window keeps the budget is paced. */
  lemma {:induction false} BoundedWindowsArePaced(log: History<Stamp>, width: real, limit: nat)
    requires Sorted(log) && width > 0.0
    requires forall a :: UnitsIn(log, a, width) <= limit
    ensures Paced(log, width, limit)
  {
    match log
    case Start =>
    case Then(earlier, latest) =>
      assert forall a :: UnitsIn(earlier, a, width) <= UnitsIn(log, a, width);
      BoundedWindowsArePaced(earlier, width, limit);
      var a := WindowCovering(log, latest.at, width);
  }

  // ---------- popping a deque ----------

  function Units(deque: seq<Stamp>): nat {
    if deque == [] then 0 else deque[0].units + Units(deque[1..])
  }

  /** A deque after its head has been popped for as long as it has expired. */
  function Popped(deque: seq<Stamp>, now: real, width: real): seq<Stamp> {
    if deque != [] && now - deque[0].at >= width then Popped(deque[1..], now, width) else deque
  }

  lemma {:induction false} NothingUnexpired(log: History<Stamp>, now: real, width: real)
    requires Sorted(log) && NotAfter(log, now - width)
    ensures Unexpired(log, now, width) == []
  {
    match log
    case Start =>
    case Then(earlier, _) => NothingUnexpired(earlier, now, width);
  }

  lemma {:induction false} PoppedSnoc(deque: seq<Stamp>, x: Stamp, now: real, width: real)
    ensures now - x.at < width ==> Popped(deque + [x], now, width) == Popped(deque, now, width) + [x]
    ensures now - x.at >= width && Popped(deque, now, width) == [] ==> Popped(deque + [x], now, width) == []
  {
    if deque != [] {
      assert (deque + [x])[1..] == deque[1..] + [x];
      PoppedSnoc(deque[1..], x, now, width);
    } else {
      assert deque + [x] == [x] && [x][1..] == [];
    }
  }

  /** Popping expired heads leaves exactly the unexpired grants, because grants are in time order. */
  lemma {:induction false} PoppedIsUnexpired(log: History<Stamp>, pruned: real, now: real, width: real)
    requires Sorted(log) && pruned <= now
    ensures Popped(Unexpired(log, pruned, width), now, width) == Unexpired(log, now, width)
  {
    match log
    case Start =>
    case Then(earlier, latest) =>
      PoppedIsUnexpired(earlier, pruned, now, width);
      if now - latest.at >= width {
        NothingUnexpired(earlier, now, width);
      }
      PoppedSnoc(Unexpired(earlier, pruned, width), latest, now, width);
  }

  lemma {:induction false} PoppedSmaller(deque: seq<Stamp>, now: real, width: real)
    ensures |Popped(deque, now, width)| <= |deque| && Units(Popped(deque, now, width)) <= Units(deque)
  {
    if deque != [] && now - deque[0].at >= width {
      PoppedSmaller(deque[1..], now, width);
    }
  }

  lemma {:induction false} UnitsSnoc(deque: seq<Stamp>, x: Stamp)
    ensures Units(deque + [x]) == Units(deque) + x.units
  {
    if deque != [] {
      assert (deque + [x])[1..] == deque[1..] + [x];
      UnitsSnoc(deque[1..], x);
    } else {
      assert deque + [x] == [x] && [x][1..] == [];
    }
  }

  lemma {:induction false} LoadIsUnits(log: History<Stamp>, now: real, width: real)
    ensures Load(log, now, width) == Units(Unexpired(log, now, width))
  {
    match log
    case Start =>
    case Then(earlier, latest) =>
      LoadIsUnits(earlier, now, width);
      UnitsSnoc(Unexpired(earlier, now, width), latest);
  }

  /** Every grant is for one unit, as all search grants are. */
  ghost predicate Singles(log: History<Stamp>) {
    match log
    case Start => true
    case Then(earlier, latest) => Singles(earlier) && latest.units == 1
  }

  lemma {:induction false} SinglesCount(log: History<Stamp>, now: real, width: real)
    requires Singles(log)
    ensures Load(log, now, width) == |Unexpired(log, now, width)|
  {
    match log
    case Start =>
    case Then(earlier, _) => SinglesCount(earlier, now, width);
  }

  /** As time passes, fewer grants count. */
  lemma CountsFall(log: History<Stamp>, now: real, later: real, width: real)
    requires Sorted(log) && now <= later
    ensures |Unexpired(log, later, width)| <= |Unexpired(log, now, width)|
    ensures Load(log, later, width) <= Load(log, now, width)
  {
    PoppedIsUnexpired(log, now, later, width);
    PoppedSmaller(Unexpired(log, now, width), later, width);
    LoadIsUnits(log, now, width);
    LoadIsUnits(log, later, width);
  }

  /** Waiting until the oldest counted grant expires leaves strictly fewer counted grants. */
  lemma OldestExpires(log: History<Stamp>, now: real, later: real, width: real)
    requires Sorted(log) && now <= later
    requires Unexpired(log, now, width) != [] && later - Unexpired(log, now, width)[0].at >= width
    ensures |Unexpired(log, later, width)| < |Unexpired(log, now, width)|
  {
    PoppedIsUnexpired(log, now, later, width);
    PoppedSmaller(Unexpired(log, now, width)[1..], later, width);
  }

  /** Until its oldest grant expires, a window counts what it counted before. */
  lemma HeadStays(log: History<Stamp>, pruned: real, later: real, width: real)
    requires Sorted(log) && pruned <= later
    requires Unexpired(log, pruned, width) != [] && later - Unexpired(log, pruned, width)[0].at < width
    ensures Unexpired(log, later, width) == Unexpired(log, pruned, width)
  {
    PoppedIsUnexpired(log, pruned, later, width);
  }

  /** Whichever full window the sleep was measured against, its oldest grant is gone afterwards. */
  lemma SomeHeadExpired(log: History<Stamp>, pruned: real, now: real, minute: seq<Stamp>, hour: seq<Stamp>,
                        minuteFull: bool)
    requires Sorted(log) && pruned <= now
    requires minute == Unexpired(log, pruned, MINUTE) && hour == Unexpired(log, pruned, HOUR)
    requires if minuteFull then minute != [] && now - minute[0].at >= MINUTE else hour != [] && now - hour[0].at >= HOUR
    ensures |Unexpired(log, now, MINUTE)| + |Unexpired(log, now, HOUR)| < |minute| + |hour|
  {
    CountsFall(log, pruned, now, MINUTE);
    CountsFall(log, pruned, now, HOUR);
    if minuteFull {
      OldestExpires(log, pruned, now, MINUTE);
    } else {
      OldestExpires(log, pruned, now, HOUR);
    }
  }

  // ---------- what a deque knows about its history ----------

  /** `deque` is exactly what was unexpired in `log` at `pruned`, and `log` kept to its budget. */
  ghost predicate Tracks(deque: seq<Stamp>, log: History<Stamp>, pruned: real, window: Window) {
    match window
    case Window(width, limit) =>
      Sorted(log) && deque == Unexpired(log, pruned, width) && Paced(log, width, limit)
  }

  /** A grant that fits next to the counted ones keeps the deque in step with the history. */
  lemma GrantTracks(deque: seq<Stamp>, log: History<Stamp>, pruned: real, grant: Stamp, window: Window)
    requires Tracks(deque, log, pruned, window) && window.width > 0.0
    requires pruned <= grant.at && NotAfter(log, grant.at)
    requires Units(deque) + grant.units <= window.limit
    ensures Tracks(deque + [grant], Then(log, grant), pruned, window)
  {
    CountsFall(log, pruned, grant.at, window.width);
    LoadIsUnits(log, pruned, window.width);
  }

  // ---------- the limiter ----------

  function MinuteStamps(log: History<FetchGrant>): History<Stamp> {
    match log
    case Start => Start
    case Then(earlier, grant) => Then(MinuteStamps(earlier), Stamp(grant.at, grant.units))
  }

  function DayStamps(log: History<FetchGrant>): History<Stamp> {
    match log
    case Start => Start
    case Then(earlier, grant) => Then(DayStamps(earlier), Stamp(grant.wallAt, grant.units))
  }

  /** A search would fit both windows at this time. */
  ghost predicate SearchRoom(log: History<Stamp>, t: real, policy: Policy) {
    |Unexpired(log, t, 60.0)| < policy.searchPerMinute && |Unexpired(log, t, 3600.0)| < policy.searchPerHour
  }

  /** The sleep is for a hundredth of a second at most, or does not go beyond any time at which there is room. */
  ghost predicate SearchPunctual(nap: Nap, log: History<Stamp>, policy: Policy) {
    nap.seconds <= 0.01
    || forall t :: nap.asked <= t && SearchRoom(log, t, policy) ==> nap.asked + nap.seconds <= t
  }

  /** The URLs would fit the minute's window at this time. */
  ghost predicate FetchRoom(log: History<Stamp>, t: real, urlCount: int, policy: Policy) {
    Load(log, t, 60.0) + urlCount <= policy.fetchUrlsPerMinute
  }

  /** From the reading `now` on, the sleep is for a hundredth of a second at most, or does not go beyond any time at
      which there is room. */
  ghost predicate FetchPunctual(nap: Nap, now: real, log: History<Stamp>, urlCount: int, policy: Policy) {
    now <= nap.asked
    && (nap.seconds <= 0.01
        || forall t :: now <= t && FetchRoom(log, t, urlCount, policy) ==> now + nap.seconds <= t)
  }

  /** When the sleep before number `i` was over, or the time at which they began. */
  ghost function WokenBy(naps: seq<Nap>, first: nat, start: real, i: nat): real
    requires i <= |naps|
  {
    if i <= first then start else naps[i - 1].asked + naps[i - 1].seconds
  }

  /** The sleep is punctual by a reading taken since the given time. */
  ghost predicate Timely(nap: Nap, since: real, log: History<Stamp>, urlCount: int, policy: Policy) {
    exists now :: since <= now && FetchPunctual(nap, now, log, urlCount, policy)
  }

  /** Every sleep is punctual by a reading taken after the one before it. */
  ghost predicate FetchNaps(naps: seq<Nap>, first: nat, start: real, log: History<Stamp>, urlCount: int, policy: Policy)
  {
    forall i :: first <= i < |naps| ==> Timely(naps[i], WokenBy(naps, first, start, i), log, urlCount, policy)
  }

  lemma OneMoreNap(naps: seq<Nap>, first: nat, start: real, log: History<Stamp>, urlCount: int, policy: Policy,
                   nap: Nap, now: real)
    requires FetchNaps(naps, first, start, log, urlCount, policy) && first <= |naps|
    requires WokenBy(naps, first, start, |naps|) <= now && FetchPunctual(nap, now, log, urlCount, policy)
    ensures FetchNaps(naps + [nap], first, start, log, urlCount, policy)
  {
    var more := naps + [nap];
    forall i | first <= i < |more|
      ensures Timely(more[i], WokenBy(more, first, start, i), log, urlCount, policy)
    {
      assert WokenBy(more, first, start, i) == WokenBy(naps, first, start, i);
      if i < |naps| {
        assert more[i] == naps[i];
      }
    }
  }

  /** The least of the waits for the full windows is punctual. */
  lemma SearchWaitIsPunctual(log: History<Stamp>, pruned: real, minute: seq<Stamp>, hour: seq<Stamp>, nap: Nap,
                             policy: Policy)
    requires Sorted(log) && pruned <= nap.asked && policy.Accepted()
    requires minute == Unexpired(log, pruned, MINUTE) && hour == Unexpired(log, pruned, HOUR)
    requires |minute| >= policy.searchPerMinute || |hour| >= policy.searchPerHour
    requires |minute| >= policy.searchPerMinute ==> nap.seconds <= Larger(0.01, 60.0 - (nap.asked - minute[0].at))
    requires |hour| >= policy.searchPerHour ==> nap.seconds <= Larger(0.01, 3600.0 - (nap.asked - hour[0].at))
    ensures SearchPunctual(nap, log, policy)
  {
    forall t | nap.asked <= t && SearchRoom(log, t, policy) && nap.seconds > 0.01
      ensures nap.asked + nap.seconds <= t
    {
      if |minute| >= policy.searchPerMinute && t - minute[0].at < MINUTE {
        HeadStays(log, pruned, t, MINUTE);
      }
      if |hour| >= policy.searchPerHour && t - hour[0].at < HOUR {
        HeadStays(log, pruned, t, HOUR);
      }
    }
  }

  lemma FetchWaitIsPunctual(log: History<Stamp>, pruned: real, minute: seq<Stamp>, nap: Nap, now: real,
                            urlCount: int, policy: Policy)
    requires Sorted(log) && pruned <= now <= nap.asked && minute == Unexpired(log, pruned, MINUTE) && minute != []
    requires Units(minute) + urlCount > policy.fetchUrlsPerMinute
    requires nap.seconds <= Larger(0.01, 60.0 - (now - minute[0].at))
    ensures FetchPunctual(nap, now, log, urlCount, policy)
  {
    forall t | now <= t && FetchRoom(log, t, urlCount, policy) && nap.seconds > 0.01
      ensures now + nap.seconds <= t
    {
      LoadIsUnits(log, t, MINUTE);
      if t - minute[0].at < MINUTE {
        HeadStays(log, pruned, t, MINUTE);
      }
    }
  }

  /** The results of a fetch request: granted, or one of the three exceptions it can raise. */
  datatype FetchOutcome = Granted | BadUrlCount | QuotaExceeded | EmptyDequeIndexed

  class TinyFishRateLimiter {
    const policy: Policy
    const clock: Clock
    var searchMinute: seq<Stamp>
    var searchHour: seq<Stamp>
    var fetchMinute: seq<Stamp>
    var fetchDay: seq<Stamp>
    ghost var searchLog: History<Stamp>
    ghost var fetchLog: History<FetchGrant>
    ghost var prunedAt: real
    ghost var prunedWallAt: real

    ghost predicate Valid()
      reads this, clock
    {
      && policy.Accepted()
      && Singles(searchLog)
      && prunedAt <= clock.mono && prunedWallAt <= clock.wall
      && NotAfter(searchLog, clock.mono)
      && NotAfter(MinuteStamps(fetchLog), clock.mono)
      && NotAfter(DayStamps(fetchLog), clock.wall)
      && Tracks(searchMinute, searchLog, prunedAt, policy.SearchMinute())
      && Tracks(searchHour, searchLog, prunedAt, policy.SearchHour())
      && Tracks(fetchMinute, MinuteStamps(fetchLog), prunedAt, policy.FetchMinute())
      && Tracks(fetchDay, DayStamps(fetchLog), prunedWallAt, policy.FetchDay())
    }

    constructor (policy: Policy, clock: Clock)
      requires policy.Accepted()
      ensures Valid() && this.policy == policy && this.clock == clock
      ensures searchLog == Start && fetchLog == Start
    {
      this.policy, this.clock := policy, clock;
      searchMinute, searchHour, fetchMinute, fetchDay := [], [], [], [];
      searchLog, fetchLog := Start, Start;
      prunedAt, prunedWallAt := clock.mono, clock.wall;
    }

    /** Pop a deque's head while it has expired: what stays is the part of its log unexpired at `now`. */
    static method PopExpired(deque: seq<Stamp>, now: real, window: Window, ghost log: History<Stamp>,
                             ghost pruned: real)
      returns (kept: seq<Stamp>)
      requires Tracks(deque, log, pruned, window) && pruned <= now && NotAfter(log, now)
      ensures Tracks(kept, log, now, window)
    {
      PoppedIsUnexpired(log, pruned, now, window.width);
      kept := deque;
      while kept != [] && now - kept[0].at >= window.width
        invariant Popped(kept, now, window.width) == Popped(deque, now, window.width)
        decreases |kept|
      {
        kept := kept[1..];
      }
    }

    /** After a prune each deque is exactly the part of its log that is unexpired at the readings taken. */
    method Prune()
      requires Valid()
      modifies this, clock
      ensures Valid() && searchLog == old(searchLog) && fetchLog == old(fetchLog)
      ensures old(clock.mono) <= prunedAt && old(clock.wall) <= prunedWallAt
      ensures clock.naps == old(clock.naps)
    {
      var now := clock.Monotonic();
      var wallNow := clock.Wall();
      searchMinute := PopExpired(searchMinute, now, policy.SearchMinute(), searchLog, prunedAt);
      searchHour := PopExpired(searchHour, now, policy.SearchHour(), searchLog, prunedAt);
      fetchMinute := PopExpired(fetchMinute, now, policy.FetchMinute(), MinuteStamps(fetchLog), prunedAt);
      fetchDay := PopExpired(fetchDay, wallNow, policy.FetchDay(), DayStamps(fetchLog), prunedWallAt);
      prunedAt, prunedWallAt := now, wallNow;
    }

    method GrantSearch(now: real)
      requires Valid() && now == clock.mono
      requires |searchMinute| < policy.searchPerMinute && |searchHour| < policy.searchPerHour
      modifies this
      ensures Valid() && searchLog == Then(old(searchLog), Stamp(now, 1)) && fetchLog == old(fetchLog)
    {
      var grant := Stamp(now, 1);
      SinglesCount(searchLog, prunedAt, MINUTE);
      LoadIsUnits(searchLog, prunedAt, MINUTE);
      SinglesCount(searchLog, prunedAt, HOUR);
      LoadIsUnits(searchLog, prunedAt, HOUR);
      GrantTracks(searchMinute, searchLog, prunedAt, grant, policy.SearchMinute());
      GrantTracks(searchHour, searchLog, prunedAt, grant, policy.SearchHour());
      searchMinute := searchMinute + [grant];
      searchHour := searchHour + [grant];
      searchLog := Then(searchLog, grant);
    }

    /** Waits until a search fits both windows, then grants exactly one. Terminates because every
        sleep outlasts a counted grant. A limiter with room in both windows does not sleep. */
    method AcquireSearch() returns (ghost at: real)
      requires Valid()
      modifies this, clock
      ensures Valid() && fetchLog == old(fetchLog)
      ensures old(clock.mono) <= at <= clock.mono && old(clock.wall) <= clock.wall
      ensures searchLog == Then(old(searchLog), Stamp(at, 1))
      ensures |Unexpired(old(searchLog), old(clock.mono), MINUTE)| < policy.searchPerMinute
              && |Unexpired(old(searchLog), old(clock.mono), HOUR)| < policy.searchPerHour
              ==> clock.naps == old(clock.naps)
      ensures old(clock.naps) <= clock.naps
      ensures forall i :: |old(clock.naps)| <= i < |clock.naps| ==>
                SearchPunctual(clock.naps[i], old(searchLog), policy)
    {
      ghost var start := clock.mono;
      while true
        invariant Valid() && searchLog == old(searchLog) && fetchLog == old(fetchLog)
        invariant start <= clock.mono && old(clock.wall) <= clock.wall
        invariant old(clock.naps) <= clock.naps
        invariant forall i :: |old(clock.naps)| <= i < |clock.naps| ==>
                    SearchPunctual(clock.naps[i], searchLog, policy)
        invariant clock.naps == old(clock.naps)
                  || |Unexpired(searchLog, start, MINUTE)| >= policy.searchPerMinute
                  || |Unexpired(searchLog, start, HOUR)| >= policy.searchPerHour
        decreases |Unexpired(searchLog, clock.mono, MINUTE)| + |Unexpired(searchLog, clock.mono, HOUR)|
      {
        ghost var before := clock.mono;
        Prune();
        CountsFall(searchLog, start, prunedAt, MINUTE);
        CountsFall(searchLog, start, prunedAt, HOUR);
        CountsFall(searchLog, before, prunedAt, MINUTE);
        CountsFall(searchLog, before, prunedAt, HOUR);
        var now := clock.Monotonic();
        var waits: seq<real> := [];
        if |searchMinute| >= policy.searchPerMinute {
          waits := waits + [Larger(0.01, 60.0 - (now - searchMinute[0].at))];
        }
        if |searchHour| >= policy.searchPerHour {
          waits := waits + [Larger(0.01, 3600.0 - (now - searchHour[0].at))];
        }
        if waits == [] {
          GrantSearch(now);
          at := now;
          return;
        }
        var wait := if |waits| == 2 then Smaller(waits[0], waits[1]) else waits[0];
        SearchWaitIsPunctual(searchLog, prunedAt, searchMinute, searchHour, Nap(now, wait), policy);
        clock.Sleep(wait);
        SomeHeadExpired(searchLog, prunedAt, clock.mono, searchMinute, searchHour,
                        |searchMinute| >= policy.searchPerMinute && now + wait - searchMinute[0].at >= MINUTE);
      }
    }

    method GrantFetch(now: real, wallNow: real, urlCount: nat)
      requires Valid() && prunedAt <= now <= clock.mono && wallNow == clock.wall
      requires NotAfter(MinuteStamps(fetchLog), now)
      requires Units(fetchMinute) + urlCount <= policy.fetchUrlsPerMinute
      requires Units(fetchDay) + urlCount <= policy.fetchUrlsPerDay
      modifies this
      ensures Valid() && searchLog == old(searchLog)
      ensures fetchLog == Then(old(fetchLog), FetchGrant(now, wallNow, urlCount))
    {
      var minuteStamp, dayStamp := Stamp(now, urlCount), Stamp(wallNow, urlCount);
      GrantTracks(fetchMinute, MinuteStamps(fetchLog), prunedAt, minuteStamp, policy.FetchMinute());
      GrantTracks(fetchDay, DayStamps(fetchLog), prunedWallAt, dayStamp, policy.FetchDay());
      fetchMinute := fetchMinute + [minuteStamp];
      fetchDay := fetchDay + [dayStamp];
      fetchLog := Then(fetchLog, FetchGrant(now, wallNow, urlCount));
    }

    /** Sleeps until the oldest URL of the minute's window has expired. */
    method AwaitMinute(now: real, ghost urlCount: int)
      requires Valid() && prunedAt <= now <= clock.mono && fetchMinute != []
      requires Units(fetchMinute) + urlCount > policy.fetchUrlsPerMinute
      modifies clock
      ensures Valid() && old(clock.mono) <= clock.mono && old(clock.wall) <= clock.wall
      ensures |clock.naps| == |old(clock.naps)| + 1 && clock.naps == old(clock.naps) + [clock.naps[|old(clock.naps)|]]
      ensures var nap := clock.naps[|old(clock.naps)|];
              && FetchPunctual(nap, now, MinuteStamps(fetchLog), urlCount, policy)
              && nap.asked + nap.seconds <= clock.mono
      ensures |Unexpired(MinuteStamps(fetchLog), clock.mono, MINUTE)| < |fetchMinute|
    {
      var wait := Larger(0.01, 60.0 - (now - fetchMinute[0].at));
      FetchWaitIsPunctual(MinuteStamps(fetchLog), prunedAt, fetchMinute, Nap(clock.mono, wait), now, urlCount, policy);
      clock.Sleep(wait);
      OldestExpires(MinuteStamps(fetchLog), prunedAt, clock.mono, MINUTE);
    }

    /** Waits until `urlCount` URLs fit the minute window, then grants them, unless the day budget is
        exhausted. The read of the minute deque's head fails only for a request larger than a whole
        minute's budget, and such a request is never granted. The day budget is judged at the reading
        `dayAt`; a request that fits it on arrival is never turned away by it. */
    method AcquireFetch(urlCount: int)
      returns (outcome: FetchOutcome, ghost at: real, ghost wallAt: real, ghost dayAt: real)
      requires Valid()
      modifies this, clock
      ensures Valid() && searchLog == old(searchLog)
      ensures old(clock.mono) <= at <= clock.mono && old(clock.wall) <= wallAt <= clock.wall
      ensures outcome == BadUrlCount <==> !(1 <= urlCount <= 10)
      ensures outcome == Granted ==> urlCount >= 0 && fetchLog == Then(old(fetchLog), FetchGrant(at, wallAt, urlCount))
      ensures outcome != Granted ==> fetchLog == old(fetchLog)
      ensures old(clock.wall) <= dayAt <= wallAt
      ensures old(clock.naps) <= clock.naps
      ensures FetchNaps(clock.naps, |old(clock.naps)|, old(clock.mono), MinuteStamps(old(fetchLog)), urlCount, policy)
      ensures outcome == QuotaExceeded <==>
                1 <= urlCount <= 10 && Load(DayStamps(old(fetchLog)), dayAt, DAY) + urlCount > policy.fetchUrlsPerDay
      ensures Load(DayStamps(old(fetchLog)), old(clock.wall), DAY) + urlCount <= policy.fetchUrlsPerDay ==>
                outcome != QuotaExceeded
      ensures 1 <= urlCount <= 10 && outcome != QuotaExceeded ==>
                (outcome == Granted <==> urlCount <= policy.fetchUrlsPerMinute)
    {
      at, wallAt, dayAt := clock.mono, clock.wall, clock.wall;
      if !(1 <= urlCount <= 10) {
        return BadUrlCount, at, wallAt, dayAt;
      }
      while true
        invariant Valid() && searchLog == old(searchLog) && fetchLog == old(fetchLog)
        invariant old(clock.mono) <= clock.mono && old(clock.wall) <= clock.wall
        invariant old(clock.naps) <= clock.naps
        invariant FetchNaps(clock.naps, |old(clock.naps)|, old(clock.mono), MinuteStamps(fetchLog), urlCount, policy)
        invariant WokenBy(clock.naps, |old(clock.naps)|, old(clock.mono), |clock.naps|) <= clock.mono
        decreases |Unexpired(MinuteStamps(fetchLog), clock.mono, MINUTE)|
      {
        ghost var before := clock.mono;
        Prune();
        CountsFall(MinuteStamps(fetchLog), before, prunedAt, MINUTE);
        var now := clock.Monotonic();
        var wallNow := clock.Wall();
        var minuteTotal := Units(fetchMinute);
        var dayTotal := Units(fetchDay);
        dayAt := prunedWallAt;
        LoadIsUnits(DayStamps(fetchLog), dayAt, DAY);
        CountsFall(DayStamps(fetchLog), old(clock.wall), dayAt, DAY);
        if dayTotal + urlCount > policy.fetchUrlsPerDay {
          return QuotaExceeded, clock.mono, clock.wall, dayAt;
        }
        if minuteTotal + urlCount <= policy.fetchUrlsPerMinute {
          GrantFetch(now, wallNow, urlCount);
          return Granted, now, wallNow, dayAt;
        }
        if fetchMinute == [] {
          return EmptyDequeIndexed, clock.mono, clock.wall, dayAt;
        }
        ghost var naps := clock.naps;
        AwaitMinute(now, urlCount);
        OneMoreNap(naps, |old(clock.naps)|, old(clock.mono), MinuteStamps(fetchLog), urlCount, policy,
                   clock.naps[|naps|], now);
      }
    }

  }

  /** The promise of the whole limiter: in every state it can reach, every window keeps its budget. */
  lemma EveryWindowWithinBudget(limiter: TinyFishRateLimiter, a: real)
    requires limiter.Valid()
    ensures UnitsIn(limiter.searchLog, a, 60.0) <= limiter.policy.searchPerMinute
    ensures UnitsIn(limiter.searchLog, a, 3600.0) <= limiter.policy.searchPerHour
    ensures UnitsIn(MinuteStamps(limiter.fetchLog), a, 60.0) <= limiter.policy.fetchUrlsPerMinute
    ensures UnitsIn(DayStamps(limiter.fetchLog), a, 86400.0) <= limiter.policy.fetchUrlsPerDay
  {
    WindowBound(limiter.searchLog, MINUTE, limiter.policy.searchPerMinute, a);
    WindowBound(limiter.searchLog, HOUR, limiter.policy.searchPerHour, a);
    WindowBound(MinuteStamps(limiter.fetchLog), MINUTE, limiter.policy.fetchUrlsPerMinute, a);
    WindowBound(DayStamps(limiter.fetchLog), DAY, limiter.policy.fetchUrlsPerDay, a);
  }
}
