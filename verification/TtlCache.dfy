/** A bounded cache whose entries expire, kept in an ordered dictionary.

    `Contents` is the ordered dictionary: a table and the order of its keys, oldest first. The class
    performs the cache's operations on it and keeps a ghost history of what was stored. Two results
    matter: a hit returns what the history says was stored last, and a key just inserted or just hit
    survives any `maxEntries - 1` further operations on other keys. */
module TtlCache {
  import opened Wrappers
  import opened Clocks

  datatype Item<V> = Item(value: V, expiresAt: real)

  ghost predicate Distinct(order: seq<string>) {
    order == [] || (order[0] !in order[1..] && Distinct(order[1..]))
  }

  datatype Contents<V> = Contents(order: seq<string>, table: map<string, Item<V>>)
  {
    ghost predicate WellFormed() {
      Distinct(order) && (forall k :: k in order <==> k in table)
    }
  }

  /** `order` without the key `k`. */
  function Without(order: seq<string>, k: string): seq<string> {
    if order == [] then []
    else if order[0] == k then Without(order[1..], k)
    else [order[0]] + Without(order[1..], k)
  }

  /** How many keys are older than `k`. */
  function Position(order: seq<string>, k: string): nat {
    if order == [] || order[0] == k then 0 else 1 + Position(order[1..], k)
  }

  // ---------- the operations, on values ----------

  function Delete<V>(c: Contents<V>, k: string): Contents<V> {
    Contents(Without(c.order, k), c.table - {k})
  }

  function MoveToEnd<V>(c: Contents<V>, k: string): Contents<V> {
    Contents(Without(c.order, k) + [k], c.table)
  }

  function Evict<V>(c: Contents<V>, maxEntries: nat): Contents<V>
    requires maxEntries > 0
    decreases |c.order|
  {
    if |c.order| < maxEntries then c
    else Evict(Contents(c.order[1..], c.table - {c.order[0]}), maxEntries)
  }

  /** An existing key keeps its place, a new one goes to the end. */
  function Assign<V>(c: Contents<V>, k: string, item: Item<V>): Contents<V> {
    Contents(if k in c.table then c.order else c.order + [k], c.table[k := item])
  }

  function AfterGet<V>(c: Contents<V>, k: string, now: real): Contents<V> {
    if k !in c.table then c
    else if c.table[k].expiresAt <= now then Delete(c, k)
    else MoveToEnd(c, k)
  }

  function AfterSet<V>(c: Contents<V>, k: string, v: V, ttl: real, now: real, maxEntries: nat): Contents<V>
    requires maxEntries > 0
  {
    if ttl <= 0.0 then c else Assign(Evict(c, maxEntries), k, Item(v, now + ttl))
  }

  // ---------- the history of stores ----------

  datatype History<V> = Start | Stored(earlier: History<V>, key: string, item: Item<V>) | Cleared(earlier: History<V>)

  /** What was stored last under `k`, if anything was since the cache was last cleared. */
  ghost function LatestStore<V>(log: History<V>, k: string): Option<Item<V>> {
    match log
    case Start => None
    case Cleared(_) => None
    case Stored(earlier, key, item) => if key == k then Some(item) else LatestStore(earlier, k)
  }

  ghost predicate AgreesWith<V>(c: Contents<V>, log: History<V>) {
    forall k :: k in c.table ==> LatestStore(log, k) == Some(c.table[k])
  }

  // ---------- order lemmas ----------

  lemma {:induction false} WithoutMembers(order: seq<string>, k: string, x: string)
    ensures x in Without(order, k) <==> x in order && x != k
  {
    if order != [] {
      WithoutMembers(order[1..], k, x);
    }
  }

  lemma {:induction false} WithoutFacts(order: seq<string>, k: string)
    requires Distinct(order)
    ensures Distinct(Without(order, k))
    ensures |Without(order, k)| == |order| - if k in order then 1 else 0
  {
    if order != [] {
      WithoutFacts(order[1..], k);
      WithoutMembers(order[1..], k, order[0]);
      assert ([order[0]] + Without(order[1..], k))[1..] == Without(order[1..], k);
    }
  }

  lemma {:induction false} DistinctAppend(order: seq<string>, k: string)
    requires Distinct(order) && k !in order
    ensures Distinct(order + [k])
  {
    if order != [] {
      assert (order + [k])[1..] == order[1..] + [k];
      DistinctAppend(order[1..], k);
    } else {
      assert [k][1..] == [];
    }
  }

  lemma DeleteKeeps<V>(c: Contents<V>, k: string)
    requires c.WellFormed() && k in c.table
    ensures Delete(c, k).WellFormed() && |Delete(c, k).order| == |c.order| - 1
    ensures MoveToEnd(c, k).WellFormed() && |MoveToEnd(c, k).order| == |c.order|
  {
    WithoutFacts(c.order, k);
    forall x ensures x in Without(c.order, k) <==> x in c.order && x != k {
      WithoutMembers(c.order, k, x);
    }
    DistinctAppend(Without(c.order, k), k);
  }

  lemma {:induction false} AbsentWithout(order: seq<string>, k: string)
    requires k !in order
    ensures Without(order, k) == order
  {
    if order != [] {
      AbsentWithout(order[1..], k);
    }
  }

  /** Removing an older key moves `k` one place forward; removing a newer one does not. */
  lemma {:induction false} PositionWithout(order: seq<string>, k: string, removed: string)
    requires Distinct(order) && k in order && removed in order && removed != k
    ensures Position(Without(order, removed), k)
            == Position(order, k) - if Position(order, removed) < Position(order, k) then 1 else 0
  {
    if order[0] == removed {
      AbsentWithout(order[1..], removed);
    } else if order[0] != k {
      var rest := Without(order[1..], removed);
      assert ([order[0]] + rest)[1..] == rest;
      PositionWithout(order[1..], k, removed);
    }
  }

  lemma {:induction false} PositionAppend(order: seq<string>, k: string, x: string)
    ensures k in order ==> Position(order + [x], k) == Position(order, k) < |order|
    ensures k !in order ==> Position(order + [k], k) == |order|
  {
    if order != [] {
      assert (order + [x])[1..] == order[1..] + [x];
      assert (order + [k])[1..] == order[1..] + [k];
      PositionAppend(order[1..], k, x);
    } else {
      assert order + [k] == [k];
    }
  }

  lemma {:induction false} LastPosition(order: seq<string>)
    requires Distinct(order) && order != []
    ensures Position(order, order[|order| - 1]) == |order| - 1
  {
    if |order| > 1 {
      assert order[1..][|order| - 2] == order[|order| - 1];
      LastPosition(order[1..]);
    }
  }

  lemma EvictFacts<V>(c: Contents<V>, maxEntries: nat)
    requires c.WellFormed() && |c.order| <= maxEntries && maxEntries > 0
    ensures Evict(c, maxEntries) == if |c.order| < maxEntries then c else Contents(c.order[1..], c.table - {c.order[0]})
    ensures Evict(c, maxEntries).WellFormed() && |Evict(c, maxEntries).order| < maxEntries
    ensures Evict(c, maxEntries).table.Keys <= c.table.Keys
    ensures forall k :: k in Evict(c, maxEntries).table ==> Evict(c, maxEntries).table[k] == c.table[k]
  {
    if |c.order| == maxEntries {
      assert c.order == [c.order[0]] + c.order[1..];
    }
  }

  /** Every operation keeps the dictionary well formed and within its bound. */
  lemma GetKeeps<V>(c: Contents<V>, k: string, now: real)
    requires c.WellFormed()
    ensures AfterGet(c, k, now).WellFormed() && |AfterGet(c, k, now).order| <= |c.order|
    ensures AfterGet(c, k, now).table == if k in c.table && c.table[k].expiresAt <= now then c.table - {k} else c.table
  {
    if k in c.table {
      DeleteKeeps(c, k);
    }
  }

  lemma SetKeeps<V>(c: Contents<V>, k: string, v: V, ttl: real, now: real, maxEntries: nat)
    requires c.WellFormed() && |c.order| <= maxEntries && maxEntries > 0
    ensures AfterSet(c, k, v, ttl, now, maxEntries).WellFormed()
    ensures |AfterSet(c, k, v, ttl, now, maxEntries).order| <= maxEntries
    ensures ttl > 0.0 ==>
              && k in AfterSet(c, k, v, ttl, now, maxEntries).table
              && AfterSet(c, k, v, ttl, now, maxEntries).table[k] == Item(v, now + ttl)
    ensures forall x :: x in AfterSet(c, k, v, ttl, now, maxEntries).table && (x != k || ttl <= 0.0) ==>
              x in c.table && AfterSet(c, k, v, ttl, now, maxEntries).table[x] == c.table[x]
  {
    EvictFacts(c, maxEntries);
    var e := Evict(c, maxEntries);
    if k !in e.table {
      DistinctAppend(e.order, k);
    }
  }

  // ---------- survival ----------

  datatype Op<V> = Lookup(key: string, now: real) | Store(key: string, value: V, ttl: real, now: real)

  function Apply<V>(c: Contents<V>, op: Op<V>, maxEntries: nat): Contents<V>
    requires maxEntries > 0
  {
    match op
    case Lookup(k, now) => AfterGet(c, k, now)
    case Store(k, v, ttl, now) => AfterSet(c, k, v, ttl, now, maxEntries)
  }

  function Run<V>(c: Contents<V>, ops: seq<Op<V>>, maxEntries: nat): Contents<V>
    requires maxEntries > 0
    decreases |ops|
  {
    if ops == [] then c else Run(Apply(c, ops[0], maxEntries), ops[1..], maxEntries)
  }

  /** How many stores of other keys `k` can still sit through: the keys that would be evicted before
      it, plus the free slots. */
  function Potential<V>(c: Contents<V>, k: string, maxEntries: nat): int {
    Position(c.order, k) + maxEntries - |c.order|
  }

  /** An operation on another key costs `k` at most one unit of potential, and evicts it exactly when
      it is a store and none is left. */
  lemma StepPotential<V>(c: Contents<V>, op: Op<V>, k: string, maxEntries: nat)
    requires c.WellFormed() && |c.order| <= maxEntries && maxEntries > 0
    requires k in c.table && op.key != k
    ensures var d := Apply(c, op, maxEntries);
            && d.WellFormed() && |d.order| <= maxEntries
            && (k in d.table <==> Potential(c, k, maxEntries) > 0 || op.Lookup? || op.ttl <= 0.0)
            && (k in d.table ==> d.table[k] == c.table[k])
            && (k in d.table ==> Potential(d, k, maxEntries) >= Potential(c, k, maxEntries) - 1)
  {
    PositionAppend(c.order, k, op.key);
    match op
    case Lookup(other, now) =>
      GetKeeps(c, other, now);
      if other in c.table {
        WithoutMembers(c.order, other, k);
        PositionWithout(c.order, k, other);
        PositionAppend(Without(c.order, other), k, other);
      }
    case Store(other, v, ttl, now) =>
      SetKeeps(c, other, v, ttl, now, maxEntries);
      EvictFacts(c, maxEntries);
      if ttl > 0.0 {
        var e := Evict(c, maxEntries);
        if k in e.table {
          assert c.order[0] == k || |c.order| == maxEntries ==> k != c.order[0] || e == c;
          PositionAppend(e.order, k, other);
        }
      }
  }

  lemma {:induction false} SurvivesWhilePotentialLasts<V>(c: Contents<V>, k: string, ops: seq<Op<V>>, maxEntries: nat)
    requires c.WellFormed() && |c.order| <= maxEntries && maxEntries > 0
    requires k in c.table && |ops| <= Potential(c, k, maxEntries)
    requires forall i :: 0 <= i < |ops| ==> ops[i].key != k
    ensures k in Run(c, ops, maxEntries).table && Run(c, ops, maxEntries).table[k] == c.table[k]
    decreases |ops|
  {
    if ops != [] {
      StepPotential(c, ops[0], k, maxEntries);
      SurvivesWhilePotentialLasts(Apply(c, ops[0], maxEntries), k, ops[1..], maxEntries);
    }
  }

  /** A key at the end of the order, where a hit or a fresh insert puts it, is still there with its
      item after any `maxEntries - 1` operations on other keys. */
  lemma TouchedKeySurvives<V>(c: Contents<V>, k: string, ops: seq<Op<V>>, maxEntries: nat)
    requires c.WellFormed() && |c.order| <= maxEntries && |ops| < maxEntries
    requires k in c.table && c.order[|c.order| - 1] == k
    requires forall i :: 0 <= i < |ops| ==> ops[i].key != k
    ensures k in Run(c, ops, maxEntries).table && Run(c, ops, maxEntries).table[k] == c.table[k]
  {
    LastPosition(c.order);
    SurvivesWhilePotentialLasts(c, k, ops, maxEntries);
  }

  /** A hit and a store of an absent key both put the key at the end, so `TouchedKeySurvives` applies. */
  lemma TouchPutsAtEnd<V>(c: Contents<V>, op: Op<V>, maxEntries: nat)
    requires c.WellFormed() && |c.order| <= maxEntries && maxEntries > 0
    requires match op
             case Lookup(k, now) => k in c.table && c.table[k].expiresAt > now
             case Store(k, _, ttl, _) => k !in c.table && ttl > 0.0
    ensures var d := Apply(c, op, maxEntries);
            d.WellFormed() && op.key in d.table && d.order[|d.order| - 1] == op.key
  {
    match op
    case Lookup(k, now) => GetKeeps(c, k, now);
    case Store(k, v, ttl, now) =>
      SetKeeps(c, k, v, ttl, now, maxEntries);
      EvictFacts(c, maxEntries);
  }

  // ---------- exactly how long a key survives ----------

  predicate OnOthers<V>(ops: seq<Op<V>>, k: string) {
    forall i :: 0 <= i < |ops| ==> ops[i].key != k
  }

  /** Operations on other keys never bring a key back. */
  lemma {:induction false} GoneStaysGone<V>(c: Contents<V>, k: string, ops: seq<Op<V>>, maxEntries: nat)
    requires c.WellFormed() && |c.order| <= maxEntries && maxEntries > 0 && k !in c.table && OnOthers(ops, k)
    ensures k !in Run(c, ops, maxEntries).table
    decreases |ops|
  {
    if ops != [] {
      match ops[0] {
        case Lookup(other, now) => GetKeeps(c, other, now);
        case Store(other, v, ttl, now) => SetKeeps(c, other, v, ttl, now, maxEntries);
      }
      GoneStaysGone(Apply(c, ops[0], maxEntries), k, ops[1..], maxEntries);
    }
  }

  /** A key longer than all others is not among them. */
  function LongKey(length: nat): (key: string)
    ensures |key| == length
  {
    seq(length, _ => 'x')
  }

  ghost predicate Shorter(order: seq<string>, length: nat) {
    forall x :: x in order ==> |x| < length
  }

  /** Stores of ever longer keys. */
  ghost predicate NewStores<V>(ops: seq<Op<V>>, length: nat, v: V) {
    forall i :: 0 <= i < |ops| ==> ops[i] == Store(LongKey(length + i), v, 1.0, 0.0)
  }

  /** A store of a new key costs every other exactly one place. */
  lemma NewStoreCosts<V>(c: Contents<V>, k: string, length: nat, v: V, maxEntries: nat)
    requires c.WellFormed() && |c.order| <= maxEntries && maxEntries > 0 && k in c.table && Shorter(c.order, length)
    ensures var d := Apply(c, Store(LongKey(length), v, 1.0, 0.0), maxEntries);
            && d.WellFormed() && |d.order| <= maxEntries && Shorter(d.order, length + 1)
            && (k in d.table <==> Potential(c, k, maxEntries) > 0)
            && (k in d.table ==> Potential(d, k, maxEntries) == Potential(c, k, maxEntries) - 1)
  {
    var x := LongKey(length);
    assert x !in c.order;
    StepPotential(c, Store(x, v, 1.0, 0.0), k, maxEntries);
    EvictFacts(c, maxEntries);
    PositionAppend(c.order, k, x);
    if |c.order| == maxEntries && k != c.order[0] {
      PositionAppend(c.order[1..], k, x);
    }
  }

  lemma {:induction false} PositionWithin(order: seq<string>, k: string)
    requires k in order
    ensures Position(order, k) < |order| && order[Position(order, k)] == k
  {
    if order[0] != k {
      PositionWithin(order[1..], k);
    }
  }

  lemma {:induction false} NewStoresEvict<V>(c: Contents<V>, k: string, length: nat, ops: seq<Op<V>>, v: V,
                                             maxEntries: nat)
    requires c.WellFormed() && |c.order| <= maxEntries && maxEntries > 0 && k in c.table
    requires Shorter(c.order, length) && |k| < length && NewStores(ops, length, v)
    requires |ops| > Potential(c, k, maxEntries)
    ensures k !in Run(c, ops, maxEntries).table
    decreases |ops|
  {
    PositionWithin(c.order, k);
    var d := Apply(c, ops[0], maxEntries);
    NewStoreCosts(c, k, length, v, maxEntries);
    forall i | 0 <= i < |ops[1..]| ensures ops[1..][i] == Store(LongKey(length + 1 + i), v, 1.0, 0.0) {
      assert ops[1..][i] == ops[i + 1];
    }
    if k in d.table {
      NewStoresEvict(d, k, length + 1, ops[1..], v, maxEntries);
    } else {
      GoneStaysGone(d, k, ops[1..], maxEntries);
    }
  }

  lemma {:induction false} SomeLengthExceeds(order: seq<string>) returns (length: nat)
    ensures Shorter(order, length)
  {
    length := 0;
    if order != [] {
      var n := SomeLengthExceeds(order[1..]);
      length := if n <= |order[0]| then |order[0]| + 1 else n;
      assert forall x :: x in order <==> x == order[0] || x in order[1..];
    }
  }

  /** A key is still there after every run of `n` operations on other keys. */
  ghost predicate SurvivesAll<V(!new)>(c: Contents<V>, k: string, n: nat, maxEntries: nat)
    requires maxEntries > 0
  {
    forall ops: seq<Op<V>> :: |ops| == n && OnOthers(ops, k) ==> k in Run(c, ops, maxEntries).table
  }

  lemma SomeRunEvicts<V(!new)>(c: Contents<V>, k: string, n: nat, maxEntries: nat, v: V) returns (ops: seq<Op<V>>)
    requires c.WellFormed() && |c.order| <= maxEntries && maxEntries > 0 && k in c.table
    requires n > Potential(c, k, maxEntries)
    ensures |ops| == n && OnOthers(ops, k) && k !in Run(c, ops, maxEntries).table
  {
    var length := SomeLengthExceeds(c.order);
    var from := if length <= |k| then |k| + 1 else length;
    ops := seq(n, i requires 0 <= i < n => Store(LongKey(from + i), v, 1.0, 0.0));
    NewStoresEvict(c, k, from, ops, v, maxEntries);
    forall i | 0 <= i < |ops| ensures ops[i].key != k {
      assert |ops[i].key| == from + i;
    }
  }

  /** The potential is exact: a key survives every run of `n` operations on others if and only if `n` is at
      most the number of older keys and free places. `v` is any value there is to store. */
  lemma SurvivesExactlyPotential<V(!new)>(c: Contents<V>, k: string, n: nat, maxEntries: nat, v: V)
    requires c.WellFormed() && |c.order| <= maxEntries && maxEntries > 0 && k in c.table
    ensures SurvivesAll(c, k, n, maxEntries) <==> n <= Potential(c, k, maxEntries)
  {
    if n <= Potential(c, k, maxEntries) {
      forall ops: seq<Op<V>> | |ops| == n && OnOthers(ops, k) ensures k in Run(c, ops, maxEntries).table {
        SurvivesWhilePotentialLasts(c, k, ops, maxEntries);
      }
    } else {
      var ops := SomeRunEvicts(c, k, n, maxEntries, v);
    }
  }

  /** No key survives more than one at the end of the order. */
  lemma LastIsSafest<V>(d: Contents<V>, k: string, maxEntries: nat)
    requires d.WellFormed() && |d.order| <= maxEntries && maxEntries > 0 && k in d.table
    ensures maxEntries - 1 <= Potential(d, k, maxEntries) <==> d.order[|d.order| - 1] == k
  {
    PositionWithin(d.order, k);
    if d.order[|d.order| - 1] == k {
      LastPosition(d.order);
    }
  }

  /** A store puts its key at the end if it was absent, was evicted by that very store, or was there already. */
  lemma StorePutsAtEndIff<V>(c: Contents<V>, k: string, v: V, ttl: real, now: real, maxEntries: nat)
    requires c.WellFormed() && |c.order| <= maxEntries && maxEntries > 0 && ttl > 0.0
    ensures var d := AfterSet(c, k, v, ttl, now, maxEntries);
            d.WellFormed() && |d.order| <= maxEntries && k in d.table
            && (d.order[|d.order| - 1] == k
                <==> k !in c.table || (|c.order| == maxEntries && c.order[0] == k) || c.order[|c.order| - 1] == k)
  {
    SetKeeps(c, k, v, ttl, now, maxEntries);
    EvictFacts(c, maxEntries);
  }

  /** Which keys a store leaves as safe as can be: one that was absent, one that the store itself evicted
      first, and one that was last already. A key that is present otherwise keeps its old place. */
  lemma StoreProtectsIff<V(!new)>(c: Contents<V>, k: string, v: V, ttl: real, now: real, maxEntries: nat)
    requires c.WellFormed() && |c.order| <= maxEntries && maxEntries > 0 && ttl > 0.0
    ensures SurvivesAll(AfterSet(c, k, v, ttl, now, maxEntries), k, maxEntries - 1, maxEntries)
            <==> k !in c.table || (|c.order| == maxEntries && c.order[0] == k) || c.order[|c.order| - 1] == k
  {
    var d := AfterSet(c, k, v, ttl, now, maxEntries);
    StorePutsAtEndIff(c, k, v, ttl, now, maxEntries);
    LastIsSafest(d, k, maxEntries);
    SurvivesExactlyPotential(d, k, maxEntries - 1, maxEntries, v);
  }

  /** So a store does not protect a key that is present: here is what evicts it in fewer operations than the
      cache holds entries. */
  lemma RestoredKeyCanBeEvicted<V(!new)>(c: Contents<V>, k: string, v: V, ttl: real, now: real,
                                         maxEntries: nat)
    returns (ops: seq<Op<V>>)
    requires c.WellFormed() && |c.order| <= maxEntries && maxEntries > 0 && ttl > 0.0
    requires k in c.table && c.order[|c.order| - 1] != k && (|c.order| < maxEntries || c.order[0] != k)
    ensures |ops| < maxEntries && OnOthers(ops, k)
    ensures k !in Run(AfterSet(c, k, v, ttl, now, maxEntries), ops, maxEntries).table
  {
    var d := AfterSet(c, k, v, ttl, now, maxEntries);
    StorePutsAtEndIff(c, k, v, ttl, now, maxEntries);
    LastIsSafest(d, k, maxEntries);
    ops := SomeRunEvicts(d, k, maxEntries - 1, maxEntries, v);
  }

  // ---------- the cache ----------

  class TTLCache<V> {
    const maxEntries: nat
    const clock: Clock
    var entries: Contents<V>
    ghost var log: History<V>

    ghost predicate Valid()
      reads this
    {
      maxEntries > 0 && entries.WellFormed() && |entries.order| <= maxEntries && AgreesWith(entries, log)
    }

    /** `max_entries` must be positive. */
    constructor (maxEntries: nat, clock: Clock)
      requires maxEntries > 0
      ensures Valid() && entries == Contents([], map[]) && log == Start
      ensures this.maxEntries == maxEntries && this.clock == clock
    {
      this.maxEntries, this.clock := maxEntries, clock;
      entries, log := Contents([], map[]), Start;
    }

    /** A hit is the latest stored value under the key, read before it expired. A miss means that the
        key is not held, or held and expired. */
    method Get(key: string) returns (hit: Option<V>, ghost at: real)
      requires Valid()
      modifies this`entries, clock
      ensures Valid() && old(clock.mono) <= at <= clock.mono && clock.naps == old(clock.naps)
      ensures old(clock.wall) <= clock.wall
      ensures entries == AfterGet(old(entries), key, at)
      ensures hit.Some? <==> key in old(entries).table && at < old(entries).table[key].expiresAt
      ensures hit.Some? ==>
                exists expiresAt :: at < expiresAt && LatestStore(log, key) == Some(Item(hit.value, expiresAt))
    {
      at := clock.mono;
      if key !in entries.table {
        return None, at;
      }
      var entry := entries.table[key];
      var now := clock.Monotonic();
      at := now;
      GetKeeps(entries, key, now);
      if entry.expiresAt <= now {
        entries := Delete(entries, key);
        return None, at;
      }
      entries := MoveToEnd(entries, key);
      hit := Some(entry.value);
    }

    /** Stores the value unless its lifetime is not positive, evicting the oldest entries first. */
    method Set(key: string, value: V, ttl: real) returns (ghost at: real)
      requires Valid()
      modifies this, clock
      ensures Valid() && old(clock.mono) <= at <= clock.mono && clock.naps == old(clock.naps)
      ensures old(clock.wall) <= clock.wall
      ensures entries == AfterSet(old(entries), key, value, ttl, at, maxEntries)
      ensures log == if ttl <= 0.0 then old(log) else Stored(old(log), key, Item(value, at + ttl))
    {
      at := clock.mono;
      if ttl <= 0.0 {
        return;
      }
      ghost var before := entries;
      while |entries.order| >= maxEntries
        invariant entries.WellFormed() && Evict(entries, maxEntries) == Evict(before, maxEntries)
        invariant clock.mono == old(clock.mono) && clock.wall == old(clock.wall) && clock.naps == old(clock.naps)
        invariant log == old(log)
        decreases |entries.order|
      {
        assert entries.order == [entries.order[0]] + entries.order[1..];
        entries := Contents(entries.order[1..], entries.table - {entries.order[0]});
      }
      var now := clock.Monotonic();
      at := now;
      SetKeeps(before, key, value, ttl, now, maxEntries);
      entries := Assign(entries, key, Item(value, now + ttl));
      log := Stored(log, key, Item(value, now + ttl));
    }

    method Clear()
      requires Valid()
      modifies this
      ensures Valid() && entries == Contents([], map[]) && log == Cleared(old(log))
    {
      entries := Contents([], map[]);
      log := Cleared(log);
    }
  }
}
