/** Intent that fades with time, and the routing of a company by fit and intent.

    The decay is a parameter that never rises with age, the roundings ones that never reverse an order. */
module IntentScoring {
  import opened Text

  /** A signal whose type is stripped and lower-cased already; an empty key is a missing one. Dates are days. */
  datatype Signal = Signal(kind: string, day: int, weight: real, halfLife: int, key: string)

  datatype Library = Library(contextOnly: set<string>, defaultKey: (string, int) -> string, decay: (nat, nat) -> real,
                             round: real -> real, round4: real -> real)

  ghost predicate Fades(lib: Library) {
    forall a: nat, b: nat, h: nat :: a <= b && h >= 1 ==> 0.0 <= lib.decay(b, h) <= lib.decay(a, h)
  }

  ghost predicate RoundsInOrder(lib: Library) {
    forall x, y :: x <= y ==> lib.round(x) <= lib.round(y)
  }

  predicate Ignored(lib: Library, s: Signal) {
    s.kind in lib.contextOnly || s.weight <= 0.0
  }

  function KeyOf(lib: Library, s: Signal): string {
    if s.key != "" then s.key else lib.defaultKey(s.kind, s.day)
  }

  function Age(s: Signal, today: int): nat {
    if today - s.day < 0 then 0 else today - s.day
  }

  function HalfLife(s: Signal): nat {
    if s.halfLife < 1 then 1 else s.halfLife
  }

  function ValueOf(lib: Library, s: Signal, today: int): real {
    s.weight * lib.decay(Age(s, today), HalfLife(s))
  }

  datatype Contribution = Contribution(kind: string, day: int, age: nat, freshness: real, value: real, key: string)

  function Contributed(lib: Library, s: Signal, today: int): Contribution {
    Contribution(s.kind, s.day, Age(s, today), lib.decay(Age(s, today), HalfLife(s)), ValueOf(lib, s, today),
                 KeyOf(lib, s))
  }

  /** The contributions in the order of the signals: the first of every event. */
  function Ledger(lib: Library, signals: seq<Signal>, seen: set<string>, today: int): seq<Contribution> {
    if signals == [] then []
    else if Ignored(lib, signals[0]) || KeyOf(lib, signals[0]) in seen then Ledger(lib, signals[1..], seen, today)
    else [Contributed(lib, signals[0], today)] + Ledger(lib, signals[1..], seen + {KeyOf(lib, signals[0])}, today)
  }

  function Sum(contributions: seq<Contribution>): real {
    if contributions == [] then 0.0 else contributions[0].value + Sum(contributions[1..])
  }

  function RawIntent(lib: Library, signals: seq<Signal>, seen: set<string>, today: int): real {
    Sum(Ledger(lib, signals, seen, today))
  }

  /** Between nought and ten. */
  function Normalized(lib: Library, raw: real): real {
    lib.round(if raw <= 0.0 then 0.0 else if raw >= 10.0 then 10.0 else raw)
  }

  lemma {:induction false} SumAppends(a: seq<Contribution>, b: seq<Contribution>)
    ensures Sum(a + b) == Sum(a) + Sum(b)
  {
    if a == [] {
      assert a + b == b;
    } else {
      assert (a + b)[1..] == a[1..] + b;
      SumAppends(a[1..], b);
    }
  }

  lemma SumFirst(c: Contribution, rest: seq<Contribution>)
    ensures Sum([c] + rest) == c.value + Sum(rest)
    ensures [c] + [] == [c]
  {
    assert ([c] + rest)[1..] == rest;
  }

  // ---------- the contributions as they are reported ----------

  function Rounded(lib: Library, c: Contribution): Contribution {
    c.(freshness := lib.round4(c.freshness), value := lib.round4(c.value))
  }

  function RoundedAll(lib: Library, contributions: seq<Contribution>): seq<Contribution> {
    if contributions == [] then [] else [Rounded(lib, contributions[0])] + RoundedAll(lib, contributions[1..])
  }

  lemma {:induction false} RoundedAppends(lib: Library, a: seq<Contribution>, c: Contribution)
    ensures RoundedAll(lib, a + [c]) == RoundedAll(lib, a) + [Rounded(lib, c)]
  {
    if a == [] {
      assert a + [c] == [c] && [c][1..] == [];
    } else {
      assert (a + [c])[1..] == a[1..] + [c];
      RoundedAppends(lib, a[1..], c);
    }
  }

  /** May come first: the higher value, then the earlier day, then the type in alphabetical order. */
  predicate Precedes(a: Contribution, b: Contribution) {
    if a.value != b.value then a.value > b.value
    else if a.day != b.day then a.day < b.day
    else TextAtLeast(b.kind, a.kind)
  }

  function Placed(x: Contribution, sorted: seq<Contribution>): seq<Contribution> {
    if sorted == [] || Precedes(x, sorted[0]) then [x] + sorted else [sorted[0]] + Placed(x, sorted[1..])
  }

  /** Sorted, equals in their order. */
  function Ranked(contributions: seq<Contribution>): seq<Contribution> {
    if contributions == [] then [] else Placed(contributions[0], Ranked(contributions[1..]))
  }

  lemma PrecedesOrders(a: Contribution, b: Contribution, c: Contribution)
    ensures Precedes(a, b) || Precedes(b, a)
    ensures Precedes(a, b) && Precedes(b, c) ==> Precedes(a, c)
  {
    TextOrder(a.kind, b.kind, c.kind);
    TextOrder(c.kind, b.kind, a.kind);
  }

  ghost predicate InOrder(contributions: seq<Contribution>) {
    forall i, j :: 0 <= i < j < |contributions| ==> Precedes(contributions[i], contributions[j])
  }

  /** Those the sort does not tell apart from a given one. */
  function Alike(contributions: seq<Contribution>, x: Contribution): seq<Contribution> {
    if contributions == [] then []
    else if Precedes(contributions[0], x) && Precedes(x, contributions[0])
      then [contributions[0]] + Alike(contributions[1..], x)
    else Alike(contributions[1..], x)
  }

  lemma InOrderCons(x: Contribution, rest: seq<Contribution>)
    requires InOrder(rest) && forall i :: 0 <= i < |rest| ==> Precedes(x, rest[i])
    ensures InOrder([x] + rest)
  {
    var all := [x] + rest;
    forall i, j | 0 <= i < j < |all| ensures Precedes(all[i], all[j]) {
      assert all[j] == rest[j - 1] && (i > 0 ==> all[i] == rest[i - 1]);
    }
  }

  lemma {:induction false} PlacedPermutes(x: Contribution, sorted: seq<Contribution>)
    ensures multiset(Placed(x, sorted)) == multiset([x] + sorted)
  {
    if sorted != [] && !Precedes(x, sorted[0]) {
      PlacedPermutes(x, sorted[1..]);
      assert sorted == [sorted[0]] + sorted[1..];
    }
  }

  lemma {:induction false} PlacedIsInOrder(x: Contribution, sorted: seq<Contribution>)
    requires InOrder(sorted)
    ensures InOrder(Placed(x, sorted))
  {
    if sorted == [] {
      InOrderCons(x, sorted);
    } else if Precedes(x, sorted[0]) {
      forall i | 0 <= i < |sorted| ensures Precedes(x, sorted[i]) {
        PrecedesOrders(x, sorted[0], sorted[i]);
      }
      InOrderCons(x, sorted);
    } else {
      var rest := Placed(x, sorted[1..]);
      PlacedIsInOrder(x, sorted[1..]);
      PlacedPermutes(x, sorted[1..]);
      PrecedesOrders(x, sorted[0], x);
      forall i | 0 <= i < |rest| ensures Precedes(sorted[0], rest[i]) {
        assert rest[i] in multiset([x] + sorted[1..]);
      }
      InOrderCons(sorted[0], rest);
    }
  }

  lemma {:induction false} PlacedKeepsAlike(x: Contribution, sorted: seq<Contribution>, y: Contribution)
    ensures Alike(Placed(x, sorted), y) == Alike([x] + sorted, y)
  {
    assert ([x] + sorted)[1..] == sorted;
    if sorted != [] && !Precedes(x, sorted[0]) {
      var rest := Placed(x, sorted[1..]);
      PlacedKeepsAlike(x, sorted[1..], y);
      assert ([sorted[0]] + rest)[1..] == rest && ([x] + sorted[1..])[1..] == sorted[1..];
      PrecedesOrders(x, y, sorted[0]);
    }
  }

  /** The report is the ledger in order: nothing lost, the largest first, and contributions of the same
      value, day and type in the order of their signals. */
  lemma {:induction false} RankedIsTheLedgerInOrder(contributions: seq<Contribution>, y: Contribution)
    ensures InOrder(Ranked(contributions)) && multiset(Ranked(contributions)) == multiset(contributions)
    ensures Alike(Ranked(contributions), y) == Alike(contributions, y)
  {
    if contributions != [] {
      var x, rest := contributions[0], contributions[1..];
      RankedIsTheLedgerInOrder(rest, y);
      PlacedIsInOrder(x, Ranked(rest));
      PlacedPermutes(x, Ranked(rest));
      PlacedKeepsAlike(x, Ranked(rest), y);
      assert ([x] + Ranked(rest))[1..] == Ranked(rest);
      assert multiset([x] + Ranked(rest)) == multiset{x} + multiset(Ranked(rest));
      assert multiset(contributions) == multiset{x} + multiset(rest) by {
        assert contributions == [x] + rest;
      }
    }
  }

  lemma LedgerSkips(lib: Library, signals: seq<Signal>, i: nat, seen: set<string>, today: int)
    requires i < |signals| && (Ignored(lib, signals[i]) || KeyOf(lib, signals[i]) in seen)
    ensures Ledger(lib, signals[i..], seen, today) == Ledger(lib, signals[i + 1..], seen, today)
  {
    assert signals[i..][0] == signals[i] && signals[i..][1..] == signals[i + 1..];
  }

  /** One more entry: the ledger so far, what is to come, the sum and the rounded entries. */
  lemma LedgerGoesOn(lib: Library, exact: seq<Contribution>, signals: seq<Signal>, i: nat, seen: set<string>,
                     today: int)
    requires i < |signals| && !Ignored(lib, signals[i]) && KeyOf(lib, signals[i]) !in seen
    ensures var more := exact + [Contributed(lib, signals[i], today)];
            && exact + Ledger(lib, signals[i..], seen, today)
               == more + Ledger(lib, signals[i + 1..], seen + {KeyOf(lib, signals[i])}, today)
            && Sum(more) == Sum(exact) + ValueOf(lib, signals[i], today)
            && RoundedAll(lib, more) == RoundedAll(lib, exact) + [Rounded(lib, Contributed(lib, signals[i], today))]
  {
    var c := Contributed(lib, signals[i], today);
    var rest := Ledger(lib, signals[i + 1..], seen + {KeyOf(lib, signals[i])}, today);
    assert signals[i..][0] == signals[i] && signals[i..][1..] == signals[i + 1..];
    assert exact + ([c] + rest) == (exact + [c]) + rest;
    SumAppends(exact, [c]);
    SumFirst(c, []);
    RoundedAppends(lib, exact, c);
  }

  method ComputeIntent(lib: Library, signals: seq<Signal>, today: int)
    returns (score: real, raw: real, contributions: seq<Contribution>)
    ensures contributions == Ranked(RoundedAll(lib, Ledger(lib, signals, {}, today)))
    ensures raw == RawIntent(lib, signals, {}, today) && score == Normalized(lib, raw)
  {
    var total: real, seen: set<string> := 0.0, {};
    ghost var exact: seq<Contribution> := [];
    contributions := [];
    assert signals[0..] == signals && [] + Ledger(lib, signals, {}, today) == Ledger(lib, signals, {}, today);
    for i := 0 to |signals|
      invariant exact + Ledger(lib, signals[i..], seen, today) == Ledger(lib, signals, {}, today)
      invariant total == Sum(exact) && contributions == RoundedAll(lib, exact)
    {
      var signal := signals[i];
      if signal.kind in lib.contextOnly || signal.weight <= 0.0 {
        LedgerSkips(lib, signals, i, seen, today);
        continue;
      }
      var key := if signal.key != "" then signal.key else lib.defaultKey(signal.kind, signal.day);
      if key in seen {
        LedgerSkips(lib, signals, i, seen, today);
        continue;
      }
      LedgerGoesOn(lib, exact, signals, i, seen, today);
      exact := exact + [Contributed(lib, signal, today)];
      seen := seen + {key};
      var age := if today - signal.day < 0 then 0 else today - signal.day;
      var halfLife := if signal.halfLife < 1 then 1 else signal.halfLife;
      var freshness := lib.decay(age, halfLife);
      var value := signal.weight * freshness;
      total := total + value;
      contributions := contributions
        + [Contribution(signal.kind, signal.day, age, lib.round4(freshness), lib.round4(value), key)];
    }
    assert signals[|signals|..] == [] && exact + [] == exact;
    contributions := Ranked(contributions);
    raw := total;
    score := Normalized(lib, total);
  }

  function KeysOf(contributions: seq<Contribution>): set<string> {
    if contributions == [] then {} else {contributions[0].key} + KeysOf(contributions[1..])
  }

  /** Every event is in the ledger at most once, and none that was seen before. */
  lemma {:induction false} LedgerCountsEventsOnce(lib: Library, signals: seq<Signal>, seen: set<string>, today: int)
    ensures |KeysOf(Ledger(lib, signals, seen, today))| == |Ledger(lib, signals, seen, today)|
    ensures KeysOf(Ledger(lib, signals, seen, today)) * seen == {}
  {
    if signals != [] {
      if Ignored(lib, signals[0]) || KeyOf(lib, signals[0]) in seen {
        LedgerCountsEventsOnce(lib, signals[1..], seen, today);
      } else {
        var key, c := KeyOf(lib, signals[0]), Contributed(lib, signals[0], today);
        var rest := Ledger(lib, signals[1..], seen + {key}, today);
        LedgerCountsEventsOnce(lib, signals[1..], seen + {key}, today);
        assert ([c] + rest)[1..] == rest;
        assert KeysOf([c] + rest) == {key} + KeysOf(rest);
        assert key in KeysOf(rest) ==> key in KeysOf(rest) * (seen + {key});
      }
    }
  }

  // ---------- the passing of time ----------

  lemma Scaled(w: real, x: real, y: real)
    requires w > 0.0 && 0.0 <= x <= y
    ensures 0.0 <= w * x <= w * y
  {
    assert w * (y - x) >= 0.0;
  }

  lemma ValueFades(lib: Library, s: Signal, today: int, later: int)
    requires Fades(lib) && s.weight > 0.0 && today <= later
    ensures 0.0 <= ValueOf(lib, s, later) <= ValueOf(lib, s, today)
  {
    Scaled(s.weight, lib.decay(Age(s, later), HalfLife(s)), lib.decay(Age(s, today), HalfLife(s)));
  }

  lemma {:induction false} RawIntentFades(lib: Library, signals: seq<Signal>, seen: set<string>, today: int, later: int)
    requires Fades(lib) && today <= later
    ensures 0.0 <= RawIntent(lib, signals, seen, later) <= RawIntent(lib, signals, seen, today)
  {
    if signals != [] {
      if Ignored(lib, signals[0]) || KeyOf(lib, signals[0]) in seen {
        RawIntentFades(lib, signals[1..], seen, today, later);
      } else {
        var known := seen + {KeyOf(lib, signals[0])};
        RawIntentFades(lib, signals[1..], known, today, later);
        SumFirst(Contributed(lib, signals[0], today), Ledger(lib, signals[1..], known, today));
        SumFirst(Contributed(lib, signals[0], later), Ledger(lib, signals[1..], known, later));
        ValueFades(lib, signals[0], today, later);
      }
    }
  }

  lemma NormalizedInOrder(lib: Library, x: real, y: real)
    requires RoundsInOrder(lib) && x <= y
    ensures Normalized(lib, x) <= Normalized(lib, y)
  {
  }

  // ---------- one signal more ----------

  /** What the first signal of an event contributes, 0 if there is none that counts. */
  function FirstValue(lib: Library, signals: seq<Signal>, key: string, today: int): real {
    if signals == [] then 0.0
    else if !Ignored(lib, signals[0]) && KeyOf(lib, signals[0]) == key then ValueOf(lib, signals[0], today)
    else FirstValue(lib, signals[1..], key, today)
  }

  /** Marking an event as seen takes its first signal out of the sum. */
  lemma {:induction false} SeenTakesOut(lib: Library, signals: seq<Signal>, seen: set<string>, key: string, today: int)
    requires key !in seen
    ensures RawIntent(lib, signals, seen + {key}, today)
            == RawIntent(lib, signals, seen, today) - FirstValue(lib, signals, key, today)
  {
    if signals != [] {
      var s, rest := signals[0], signals[1..];
      if Ignored(lib, s) || KeyOf(lib, s) in seen {
        SeenTakesOut(lib, rest, seen, key, today);
      } else if KeyOf(lib, s) != key {
        SeenTakesOut(lib, rest, seen + {KeyOf(lib, s)}, key, today);
        assert seen + {key} + {KeyOf(lib, s)} == seen + {KeyOf(lib, s)} + {key};
      }
    }
  }

  /** The events among some signals. */
  function Events(lib: Library, signals: seq<Signal>): set<string> {
    if signals == [] then {}
    else (if Ignored(lib, signals[0]) then {} else {KeyOf(lib, signals[0])}) + Events(lib, signals[1..])
  }

  lemma {:induction false} RawIntentAppends(lib: Library, before: seq<Signal>, after: seq<Signal>, seen: set<string>,
                                            today: int)
    ensures RawIntent(lib, before + after, seen, today)
            == RawIntent(lib, before, seen, today) + RawIntent(lib, after, seen + Events(lib, before), today)
  {
    if before == [] {
      assert before + after == after && seen + Events(lib, before) == seen;
    } else {
      var s, rest := before[0], before[1..];
      assert (before + after)[1..] == rest + after;
      if Ignored(lib, s) || KeyOf(lib, s) in seen {
        RawIntentAppends(lib, rest, after, seen, today);
        assert seen + Events(lib, before) == seen + Events(lib, rest);
      } else {
        RawIntentAppends(lib, rest, after, seen + {KeyOf(lib, s)}, today);
        assert seen + Events(lib, before) == seen + {KeyOf(lib, s)} + Events(lib, rest);
      }
    }
  }

  /** A signal put in anywhere changes the raw intent by its own value less that of the signal it supersedes;
      not at all if it is ignored or its event was recorded before that place. */
  lemma OneSignalMore(lib: Library, before: seq<Signal>, s: Signal, after: seq<Signal>, today: int)
    ensures RawIntent(lib, before + [s] + after, {}, today) - RawIntent(lib, before + after, {}, today)
            == (if Ignored(lib, s) || KeyOf(lib, s) in Events(lib, before) then 0.0
                else ValueOf(lib, s, today) - FirstValue(lib, after, KeyOf(lib, s), today))
  {
    var seen := Events(lib, before);
    assert before + [s] + after == before + ([s] + after) && {} + seen == seen;
    RawIntentAppends(lib, before, [s] + after, {}, today);
    RawIntentAppends(lib, before, after, {}, today);
    assert ([s] + after)[1..] == after;
    if !Ignored(lib, s) && KeyOf(lib, s) !in seen {
      SeenTakesOut(lib, after, seen, KeyOf(lib, s), today);
    }
  }

  lemma {:induction false} MemberIsEvent(lib: Library, signals: seq<Signal>, s: Signal)
    requires s in signals && !Ignored(lib, s)
    ensures KeyOf(lib, s) in Events(lib, signals)
  {
    if s != signals[0] {
      MemberIsEvent(lib, signals[1..], s);
    }
  }

  /** Recording a signal again, anywhere after it, changes neither the raw intent nor the score. */
  lemma RepeatingChangesNothing(lib: Library, before: seq<Signal>, s: Signal, after: seq<Signal>, today: int)
    requires s in before
    ensures RawIntent(lib, before + [s] + after, {}, today) == RawIntent(lib, before + after, {}, today)
  {
    OneSignalMore(lib, before, s, after, today);
    if !Ignored(lib, s) {
      MemberIsEvent(lib, before, s);
    }
  }

  /** Recording it again in front of everything does so exactly when the first signal of its event is worth
      the same: the first signal of an event is the one that counts. */
  lemma RepeatingInFront(lib: Library, signals: seq<Signal>, s: Signal, today: int)
    requires s in signals && !Ignored(lib, s)
    ensures RawIntent(lib, [s] + signals, {}, today) == RawIntent(lib, signals, {}, today)
            <==> FirstValue(lib, signals, KeyOf(lib, s), today) == ValueOf(lib, s, today)
  {
    var none: seq<Signal> := [];
    assert none + [s] + signals == [s] + signals && none + signals == signals;
    assert KeyOf(lib, s) !in Events(lib, none);
    OneSignalMore(lib, none, s, signals, today);
  }

  // ---------- routing ----------

  datatype Priority = P1 | P2 | P3 | P4

  datatype Route = Route(fit: real, behaviorP1: bool, flags: set<string>, indiaBridge: bool, decisionMakerDepth: int)

  /** Why a priority is what it is, in the order of the rules. */
  datatype Modifier =
    | BehaviorP1 | IndiaBridge | CorporateRouteCap | MaFreezeCap
    | BusinessContractionFriction | FounderTransitionFriction
    | DecisionMakerDepth

  function Rank(p: Priority): nat {
    match p
    case P1 => 1
    case P2 => 2
    case P3 => 3
    case P4 => 4
  }

  /** The best priority the flags allow. */
  function Cap(r: Route): nat {
    if "corporate_route_only" in r.flags then 3 else if "ma_freeze" in r.flags then 2 else 1
  }

  /** The rank by fit, intent and bridge alone: the bridge lifts P2 and P3 by one, but not P4. */
  function BaseRank(r: Route, intent: real): nat {
    if r.behaviorP1 then 1
    else if r.fit > 5.0 then (if intent > 5.0 || r.indiaBridge then 1 else 2)
    else if intent > 5.0 then (if r.indiaBridge then 2 else 3)
    else 4
  }

  /** Never better than the cap, otherwise what fit, intent and bridge make it. */
  function Routed(r: Route, intent: real): (p: Priority)
    ensures Rank(p) == (if BaseRank(r, intent) < Cap(r) then Cap(r) else BaseRank(r, intent))
  {
    var rank := if BaseRank(r, intent) < Cap(r) then Cap(r) else BaseRank(r, intent);
    if rank == 1 then P1 else if rank == 2 then P2 else if rank == 3 then P3 else P4
  }

  /** The rule behind a modifier applied: the bridge only if it lifted the rank, a cap whether or not it lowered it. */
  predicate Applies(r: Route, intent: real, m: Modifier) {
    match m
    case BehaviorP1 => r.behaviorP1
    case IndiaBridge => BaseRank(r, intent) != BaseRank(r.(indiaBridge := false), intent)
    case CorporateRouteCap => "corporate_route_only" in r.flags
    case MaFreezeCap => "ma_freeze" in r.flags
    case BusinessContractionFriction => "business_contraction" in r.flags
    case FounderTransitionFriction => "founder_departed" in r.flags
    case DecisionMakerDepth => r.decisionMakerDepth >= 2
  }

  /** The modifiers of a list that apply, in its order. */
  function Applying(r: Route, intent: real, modifiers: seq<Modifier>): seq<Modifier> {
    if modifiers == [] then []
    else (if Applies(r, intent, modifiers[0]) then [modifiers[0]] else []) + Applying(r, intent, modifiers[1..])
  }

  ghost predicate InRuleOrder(rules: seq<Modifier>) {
    && |rules| == 7 && rules[0] == BehaviorP1 && rules[1] == IndiaBridge && rules[2] == CorporateRouteCap
       && rules[3] == MaFreezeCap
    && rules[4] == BusinessContractionFriction && rules[5] == FounderTransitionFriction
       && rules[6] == DecisionMakerDepth
  }

  const RULES: seq<Modifier> :=
    [BehaviorP1, IndiaBridge, CorporateRouteCap, MaFreezeCap, BusinessContractionFriction, FounderTransitionFriction,
     DecisionMakerDepth]

  lemma {:induction false} ApplyingSnoc(r: Route, intent: real, modifiers: seq<Modifier>, m: Modifier)
    ensures Applying(r, intent, modifiers + [m])
            == Applying(r, intent, modifiers) + (if Applies(r, intent, m) then [m] else [])
  {
    if modifiers == [] {
      assert modifiers + [m] == [m] && [m][1..] == [];
    } else {
      assert (modifiers + [m])[1..] == modifiers[1..] + [m];
      ApplyingSnoc(r, intent, modifiers[1..], m);
    }
  }

  lemma {:induction false} ApplyingMembers(r: Route, intent: real, modifiers: seq<Modifier>, m: Modifier)
    ensures m in Applying(r, intent, modifiers) <==> m in modifiers && Applies(r, intent, m)
  {
    if modifiers != [] {
      ApplyingMembers(r, intent, modifiers[1..], m);
    }
  }

  lemma AllRules() returns (rules: seq<Modifier>)
    ensures rules == RULES && InRuleOrder(rules)
  {
    rules := RULES;
  }

  /** One rule's modifier is noted when it applies. */
  method Annotate(noted: seq<Modifier>, applies: bool, m: Modifier, ghost r: Route, ghost intent: real,
                  ghost rules: seq<Modifier>, ghost n: nat)
    returns (modifiers: seq<Modifier>)
    requires n < |rules| && rules[n] == m && applies == Applies(r, intent, m)
    requires noted == Applying(r, intent, rules[..n])
    ensures modifiers == Applying(r, intent, rules[..n + 1])
  {
    assert rules[..n + 1] == rules[..n] + [m];
    ApplyingSnoc(r, intent, rules[..n], m);
    modifiers := if applies then noted + [m] else noted;
  }

  method AnnotateFrictions(noted: seq<Modifier>, r: Route, ghost intent: real, ghost rules: seq<Modifier>)
    returns (modifiers: seq<Modifier>)
    requires InRuleOrder(rules) && noted == Applying(r, intent, rules[..4])
    ensures modifiers == Applying(r, intent, rules)
  {
    modifiers := Annotate(noted, "business_contraction" in r.flags, BusinessContractionFriction, r, intent, rules, 4);
    modifiers := Annotate(modifiers, "founder_departed" in r.flags, FounderTransitionFriction, r, intent, rules, 5);
    modifiers := Annotate(modifiers, r.decisionMakerDepth >= 2, DecisionMakerDepth, r, intent, rules, 6);
    assert rules[..7] == rules;
  }

  method RoutePriority(r: Route, intent: real) returns (priority: Priority, modifiers: seq<Modifier>)
    ensures priority == Routed(r, intent) && modifiers == Applying(r, intent, RULES)
  {
    if r.behaviorP1 {
      priority := P1;
    } else if r.fit > 5.0 && intent > 5.0 {
      priority := P1;
    } else if r.fit > 5.0 {
      priority := P2;
    } else if intent > 5.0 {
      priority := P3;
    } else {
      priority := P4;
    }
    ghost var rules := AllRules();
    modifiers := Annotate([], r.behaviorP1, BehaviorP1, r, intent, rules, 0);
    var lifted := r.indiaBridge && (priority == P3 || priority == P2);
    if lifted {
      priority := if priority == P3 then P2 else P1;
    }
    modifiers := Annotate(modifiers, lifted, IndiaBridge, r, intent, rules, 1);
    if "corporate_route_only" in r.flags {
      if priority == P1 || priority == P2 {
        priority := P3;
      }
    }
    modifiers := Annotate(modifiers, "corporate_route_only" in r.flags, CorporateRouteCap, r, intent, rules, 2);
    if "ma_freeze" in r.flags {
      if priority == P1 {
        priority := P2;
      }
    }
    modifiers := Annotate(modifiers, "ma_freeze" in r.flags, MaFreezeCap, r, intent, rules, 3);
    modifiers := AnnotateFrictions(modifiers, r, intent, rules);
  }

  /** The rank of fit and intent alone. */
  function PlainRank(fit: real, intent: real): nat {
    if fit > 5.0 then (if intent > 5.0 then 1 else 2) else if intent > 5.0 then 3 else 4
  }

  /** What the modifiers make of a rank. */
  function Explained(rank: nat, modifiers: seq<Modifier>): int {
    var lifted := if BehaviorP1 in modifiers then 1 else if IndiaBridge in modifiers then rank - 1 else rank;
    var cap := if CorporateRouteCap in modifiers then 3 else if MaFreezeCap in modifiers then 2 else 1;
    if lifted < cap then cap else lifted
  }

  /** The modifiers returned account for the priority: with fit and intent they determine it. */
  lemma ModifiersExplainThePriority(r: Route, intent: real)
    ensures Rank(Routed(r, intent)) == Explained(PlainRank(r.fit, intent), Applying(r, intent, RULES))
  {
    ApplyingMembers(r, intent, RULES, BehaviorP1);
    ApplyingMembers(r, intent, RULES, IndiaBridge);
    ApplyingMembers(r, intent, RULES, CorporateRouteCap);
    ApplyingMembers(r, intent, RULES, MaFreezeCap);
  }

  lemma MoreIntentIsNoWorse(r: Route, x: real, y: real)
    requires x <= y
    ensures Rank(Routed(r, y)) <= Rank(Routed(r, x))
  {
  }

  /** As time passes, with nothing new happening, intent never rises and the priority never improves. */
  lemma PriorityNeverImproves(lib: Library, r: Route, signals: seq<Signal>, today: int, later: int)
    requires Fades(lib) && RoundsInOrder(lib) && today <= later
    ensures RawIntent(lib, signals, {}, later) <= RawIntent(lib, signals, {}, today)
    ensures Rank(Routed(r, Normalized(lib, RawIntent(lib, signals, {}, later))))
            >= Rank(Routed(r, Normalized(lib, RawIntent(lib, signals, {}, today))))
  {
    RawIntentFades(lib, signals, {}, today, later);
    NormalizedInOrder(lib, RawIntent(lib, signals, {}, later), RawIntent(lib, signals, {}, today));
    MoreIntentIsNoWorse(r, Normalized(lib, RawIntent(lib, signals, {}, later)),
                        Normalized(lib, RawIntent(lib, signals, {}, today)));
  }
}
