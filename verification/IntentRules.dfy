/** The scoring rules in the terms of a single signal and a single company.

    Which signals are counted and what each is worth on a given day, and which companies get which priority. */
module IntentRules {
  import opened Text
  import opened IntentScoring

  // ---------- which signals count ----------

  function EventKey(lib: Library, s: Signal): string {
    if s.key == "" then lib.defaultKey(s.kind, s.day) else s.key
  }

  /** It is more than context and has a weight. */
  ghost predicate Counts(lib: Library, s: Signal) {
    s.kind !in lib.contextOnly && s.weight > 0.0
  }

  /** The signal at `i` counts, and no earlier one that counts is of the same event. */
  ghost predicate FirstOfEvent(lib: Library, signals: seq<Signal>, i: nat) {
    i < |signals| && Counts(lib, signals[i])
    && forall j :: 0 <= j < i && Counts(lib, signals[j]) ==> EventKey(lib, signals[j]) != EventKey(lib, signals[i])
  }

  /** What is reported of a signal: its age in days, none if it is of the future, and its weight times what the decay
      leaves at that age, with a half-life of one day at least. */
  ghost predicate Accounts(lib: Library, c: Contribution, s: Signal, today: int) {
    && c.kind == s.kind && c.day == s.day && c.key == EventKey(lib, s)
    && c.age == (if today > s.day then today - s.day else 0)
    && c.freshness == lib.decay(c.age, if s.halfLife > 1 then s.halfLife else 1)
    && c.value == s.weight * c.freshness
  }

  ghost predicate EnteredAt(lib: Library, signals: seq<Signal>, seen: set<string>, today: int, i: nat, c: Contribution)
  {
    FirstOfEvent(lib, signals, i) && EventKey(lib, signals[i]) !in seen && Accounts(lib, c, signals[i], today)
  }

  lemma EnteredLater(lib: Library, signals: seq<Signal>, seen: set<string>, today: int, i: nat, c: Contribution)
    requires signals != [] && i > 0
    ensures var used := if Counts(lib, signals[0]) then {EventKey(lib, signals[0])} else {};
            EnteredAt(lib, signals, seen, today, i, c)
            <==> EnteredAt(lib, signals[1..], seen + used, today, i - 1, c)
  {
    var rest := signals[1..];
    assert forall j :: 0 <= j < |rest| ==> rest[j] == signals[j + 1];
    if EnteredAt(lib, signals, seen, today, i, c) {
      forall j | 0 <= j < i - 1 && Counts(lib, rest[j]) ensures EventKey(lib, rest[j]) != EventKey(lib, rest[i - 1]) {
        assert rest[j] == signals[j + 1];
      }
    }
    var used := if Counts(lib, signals[0]) then {EventKey(lib, signals[0])} else {};
    if EnteredAt(lib, rest, seen + used, today, i - 1, c) {
      forall j | 0 <= j < i && Counts(lib, signals[j]) ensures EventKey(lib, signals[j]) != EventKey(lib, signals[i]) {
        assert j > 0 ==> signals[j] == rest[j - 1];
      }
    }
  }

  /** The ledger has an entry for the first signal of every event that counts, and no other. */
  lemma {:induction false} LedgerEntries(lib: Library, signals: seq<Signal>, seen: set<string>, today: int,
                                         c: Contribution)
    ensures c in Ledger(lib, signals, seen, today) <==> exists i :: EnteredAt(lib, signals, seen, today, i, c)
  {
    if signals != [] {
      var s, rest := signals[0], signals[1..];
      var used := if Counts(lib, s) then {EventKey(lib, s)} else {};
      LedgerEntries(lib, rest, seen + used, today, c);
      if !Counts(lib, s) || EventKey(lib, s) in seen {
        assert seen + used == seen;
      }
      if i: nat :| EnteredAt(lib, signals, seen, today, i, c) {
        if i > 0 {
          EnteredLater(lib, signals, seen, today, i, c);
        }
      }
      if i: nat :| EnteredAt(lib, rest, seen + used, today, i, c) {
        EnteredLater(lib, signals, seen, today, i + 1, c);
        assert EnteredAt(lib, signals, seen, today, i + 1, c);
      }
      if Counts(lib, s) && EventKey(lib, s) !in seen && c == Contributed(lib, s, today) {
        assert EnteredAt(lib, signals, seen, today, 0, c);
      }
    }
  }

  /** The report gives the ledger's entries with freshness and value rounded. */
  lemma {:induction false} ReportRounds(lib: Library, ledger: seq<Contribution>, i: nat)
    requires i < |ledger|
    ensures |RoundedAll(lib, ledger)| == |ledger|
    ensures var r, c := RoundedAll(lib, ledger)[i], ledger[i];
            && r.freshness == lib.round4(c.freshness) && r.value == lib.round4(c.value)
            && r.kind == c.kind && r.day == c.day && r.age == c.age && r.key == c.key
  {
    if i > 0 {
      ReportRounds(lib, ledger[1..], i - 1);
    } else if |ledger| > 1 {
      ReportRounds(lib, ledger[1..], 0);
    }
  }

  /** The larger value, or an equal one of an earlier day, or of the same day and a type no later in the alphabet. */
  ghost predicate RanksBefore(a: Contribution, b: Contribution) {
    || a.value > b.value
    || (a.value == b.value && a.day < b.day)
    || (a.value == b.value && a.day == b.day && TextAtLeast(b.kind, a.kind))
  }

  /** The report is in the order of value, then day, then type. */
  lemma ReportIsRanked(contributions: seq<Contribution>, i: nat, j: nat)
    requires i < j < |Ranked(contributions)|
    ensures RanksBefore(Ranked(contributions)[i], Ranked(contributions)[j])
  {
    RankedIsTheLedgerInOrder(contributions, Ranked(contributions)[i]);
    assert Precedes(Ranked(contributions)[i], Ranked(contributions)[j]);
  }

  // ---------- what a signal is worth as time passes ----------

  /** Whole at first, and half as much after each half-life. */
  ghost predicate Halves(lib: Library) {
    && (forall h: nat :: h >= 1 ==> lib.decay(0, h) == 1.0)
    && (forall a: nat, h: nat :: h >= 1 ==> lib.decay(a, h) == 2.0 * lib.decay(a + h, h))
  }

  /** A signal of today, or of a day to come, is worth its weight. */
  lemma FreshIsWhole(lib: Library, s: Signal, today: int)
    requires Halves(lib) && today <= s.day
    ensures ValueOf(lib, s, today) == s.weight
  {
    assert Age(s, today) == 0 && lib.decay(0, HalfLife(s)) == 1.0;
  }

  /** From its day on its value halves with every half-life, which is one day at least. */
  lemma ValueHalves(lib: Library, s: Signal, today: int)
    requires Halves(lib) && s.day <= today
    ensures 2.0 * ValueOf(lib, s, today + if s.halfLife >= 1 then s.halfLife else 1) == ValueOf(lib, s, today)
  {
    var h := HalfLife(s);
    assert Age(s, today + h) == Age(s, today) + h;
    assert lib.decay(Age(s, today), h) == 2.0 * lib.decay(Age(s, today) + h, h);
  }

  /** Neither before nor after does the score leave the range from nought to ten, if the rounding leaves its ends
      alone. */
  lemma ScoreInRange(lib: Library, raw: real)
    requires RoundsInOrder(lib) && lib.round(0.0) == 0.0 && lib.round(10.0) == 10.0
    ensures 0.0 <= Normalized(lib, raw) <= 10.0
    ensures 0.0 <= raw <= 10.0 ==> Normalized(lib, raw) == lib.round(raw)
    ensures raw >= 10.0 ==> Normalized(lib, raw) == 10.0
  {
  }

  // ---------- who gets which priority ----------

  /** Behaviour, or a good fit with intent or a bridge into the company. */
  ghost predicate Strongest(r: Route, intent: real) {
    r.behaviorP1 || (r.fit > 5.0 && (intent > 5.0 || r.indiaBridge))
  }

  /** A good fit alone, or intent with a bridge. */
  ghost predicate Second(r: Route, intent: real) {
    !r.behaviorP1 && ((r.fit > 5.0 && intent <= 5.0 && !r.indiaBridge)
                      || (r.fit <= 5.0 && intent > 5.0 && r.indiaBridge))
  }

  /** Nothing to go by. */
  ghost predicate Nothing(r: Route, intent: real) {
    !r.behaviorP1 && r.fit <= 5.0 && intent <= 5.0
  }

  /** Who gets which priority. A company that only its corporation decides for is third at best, one whose ownership is
      changing second at best; nothing lifts one that shows neither fit, intent nor behaviour. */
  lemma PriorityIff(r: Route, intent: real)
    ensures var p, corporate, freeze := Routed(r, intent), "corporate_route_only" in r.flags, "ma_freeze" in r.flags;
            && (p == P1 <==> Strongest(r, intent) && !corporate && !freeze)
            && (p == P2 <==> !corporate && (Second(r, intent) || (Strongest(r, intent) && freeze)))
            && (p == P4 <==> Nothing(r, intent))
            && (p == P3 <==> !Nothing(r, intent) && (corporate || !(Second(r, intent) || Strongest(r, intent))))
  {
  }

  /** When a modifier is reported. */
  lemma ModifierIff(r: Route, intent: real, m: Modifier)
    ensures m in Applying(r, intent, RULES)
            <==> match m
                 case BehaviorP1 => r.behaviorP1
                 case IndiaBridge => r.indiaBridge && !r.behaviorP1
                                     && ((r.fit > 5.0 && intent <= 5.0) || (r.fit <= 5.0 && intent > 5.0))
                 case CorporateRouteCap => "corporate_route_only" in r.flags
                 case MaFreezeCap => "ma_freeze" in r.flags
                 case BusinessContractionFriction => "business_contraction" in r.flags
                 case FounderTransitionFriction => "founder_departed" in r.flags
                 case DecisionMakerDepth => r.decisionMakerDepth >= 2
  {
    ApplyingMembers(r, intent, RULES, m);
    var rules := AllRules();
    assert m == rules[0] || m == rules[1] || m == rules[2] || m == rules[3] || m == rules[4] || m == rules[5]
           || m == rules[6];
  }
}
