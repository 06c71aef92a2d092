/** Assigning people to the variants of an experiment by hashing them into ten thousand buckets. */
module Allocation {
  import opened Wrappers

  /** A missing or unreadable allocation is None. */
  datatype Variant = Variant(id: string, allocation: Option<real>)

  datatype AllocationError = InvalidAllocation | OutOfRange | Exceeds

  const BUCKETS: nat := 10000

  const TOLERATED := 100.000001

  /** The first complaint about the variants' allocations, in order. */
  function Complaint(variants: seq<Variant>): Option<AllocationError> {
    if variants == [] then None
    else
      match variants[0].allocation
      case None => Some(InvalidAllocation)
      case Some(a) => if a < 0.0 || a > 100.0 then Some(OutOfRange) else Complaint(variants[1..])
  }

  function Share(v: Variant): real {
    match v.allocation
    case Some(a) => a
    case None => 0.0
  }

  function Total(variants: seq<Variant>): real {
    if variants == [] then 0.0 else Share(variants[0]) + Total(variants[1..])
  }

  /** The first variant whose cumulative share, counted from `cursor`, exceeds the point. */
  function Pick(variants: seq<Variant>, cursor: real, point: real): Option<nat> {
    if variants == [] then None
    else if point < cursor + Share(variants[0]) then Some(0)
    else
      match Pick(variants[1..], cursor + Share(variants[0]), point)
      case None => None
      case Some(i) => Some(i + 1)
  }

  /** The index of the variant assigned, if any. */
  function Assign(variants: seq<Variant>, bucket: nat): Result<Option<nat>, AllocationError> {
    if Complaint(variants).Some? then Err(Complaint(variants).value)
    else if Total(variants) > TOLERATED then Err(Exceeds)
    else Ok(Pick(variants, 0.0, bucket as real / 100.0))
  }

  function Shifted(i: Option<nat>, steps: nat): Option<nat> {
    match i
    case None => None
    case Some(k) => Some(k + steps)
  }

  method AssignVariant(variants: seq<Variant>, bucket: nat) returns (r: Result<Option<nat>, AllocationError>)
    ensures r == Assign(variants, bucket)
  {
    if |variants| == 0 {
      return Ok(None);
    }
    var total := 0.0;
    for i := 0 to |variants|
      invariant Complaint(variants[i..]) == Complaint(variants)
      invariant total + Total(variants[i..]) == Total(variants)
    {
      assert variants[i..][1..] == variants[i + 1..];
      if variants[i].allocation.None? {
        return Err(InvalidAllocation);
      }
      var allocation := variants[i].allocation.value;
      if allocation < 0.0 || allocation > 100.0 {
        return Err(OutOfRange);
      }
      total := total + allocation;
    }
    if total > TOLERATED {
      return Err(Exceeds);
    }
    var point, cursor := bucket as real / 100.0, 0.0;
    for i := 0 to |variants|
      invariant Pick(variants, 0.0, point) == Shifted(Pick(variants[i..], cursor, point), i)
    {
      assert variants[i..][1..] == variants[i + 1..];
      cursor := cursor + Share(variants[i]);
      if point < cursor {
        return Ok(Some(i));
      }
    }
    return Ok(None);
  }

  // ---------- which allocations are accepted ----------

  ghost predicate InRange(v: Variant) {
    v.allocation.Some? && 0.0 <= v.allocation.value <= 100.0
  }

  /** The first variant whose allocation is not a percentage. */
  ghost predicate FirstBad(variants: seq<Variant>, k: nat) {
    k < |variants| && !InRange(variants[k]) && forall j :: 0 <= j < k ==> InRange(variants[j])
  }

  lemma {:induction false} ComplaintIff(variants: seq<Variant>)
    ensures Complaint(variants).None? <==> forall i :: 0 <= i < |variants| ==> InRange(variants[i])
    ensures Complaint(variants).Some? ==>
              exists k: nat :: k < |variants| && FirstBad(variants, k)
                && Complaint(variants) == Some(if variants[k].allocation.None? then InvalidAllocation else OutOfRange)
  {
    if variants != [] {
      var rest := variants[1..];
      ComplaintIff(rest);
      assert forall i :: 0 <= i < |rest| ==> rest[i] == variants[i + 1];
      if !InRange(variants[0]) {
        assert FirstBad(variants, 0);
      } else if Complaint(rest).Some? {
        var k: nat :| k < |rest| && FirstBad(rest, k)
          && Complaint(rest) == Some(if rest[k].allocation.None? then InvalidAllocation else OutOfRange);
        assert forall j :: 0 < j < k + 1 ==> variants[j] == rest[j - 1];
        assert FirstBad(variants, k + 1);
      }
    }
  }

  /** Allocations are accepted exactly if all are percentages that make up no more than 100, give or take a millionth;
      otherwise the first that is missing, unreadable or out of range is complained of, or else the sum. */
  lemma AcceptedIff(variants: seq<Variant>, bucket: nat)
    ensures Assign(variants, bucket).Ok?
            <==> (forall i :: 0 <= i < |variants| ==> InRange(variants[i])) && Total(variants) <= 100.000001
    ensures Assign(variants, bucket).Err? ==>
              || (Assign(variants, bucket) == Err(Exceeds) && forall i :: 0 <= i < |variants| ==> InRange(variants[i]))
              || exists k: nat :: k < |variants| && FirstBad(variants, k) && Assign(variants, bucket)
                   == Err(if variants[k].allocation.None? then InvalidAllocation else OutOfRange)
  {
    ComplaintIff(variants);
  }

  // ---------- where the boundaries are ----------

  ghost predicate NonNegative(variants: seq<Variant>) {
    forall i :: 0 <= i < |variants| ==> Share(variants[i]) >= 0.0
  }

  lemma {:induction false} AcceptedIsNonNegative(variants: seq<Variant>)
    requires Complaint(variants).None?
    ensures NonNegative(variants)
  {
    if variants != [] {
      AcceptedIsNonNegative(variants[1..]);
      assert forall i :: 1 <= i < |variants| ==> variants[i] == variants[1..][i - 1];
    }
  }

  lemma {:induction false} TotalGrows(variants: seq<Variant>, i: nat)
    requires NonNegative(variants) && i <= |variants|
    ensures 0.0 <= Total(variants[..i]) <= Total(variants)
  {
    if i == 0 {
      assert variants[..0] == [];
      if variants != [] {
        TotalGrows(variants[1..], 0);
      }
    } else {
      TotalGrows(variants[1..], i - 1);
      assert variants[..i][1..] == variants[1..][..i - 1];
    }
  }

  lemma {:induction false} PickBetween(variants: seq<Variant>, cursor: real, point: real, i: nat)
    requires NonNegative(variants) && cursor <= point && i < |variants|
    ensures Pick(variants, cursor, point) == Some(i)
            <==> cursor + Total(variants[..i]) <= point < cursor + Total(variants[..i + 1])
  {
    assert variants[..i + 1][1..] == variants[1..][..i];
    if i == 0 {
      assert variants[..0] == [] && variants[..1][1..] == [];
    } else {
      assert variants[..i][1..] == variants[1..][..i - 1];
      TotalGrows(variants[1..], i - 1);
      if point >= cursor + Share(variants[0]) {
        PickBetween(variants[1..], cursor + Share(variants[0]), point, i - 1);
      }
    }
  }

  lemma {:induction false} PickNone(variants: seq<Variant>, cursor: real, point: real)
    requires NonNegative(variants) && cursor <= point
    ensures Pick(variants, cursor, point).None? <==> point >= cursor + Total(variants)
  {
    if variants != [] {
      TotalGrows(variants[1..], 0);
      if point >= cursor + Share(variants[0]) {
        PickNone(variants[1..], cursor + Share(variants[0]), point);
      }
    }
  }

  /** The least whole number of hundredths that reaches the given percentage. */
  function Boundary(percent: real): int {
    -((-(percent * 100.0)).Floor)
  }

  lemma BelowBoundary(bucket: nat, percent: real)
    ensures bucket as real / 100.0 < percent <==> bucket < Boundary(percent)
  {
  }

  /** A bucket goes to the variant between whose cumulative boundaries it lies, and to none beyond the last. */
  lemma AssignedBetween(variants: seq<Variant>, bucket: nat, i: nat)
    requires Assign(variants, bucket).Ok? && i < |variants|
    ensures Assign(variants, bucket).value == Some(i)
            <==> Boundary(Total(variants[..i])) <= bucket < Boundary(Total(variants[..i + 1]))
    ensures Assign(variants, bucket).value == None <==> Boundary(Total(variants)) <= bucket
  {
    AcceptedIsNonNegative(variants);
    PickBetween(variants, 0.0, bucket as real / 100.0, i);
    PickNone(variants, 0.0, bucket as real / 100.0);
    BelowBoundary(bucket, Total(variants[..i]));
    BelowBoundary(bucket, Total(variants[..i + 1]));
    BelowBoundary(bucket, Total(variants));
  }

  // ---------- how many buckets a variant gets ----------

  /** How many of the first `n` buckets go to variant `i`. */
  function Count(variants: seq<Variant>, i: nat, n: nat): nat {
    if n == 0 then 0
    else Count(variants, i, n - 1) + (if Assign(variants, n - 1) == Ok(Some(i)) then 1 else 0)
  }

  function Capped(bound: int, n: nat): int {
    if bound < n then bound else n
  }

  lemma {:induction false} CountIsDistance(variants: seq<Variant>, i: nat, n: nat)
    requires Assign(variants, 0).Ok? && i < |variants|
    ensures 0 <= Boundary(Total(variants[..i])) <= Boundary(Total(variants[..i + 1]))
    ensures Count(variants, i, n) == Capped(Boundary(Total(variants[..i + 1])),
                                            n) - Capped(Boundary(Total(variants[..i])), n)
  {
    AcceptedIsNonNegative(variants);
    TotalGrows(variants[..i + 1], i);
    assert variants[..i + 1][..i] == variants[..i];
    TotalGrows(variants[..i], 0);
    if n > 0 {
      CountIsDistance(variants, i, n - 1);
      AssignedBetween(variants, n - 1, i);
    }
  }

  lemma {:induction false} TotalNext(variants: seq<Variant>, i: nat)
    requires i < |variants|
    ensures Total(variants[..i + 1]) == Total(variants[..i]) + Share(variants[i])
  {
    if i == 0 {
      assert variants[..1][1..] == [] && variants[..0] == [];
    } else {
      TotalNext(variants[1..], i - 1);
      assert variants[..i + 1][1..] == variants[1..][..i] && variants[..i][1..] == variants[1..][..i - 1];
    }
  }

  /** What the accepted sum exceeds 100 percent by, in hundredths. */
  function Excess(variants: seq<Variant>): real {
    if Total(variants) > 100.0 then 100.0 * (Total(variants) - 100.0) else 0.0
  }

  /** A boundary that is capped falls short of the sum by the excess at most. */
  lemma Rounding(percent: real, excess: real)
    requires 0.0 <= 100.0 * percent <= 10000.0 + excess && excess >= 0.0
    ensures 100.0 * percent - excess <= Capped(Boundary(percent), BUCKETS) as real < 100.0 * percent + 1.0
    ensures 100.0 * percent <= 10000.0 ==> 100.0 * percent <= Capped(Boundary(percent), BUCKETS) as real
    ensures 100.0 * percent > 10000.0 ==> Capped(Boundary(percent), BUCKETS) == BUCKETS
  {
  }

  /** The number of buckets a variant gets is its allocation in hundredths, up to less than one bucket and what
      the accepted sum exceeds 100 percent by, which is at most a ten-thousandth of one. */
  lemma AllocationIsFair(variants: seq<Variant>, i: nat)
    requires Assign(variants, 0).Ok? && i < |variants|
    ensures variants[i].allocation.Some?
    ensures -1.0 - Excess(variants)
            < Count(variants, i, BUCKETS) as real - 100.0 * variants[i].allocation.value < 1.0
    ensures 0.0 <= Excess(variants) <= 0.0001
  {
    AcceptedIff(variants, 0);
    assert InRange(variants[i]);
    AcceptedIsNonNegative(variants);
    CountIsDistance(variants, i, BUCKETS);
    TotalGrows(variants, i);
    TotalGrows(variants, i + 1);
    TotalNext(variants, i);
    Rounding(Total(variants[..i]), Excess(variants));
    Rounding(Total(variants[..i + 1]), Excess(variants));
  }

  ghost predicate IsHundredths(percent: real) {
    (percent * 100.0).Floor as real == percent * 100.0
  }

  /** Every allocation is a whole number of hundredths of a percent. */
  ghost predicate InHundredths(variants: seq<Variant>) {
    forall i :: 0 <= i < |variants| ==> IsHundredths(Share(variants[i]))
  }

  lemma SumInHundredths(a: real, b: real)
    requires IsHundredths(a) && IsHundredths(b)
    ensures IsHundredths(a + b)
  {
    var x, y := (a * 100.0).Floor, (b * 100.0).Floor;
    assert (a + b) * 100.0 == (x + y) as real;
    assert ((x + y) as real).Floor == x + y;
  }

  lemma BoundaryOfHundredths(percent: real)
    requires IsHundredths(percent)
    ensures Boundary(percent) as real == percent * 100.0
  {
    var x := (percent * 100.0).Floor;
    assert -(percent * 100.0) == (-x) as real;
    assert ((-x) as real).Floor == -x;
  }

  lemma {:induction false} TotalInHundredths(variants: seq<Variant>)
    requires InHundredths(variants)
    ensures IsHundredths(Total(variants))
  {
    if variants != [] {
      assert forall i :: 0 <= i < |variants[1..]| ==> variants[1..][i] == variants[i + 1];
      TotalInHundredths(variants[1..]);
      SumInHundredths(Share(variants[0]), Total(variants[1..]));
    }
  }

  /** Then no sum beyond 100 percent is accepted, ... */
  lemma HundredthsStayInBounds(variants: seq<Variant>)
    requires Assign(variants, 0).Ok? && InHundredths(variants)
    ensures Total(variants) <= 100.0
  {
    TotalInHundredths(variants);
    BoundaryOfHundredths(Total(variants));
    assert Boundary(Total(variants)) <= 10000;
  }

  /** ... and the allocation is exact. */
  lemma AllocationIsExact(variants: seq<Variant>, i: nat)
    requires Assign(variants, 0).Ok? && i < |variants| && InHundredths(variants)
    ensures variants[i].allocation.Some? && Count(variants, i, 10000) as real == 100.0 * variants[i].allocation.value
  {
    AcceptedIff(variants, 0);
    assert InRange(variants[i]);
    AcceptedIsNonNegative(variants);
    HundredthsStayInBounds(variants);
    CountIsDistance(variants, i, BUCKETS);
    TotalGrows(variants, i + 1);
    TotalNext(variants, i);
    TotalInHundredths(variants[..i]);
    TotalInHundredths(variants[..i + 1]);
    BoundaryOfHundredths(Total(variants[..i]));
    BoundaryOfHundredths(Total(variants[..i + 1]));
  }

  /** Every bucket is assigned exactly when the allocations reach all of them. */
  lemma AllAssignedIff(variants: seq<Variant>)
    requires Assign(variants, 0).Ok? && variants != []
    ensures (forall bucket: nat :: bucket < BUCKETS ==> Assign(variants, bucket).value.Some?)
            <==> Total(variants) > 99.99
  {
    forall bucket: nat
      ensures Assign(variants, bucket).Ok?
      ensures (Assign(variants, bucket).value == None <==> Boundary(Total(variants)) <= bucket)
    {
      AssignedBetween(variants, bucket, 0);
    }
    BelowBoundary(9999, Total(variants));
    assert Assign(variants, 9999).value == None <==> Boundary(Total(variants)) <= 9999;
  }

  lemma {:induction false} PickAppend(variants: seq<Variant>, v: Variant, cursor: real, point: real)
    ensures Pick(variants, cursor, point).Some? ==> Pick(variants + [v], cursor, point) == Pick(variants, cursor, point)
  {
    if variants != [] {
      assert (variants + [v])[1..] == variants[1..] + [v];
      PickAppend(variants[1..], v, cursor + Share(variants[0]), point);
    }
  }

  /** Adding a variant at the end moves nobody who was assigned. */
  lemma AppendingMovesNobody(variants: seq<Variant>, v: Variant, bucket: nat)
    requires Assign(variants, bucket).Ok? && Assign(variants, bucket).value.Some? && Assign(variants + [v], bucket).Ok?
    ensures Assign(variants + [v], bucket) == Assign(variants, bucket)
  {
    PickAppend(variants, v, 0.0, bucket as real / 100.0);
  }
}
