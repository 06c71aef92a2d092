/** Counting the positions of a list that have a property. */
module Counting {

  /** The positions among the first `n` that have the property. */
  ghost function Positions(n: nat, p: nat -> bool): set<nat> {
    set i: nat | i < n && p(i)
  }

  lemma PositionsNext(n: nat, p: nat -> bool)
    requires n > 0
    ensures |Positions(n, p)| == |Positions(n - 1, p)| + if p(n - 1) then 1 else 0
  {
    assert Positions(n, p) == Positions(n - 1, p) + if p(n - 1) then {n - 1} else {};
  }

  lemma NoPositions(p: nat -> bool)
    ensures Positions(0, p) == {}
  {
  }
}
