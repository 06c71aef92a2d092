/** A loop over a list of work items that stops at the first failing item and may be started again over the
    state an earlier execution left behind.

    Nothing here depends on what a turn does. A turn is resumable when an item, once worked off, stays
    worked off, and working it off again changes nothing. */
module ResumableLoop {
  import opened Wrappers

  datatype Progress<S> = Progress(state: S, done: nat, raised: bool)

  /** The turns over the first `n` items; None is an exception, at which the loop stops. */
  function Loop<S, X>(turn: (S, X) -> Option<S>, s: S, xs: seq<X>, n: nat): (p: Progress<S>)
    requires n <= |xs|
    ensures p.done <= n && (p.raised <==> p.done < n)
  {
    if n == 0 then Progress(s, 0, false)
    else
      var p := Loop(turn, s, xs, n - 1);
      if p.raised then p
      else
        match turn(p.state, xs[n - 1])
        case None => p.(raised := true)
        case Some(next) => Progress(next, n, false)
  }

  ghost predicate Resumable<S(!new), X(!new)>(turn: (S, X) -> Option<S>, settled: (S, X) -> bool) {
    && (forall s, x :: settled(s, x) ==> turn(s, x) == Some(s))
    && (forall s, x :: turn(s, x).Some? ==> settled(turn(s, x).value, x))
    && (forall s, x, y :: settled(s, x) && turn(s, y).Some? ==> settled(turn(s, y).value, x))
  }

  ghost predicate Keeps<S(!new), X(!new)>(turn: (S, X) -> Option<S>, holds: S -> bool) {
    forall s, x :: holds(s) && turn(s, x).Some? ==> holds(turn(s, x).value)
  }

  lemma {:induction false} LoopKeeps<S(!new), X(!new)>(
      turn: (S, X) -> Option<S>, holds: S -> bool, s: S, xs: seq<X>, n: nat)
    requires n <= |xs| && Keeps(turn, holds) && holds(s)
    ensures holds(Loop(turn, s, xs, n).state)
  {
    if n > 0 {
      LoopKeeps(turn, holds, s, xs, n - 1);
    }
  }

  /** A property that may speak of the number of items done. */
  lemma {:induction false} LoopTracks<S(!new), X(!new)>(
      turn: (S, X) -> Option<S>, holds: (S, nat) -> bool, s: S, xs: seq<X>, n: nat)
    requires n <= |xs| && holds(s, 0)
    requires forall u, i: nat :: i < |xs| && holds(u, i) && turn(u, xs[i]).Some? ==> holds(turn(u, xs[i]).value, i + 1)
    ensures holds(Loop(turn, s, xs, n).state, Loop(turn, s, xs, n).done)
  {
    if n > 0 {
      LoopTracks(turn, holds, s, xs, n - 1);
    }
  }

  /** The loop gets through exactly as far as `good` holds, if `good` says which turns are taken. */
  lemma {:induction false} LoopCompletes<S(!new), X(!new)>(
      turn: (S, X) -> Option<S>, holds: (S, nat) -> bool, good: nat -> bool, s: S, xs: seq<X>, n: nat)
    requires n <= |xs| && holds(s, 0) && good(0)
    requires forall u, i: nat :: i < |xs| && holds(u, i) && turn(u, xs[i]).Some? ==> holds(turn(u, xs[i]).value, i + 1)
    requires forall u, i: nat :: i < |xs| && holds(u, i) && good(i) ==> (turn(u, xs[i]).Some? <==> good(i + 1))
    requires forall i: nat :: i < |xs| && !good(i) ==> !good(i + 1)
    ensures !Loop(turn, s, xs, n).raised <==> good(n)
  {
    if n > 0 {
      LoopCompletes(turn, holds, good, s, xs, n - 1);
      LoopTracks(turn, holds, s, xs, n - 1);
    }
  }

  /** Whatever the loop got done is settled in the state it leaves. */
  lemma {:induction false} LoopSettles<S(!new), X(!new)>(
      turn: (S, X) -> Option<S>, settled: (S, X) -> bool, s: S, xs: seq<X>, n: nat)
    requires n <= |xs| && Resumable(turn, settled)
    ensures forall i :: 0 <= i < Loop(turn, s, xs, n).done ==> settled(Loop(turn, s, xs, n).state, xs[i])
  {
    if n > 0 {
      LoopSettles(turn, settled, s, xs, n - 1);
    }
  }

  /** The state a loop leaves is that of its last completed turn. */
  lemma {:induction false} LoopAtDone<S, X>(turn: (S, X) -> Option<S>, s: S, xs: seq<X>, n: nat)
    requires n <= |xs|
    ensures var p := Loop(turn, s, xs, n);
            Loop(turn, s, xs, p.done) == Progress(p.state, p.done, false)
  {
    if n > 0 {
      LoopAtDone(turn, s, xs, n - 1);
    }
  }

  /** A loop that raised raises in the same place however far it is let run. */
  lemma {:induction false} LoopStays<S, X>(turn: (S, X) -> Option<S>, s: S, xs: seq<X>, n: nat, m: nat)
    requires n <= m <= |xs| && Loop(turn, s, xs, n).raised
    ensures Loop(turn, s, xs, m) == Loop(turn, s, xs, n)
    decreases m
  {
    if n < m {
      LoopStays(turn, s, xs, n, m - 1);
    }
  }

  /** Starting over from the state an execution of `j` items left: the part already done changes nothing,
      and from there on everything is as it would have been. */
  lemma {:induction false} LoopAgain<S(!new), X(!new)>(
      turn: (S, X) -> Option<S>, settled: (S, X) -> bool, s: S, xs: seq<X>, j: nat, n: nat)
    requires j <= |xs| && n <= |xs| && Resumable(turn, settled)
    ensures var p := Loop(turn, s, xs, j);
            Loop(turn, p.state, xs, n) == (if n <= p.done then Progress(p.state, n, false) else Loop(turn, s, xs, n))
    decreases n
  {
    var p := Loop(turn, s, xs, j);
    if n > 0 {
      LoopAgain(turn, settled, s, xs, j, n - 1);
      LoopSettles(turn, settled, s, xs, j);
      LoopAtDone(turn, s, xs, j);
      if n <= p.done {
        assert settled(p.state, xs[n - 1]);
      }
    }
  }

  /** One more turn: it is taken, or it ends every longer loop. */
  lemma LoopNext<S, X>(turn: (S, X) -> Option<S>, s: S, xs: seq<X>, i: nat, u: S, n: nat)
    requires i < n <= |xs| && Loop(turn, s, xs, i) == Progress(u, i, false)
    ensures turn(u, xs[i]).Some? ==> Loop(turn, s, xs, i + 1) == Progress(turn(u, xs[i]).value, i + 1, false)
    ensures turn(u, xs[i]).None? ==> Loop(turn, s, xs, n) == Progress(u, i, true)
  {
    if turn(u, xs[i]).None? {
      LoopStays(turn, s, xs, i + 1, n);
    }
  }

  // ---------- one execution of the loop, cut short by a crash or not ----------

  datatype Ended<S, E> = Ended(state: S, ending: E)

  /** Every turn, and then the finish, is one commit; the execution dies after `commits` of them. */
  function Work<S, X, E>(turn: (S, X) -> Option<S>, finish: Progress<S> -> Ended<S, E>, killed: E,
                         s: S, xs: seq<X>, commits: nat): Ended<S, E> {
    var p := Loop(turn, s, xs, if commits < |xs| then commits else |xs|);
    if commits <= p.done then Ended(p.state, killed) else finish(p)
  }

  /** Work resumed from the state an execution of `j` items left is the same as work from the start, unless
      it dies without having changed anything. */
  lemma WorkAgain<S(!new), X(!new), E>(
      turn: (S, X) -> Option<S>, settled: (S, X) -> bool, finish: Progress<S> -> Ended<S, E>, killed: E,
      s: S, xs: seq<X>, j: nat, commits: nat)
    requires j <= |xs| && Resumable(turn, settled)
    ensures var from := Loop(turn, s, xs, j).state;
            var w := Work(turn, finish, killed, from, xs, commits);
            w == Work(turn, finish, killed, s, xs, commits) || (w == Ended(from, killed) && commits <= |xs|)
  {
    LoopAgain(turn, settled, s, xs, j, if commits < |xs| then commits else |xs|);
    LoopAtDone(turn, s, xs, j);
  }

  /** Work that dies leaves the state after its commits; work that does not is the whole of it. */
  lemma WorkEnds<S, X, E>(turn: (S, X) -> Option<S>, finish: Progress<S> -> Ended<S, E>, killed: E,
                          s: S, xs: seq<X>, commits: nat)
    ensures var w := Work(turn, finish, killed, s, xs, commits);
            || (commits <= |xs| && w == Ended(Loop(turn, s, xs, commits).state, killed))
            || w == Work(turn, finish, killed, s, xs, |xs| + 1)
  {
    var n := if commits < |xs| then commits else |xs|;
    if Loop(turn, s, xs, n).raised {
      LoopStays(turn, s, xs, n, |xs|);
    }
  }

  /** How an execution ends that has come to item `i`: dead, at a failing turn, or after the last one. */
  lemma WorkDecided<S, X, E>(turn: (S, X) -> Option<S>, finish: Progress<S> -> Ended<S, E>, killed: E,
                             s: S, xs: seq<X>, commits: nat, i: nat, u: S)
    requires i <= commits && i <= |xs| && Loop(turn, s, xs, i) == Progress(u, i, false)
    ensures i == commits ==> Work(turn, finish, killed, s, xs, commits) == Ended(u, killed)
    ensures i < commits && i < |xs| && turn(u, xs[i]).None?
            ==> Work(turn, finish, killed, s, xs, commits) == finish(Progress(u, i, true))
    ensures i < commits && i == |xs| ==> Work(turn, finish, killed, s, xs, commits) == finish(Progress(u, i, false))
  {
    if i < commits && i < |xs| {
      LoopNext(turn, s, xs, i, u, if commits < |xs| then commits else |xs|);
    }
  }
}
