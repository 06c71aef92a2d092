/** The time sources the provider adapters are built with: a monotonic clock, a wall clock and
    `sleep`. Any reading may come back later than the one before it, never earlier, and a sleep
    lasts at least as long as was asked for. */
module Clocks {

  /** A sleep: when it was asked for, and for how long. */
  datatype Nap = Nap(asked: real, seconds: real)

  class Clock {
    var mono: real
    var wall: real
    ghost var naps: seq<Nap>  // the calls of `Sleep` so far

    constructor (mono: real, wall: real)
      ensures this.mono == mono && this.wall == wall && naps == []
    {
      this.mono, this.wall, naps := mono, wall, [];
    }

    method Monotonic() returns (t: real)
      modifies this
      ensures t == mono && old(mono) <= mono && old(wall) <= wall && naps == old(naps)
    {
      Elapse(0.0);
      t := mono;
    }

    method Wall() returns (t: real)
      modifies this
      ensures t == wall && old(mono) <= mono && old(wall) <= wall && naps == old(naps)
    {
      Elapse(0.0);
      t := wall;
    }

    method Sleep(seconds: real)
      requires seconds >= 0.0
      modifies this
      ensures old(mono) + seconds <= mono && old(wall) <= wall && naps == old(naps) + [Nap(old(mono), seconds)]
    {
      naps := naps + [Nap(mono, seconds)];
      Elapse(seconds);
    }

    /** Time passes: at least `atLeast` on the monotonic clock, any amount on the wall clock. */
    method Elapse(atLeast: real)
      requires atLeast >= 0.0
      modifies this
      ensures old(mono) + atLeast <= mono && old(wall) <= wall && naps == old(naps)
    {
      var monoStep: real, wallStep: real := *, *;
      mono := mono + atLeast + if monoStep > 0.0 then monoStep else 0.0;
      wall := wall + if wallStep > 0.0 then wallStep else 0.0;
    }
  }
}
