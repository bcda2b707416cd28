// Which slots `reserve_slot` gives out over a run: what a step takes from the allocator.
module Allocator {
  import opened Words
  import opened Protocol
  import opened AdvertiserModel

  /** The step puts a new slot on offer. */
  predicate Issues(a: Adv, e: Event) {
    Accepted(a, e) && At(a, e.loc).dev == 0 && e.loc in a.reg
  }

  /** The slot that `reserve_slot` would give out now. */
  function Issued(cfg: Cfg, a: Adv): Loc {
    Reserve(cfg, a).1
  }

  /** The step takes its new slot from the bump pointer. */
  predicate Bumps(a: Adv, e: Event) {
    Issues(a, e) && a.free == []
  }

  /** What a run tells the allocator: only whether a step bumps or starts again. */
  datatype Draw = Bumping | Restarting | Keeping

  function DrawOf(a: Adv, e: Event): Draw {
    if e.Reboot? then Restarting else if Bumps(a, e) then Bumping else Keeping
  }

  ghost function DrawsOf(t: Run): (ds: seq<Draw>)
    ensures |ds| == |t.events|
    ensures forall i :: 0 <= i < |ds| ==> ds[i] == DrawOf(t.states[i], t.events[i])
  {
    seq(|t.events|, i requires 0 <= i < |t.events| => DrawOf(t.states[i], t.events[i]))
  }

  /** Bumps since the last start-up before draw i, which itself takes the first k. */
  function Drawn(ds: seq<Draw>, reserved: nat, i: nat): nat
    requires i <= |ds|
  {
    if i == 0 then reserved
    else match ds[i - 1]
      case Restarting => reserved
      case Bumping => Drawn(ds, reserved, i - 1) + 1
      case Keeping => Drawn(ds, reserved, i - 1)
  }

  /** No start-up among draws i, ..., j - 1. */
  predicate Undisturbed(ds: seq<Draw>, i: nat, j: nat)
    requires i <= j <= |ds|
  {
    forall m :: i <= m < j ==> ds[m] != Restarting
  }
}
