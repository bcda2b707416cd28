// The bump pointer on every run, clean or not: slots outside the grid are never taken, so the pointer stops.
module GridBound {
  import opened Words
  import opened Protocol
  import opened AdvertiserModel
  import opened SlotRoles
  import opened SlotPartition
  import opened Allocator

  /** What one step does to the bump pointer and the advertised slots. */
  lemma StepDraws(cfg: Cfg, a: Adv, e: Event)
    requires WF(cfg, a) && InRange(cfg, e)
    ensures Step(cfg, a, e).last == match DrawOf(a, e)
      case Restarting => NthFresh(cfg, cfg.reserved)
      case Bumping => Bump(cfg, a.last)
      case Keeping => a.last
    ensures Issues(a, e) ==>
      var i := FirstIndex(a.reg, e.loc);
      i.Some? && Step(cfg, a, e).reg == a.reg[i.value := Issued(cfg, a)]
    ensures !Issues(a, e) && !e.Reboot? ==> Step(cfg, a, e).reg == a.reg
  {
  }

  // ---- counting entries outside the grid ---------------------------------------------------

  lemma {:induction false} OutsideReplaced(cfg: Cfg, ls: seq<Loc>, i: nat, l: Loc)
    requires i < |ls|
    ensures Outside(cfg, ls[i := l]) + One(!InGrid(cfg, ls[i])) == Outside(cfg, ls) + One(!InGrid(cfg, l))
  {
    var n := |ls| - 1;
    if i < n {
      OutsideReplaced(cfg, ls[..n], i, l);
      assert ls[i := l][..n] == ls[..n][i := l];
    } else {
      assert ls[i := l][..n] == ls[..n];
    }
  }

  lemma {:induction false} OutsideBound(cfg: Cfg, ls: seq<Loc>)
    ensures Outside(cfg, ls) <= |ls|
    ensures Outside(cfg, ls) == |ls| ==> forall i :: 0 <= i < |ls| ==> !InGrid(cfg, ls[i])
    ensures Outside(cfg, ls) == 0 <==> forall i :: 0 <= i < |ls| ==> InGrid(cfg, ls[i])
  {
    if |ls| > 0 {
      var n := |ls| - 1;
      OutsideBound(cfg, ls[..n]);
      assert forall i :: 0 <= i < n ==> ls[..n][i] == ls[i];
    }
  }

  // ---- the invariant ---------------------------------------------------------------------

  /** While some slot on offer is in the grid, the subevent byte of the bump pointer does not overflow. */
  lemma RoomToBump(cfg: Cfg, a: Adv, l: Loc)
    requires WF(cfg, a) && PointerBounded(cfg, a) && InGrid(cfg, l) && l in a.reg
    ensures Room(cfg, a)
  {
    OutsideBound(cfg, a.reg);
    if cfg.subevents < 255 {
      SubGap(cfg.slots, cfg.subevents, 255);
    }
  }

  lemma {:induction false} StartOutside(cfg: Cfg, n: nat)
    requires cfg.Valid() && n <= cfg.reserved
    ensures cfg.reserved + n <= cfg.subevents * cfg.slots
                                + Outside(cfg, seq(n, i requires 0 <= i => NthFresh(cfg, i)))
  {
    if n == 0 {
      SubGap(cfg.slots, 0, cfg.subevents);
    } else {
      StartOutside(cfg, n - 1);
      NthFreshIndex(cfg, n - 1);
      LinGrid(cfg, NthFresh(cfg, n - 1));
      var ls := seq(n, i requires 0 <= i => NthFresh(cfg, i));
      assert ls[..n - 1] == seq(n - 1, i requires 0 <= i => NthFresh(cfg, i));
    }
  }

  lemma BootBounded(cfg: Cfg, c: nat)
    requires cfg.Valid()
    ensures PointerBounded(cfg, Boot(cfg, c))
  {
    StartOutside(cfg, cfg.reserved);
    NthFreshIndex(cfg, cfg.reserved);
  }

  lemma IssueBounded(cfg: Cfg, a: Adv, e: Event)
    requires WF(cfg, a) && InRange(cfg, e) && PointerBounded(cfg, a) && Issues(a, e)
    ensures PointerBounded(cfg, Step(cfg, a, e))
  {
    var i := FirstIndex(a.reg, e.loc).value;
    StepDraws(cfg, a, e);
    OutsideReplaced(cfg, a.reg, i, Issued(cfg, a));
    if Bumps(a, e) {
      RoomToBump(cfg, a, e.loc);
      BumpIndex(cfg, a.last);
      LinGrid(cfg, a.last);
    }
  }

  /** Every step keeps the bound. */
  lemma BoundedStays(cfg: Cfg, a: Adv, e: Event)
    requires WF(cfg, a) && InRange(cfg, e) && PointerBounded(cfg, a)
    ensures PointerBounded(cfg, Step(cfg, a, e))
  {
    if e.Reboot? {
      BootBounded(cfg, Stored(a.c));
    } else if Issues(a, e) {
      IssueBounded(cfg, a, e);
    } else {
      StepDraws(cfg, a, e);
    }
  }

  /** On every run the bump pointer has left the grid by at most the number of slots on offer outside it. */
  lemma {:induction false} PointerStaysBounded(t: Run, i: nat)
    requires i <= |t.events|
    ensures PointerBounded(t.cfg, t.states[i])
  {
    if i > 0 {
      PointerStaysBounded(t, i - 1);
      assert t.Moves(i - 1);
      BoundedStays(t.cfg, t.states[i - 1], t.events[i - 1]);
    } else {
      BootBounded(t.cfg, t.states[0].c);
    }
  }

  /** A slot on offer outside the grid stays on offer until the next reboot. */
  lemma OutsideIsStuck(cfg: Cfg, a: Adv, e: Event, i: nat)
    requires WF(cfg, a) && InRange(cfg, e) && !e.Reboot? && i < |a.reg| && !InGrid(cfg, a.reg[i])
    ensures Step(cfg, a, e).reg[i] == a.reg[i]
  {
    StepDraws(cfg, a, e);
  }
}
