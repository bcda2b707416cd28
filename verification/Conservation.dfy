// Slots are conserved: what the bump pointer has handed out is reserved, on offer, free or held.
module Conservation {
  import opened Words
  import opened Protocol
  import opened AdvertiserModel
  import opened SlotRoles
  import opened SlotPartition

  ghost function OccupiedSet(a: Adv): set<Loc> {
    set s: u8, j: u8 | s < |a.slots| && j < |a.slots[s]| && a.slots[s][j].dev != 0 :: Loc(s, j)
  }

  lemma InOccupiedSet(a: Adv, l: Loc)
    ensures l in OccupiedSet(a) <==> Occupied(a, l)
  {
    if Occupied(a, l) {
      assert l == Loc(l.sub, l.slot);
    }
  }

  /** Slots that are neither on offer nor available: registered ones and leaked ones. */
  ghost function Held(a: Adv): nat {
    |OccupiedSet(a)| + |a.leaked|
  }

  /** Conservation: the bump pointer has passed exactly the reserved, advertised, free and held slots. */
  ghost predicate Counted(cfg: Cfg, a: Adv) {
    Lin(cfg, a.last) == 2 * cfg.reserved + |a.free| + Held(a)
  }

  /** The roles partition the grid, and nothing is lost. */
  ghost predicate Sound(cfg: Cfg, a: Adv) {
    Partitioned(cfg, a) && Counted(cfg, a)
  }

  // ---- conservation, step by step --------------------------------------------------------

  lemma SameOccupied(a: Adv, b: Adv)
    requires forall l :: Occupied(a, l) <==> Occupied(b, l)
    ensures OccupiedSet(a) == OccupiedSet(b)
  {
    forall l: Loc
      ensures l in OccupiedSet(a) <==> l in OccupiedSet(b)
    {
      InOccupiedSet(a, l);
      InOccupiedSet(b, l);
    }
  }

  lemma OneMoreOccupied(a: Adv, b: Adv, l: Loc)
    requires Occupied(b, l) && !Occupied(a, l)
    requires forall x :: x != l ==> (Occupied(a, x) <==> Occupied(b, x))
    ensures |OccupiedSet(b)| == |OccupiedSet(a)| + 1
  {
    forall x: Loc
      ensures x in OccupiedSet(b) <==> x in OccupiedSet(a) + {l}
    {
      InOccupiedSet(a, x);
      InOccupiedSet(b, x);
    }
    InOccupiedSet(a, l);
    assert OccupiedSet(b) == OccupiedSet(a) + {l};
  }

  lemma PushCounts(cfg: Cfg, a: Adv, b: Adv, l: Loc)
    requires Partitioned(cfg, a) && Counted(cfg, a) && InGrid(cfg, l) && Occupied(a, l)
    requires exists idle :: b == Push(cfg, Put(cfg, a, l, Slot(0, idle)), l)
    ensures Counted(cfg, b)
  {
    assert Roles(cfg, a, l) == 1;
    OneMoreOccupied(b, a, l);
    if |a.free| < cfg.capacity {
      assert a.leaked - {l} == a.leaked;
    }
  }

  lemma AgeSlotCounts(cfg: Cfg, a: Adv, l: Loc)
    requires Partitioned(cfg, a) && Counted(cfg, a) && InGrid(cfg, l)
    ensures Counted(cfg, AgeSlot(cfg, a, l))
  {
    if Expires(At(a, l)) {
      PushCounts(cfg, a, AgeSlot(cfg, a, l), l);
    } else {
      SameOccupied(a, AgeSlot(cfg, a, l));
    }
  }

  lemma {:induction false} AgeCounts(cfg: Cfg, a: Adv, sub: nat, n: nat)
    requires Partitioned(cfg, a) && Counted(cfg, a) && sub < cfg.subevents && n <= cfg.slots
    ensures Counted(cfg, AgeUpTo(cfg, a, sub, n))
  {
    if n > 0 {
      AgeCounts(cfg, a, sub, n - 1);
      AgeKeeps(cfg, a, sub, n - 1);
      AgeSlotCounts(cfg, AgeUpTo(cfg, a, sub, n - 1), Loc(sub, n - 1));
    }
  }

  lemma RegisterCounts(cfg: Cfg, a: Adv, l: Loc, sender: u16, counter: nat)
    requires Partitioned(cfg, a) && Counted(cfg, a) && (l in a.reg ==> Room(cfg, a))
    requires InGrid(cfg, l) && At(a, l).dev == 0 && sender != 0
    requires l in a.reg || l in a.leaked
    ensures Counted(cfg, Accept(cfg, a, l, sender, counter))
  {
    assert Roles(cfg, a, l) == 1;
    OneMoreOccupied(a, Accept(cfg, a, l, sender, counter), l);
    if l in a.reg {
      assert a.leaked - {l} == a.leaked;
      BumpIndex(cfg, a.last);
    }
  }

  lemma ResponseCounts(cfg: Cfg, a: Adv, e: Event)
    requires Partitioned(cfg, a) && Counted(cfg, a) && e.Response? && Legal(cfg, a, e)
    requires Clean(cfg, a, e) && (e.loc in a.reg ==> Room(cfg, a))
    ensures Counted(cfg, Step(cfg, a, e))
  {
    var b := Step(cfg, a, e);
    if At(a, e.loc).dev == 0 {
      if Accepted(a, e) {
        RegisterCounts(cfg, a, e.loc, e.sender, e.counter);
      } else {
        SameOccupied(a, b);
      }
    } else if Accepted(a, e) {
      SameOccupied(a, b);
    } else {
      PushCounts(cfg, a, b, e.loc);
    }
  }

  /** No slot is created or lost: a clean step keeps the count. */
  lemma CountStep(cfg: Cfg, a: Adv, e: Event)
    requires Partitioned(cfg, a) && Counted(cfg, a) && Legal(cfg, a, e) && Clean(cfg, a, e)
    requires e.Response? && e.loc in a.reg ==> Room(cfg, a)
    ensures Counted(cfg, Step(cfg, a, e))
  {
    match e
    case Fold => SameOccupied(a, Step(cfg, a, e));
    case Visit(sub) =>
      var v := if sub == 0 then a.(r := a.r + 1) else a;
      SameSlots(cfg, a, v);
      SameOccupied(a, v);
      AgeCounts(cfg, v, sub, cfg.slots);
    case Response(_, _, _, _) => ResponseCounts(cfg, a, e);
    case Noop =>
    case Reboot => BootCounted(cfg, Stored(a.c));
  }

  lemma BootCounted(cfg: Cfg, c: nat)
    requires cfg.Valid()
    ensures Counted(cfg, Boot(cfg, c))
  {
    var a := Boot(cfg, c);
    BootPartitioned(cfg, c);
    forall l: Loc
      ensures l !in OccupiedSet(a)
    {
      InOccupiedSet(a, l);
    }
    assert OccupiedSet(a) == {};
  }

  // ---- the bump pointer ------------------------------------------------------------------

  /** The bump pointer moves only when no freed slot is available. */
  lemma BumpOnlyWhenDry(cfg: Cfg, a: Adv, e: Event)
    requires WF(cfg, a) && InRange(cfg, e)
    ensures var b := Step(cfg, a, e);
      b.last == a.last || (|a.free| == 0 && |b.free| == 0 && b.last == Bump(cfg, a.last)) || e == Reboot
    ensures e == Reboot ==> |Step(cfg, a, e).free| == 0
  {
  }

  // ---- along a run -----------------------------------------------------------------------

  /** Number of slots held after each step. */
  ghost function HeldAlong(t: Run): (hs: seq<nat>)
    ensures |hs| == |t.states|
    ensures forall i :: 0 <= i < |hs| ==> hs[i] == Held(t.states[i])
  {
    seq(|t.states|, i requires 0 <= i < |t.states| => Held(t.states[i]))
  }

  /** State n of a run is sound, with the bump pointer at a given peak. */
  ghost predicate AtPeak(t: Run, n: nat, peak: nat)
    requires n <= |t.events|
  {
    Sound(t.cfg, t.states[n]) && Lin(t.cfg, t.states[n].last) == 2 * t.cfg.reserved + peak
  }

  /** The largest of hs[b], ..., hs[n]. */
  function Peak(hs: seq<nat>, b: nat, n: nat): (p: nat)
    requires b <= n < |hs|
    ensures forall i :: b <= i <= n ==> hs[i] <= p
    ensures exists i :: b <= i <= n && hs[i] == p
  {
    if n == b then hs[b] else
    var p := Peak(hs, b, n - 1);
    if hs[n] > p then hs[n] else p
  }

  /** The start-up that state n belongs to: no reboot came since. */
  ghost function LatestStart(t: Run, n: nat): (b: nat)
    requires n <= |t.events|
    ensures b <= n && (b == 0 || t.events[b - 1].Reboot?)
    ensures forall i :: b <= i < n ==> !t.events[i].Reboot?
  {
    if n == 0 || t.events[n - 1].Reboot? then n else LatestStart(t, n - 1)
  }

  /** Steps b, ..., n - 1 are clean. */
  ghost predicate CleanFrom(t: Run, b: nat, n: nat)
    requires b <= n <= |t.events|
  {
    forall i :: b <= i < n ==> Clean(t.cfg, t.states[i], t.events[i])
  }
}
