// The free list and the bump pointer over whole runs: a stack, and an index.
module AllocatorRuns {
  import opened Words
  import opened Protocol
  import opened AdvertiserModel
  import opened SlotPartition
  import opened Allocator
  import opened SlotRoles
  import opened GridBound

  lemma BumpMovesOn(cfg: Cfg, a: Adv, e: Event)
    requires WF(cfg, a) && InRange(cfg, e) && PointerBounded(cfg, a) && Bumps(a, e)
    ensures Lin(cfg, Bump(cfg, a.last)) == Lin(cfg, a.last) + 1
  {
    RoomToBump(cfg, a, e.loc);
    BumpIndex(cfg, a.last);
  }

  /** After any run the two-byte bump pointer is the linear index of the slots drawn since start-up; its
      subevent byte never overflows. */
  lemma {:induction false} PointerIsIndex(t: Run, i: nat)
    requires i <= |t.events|
    ensures var n := Drawn(DrawsOf(t), t.cfg.reserved, i);
      t.states[i].last == NthFresh(t.cfg, n) && Lin(t.cfg, t.states[i].last) == t.cfg.reserved + n
  {
    if i > 0 {
      PointerIsIndex(t, i - 1);
      assert t.Moves(i - 1);
      var a, e := t.states[i - 1], t.events[i - 1];
      StepDraws(t.cfg, a, e);
      if Bumps(a, e) {
        PointerStaysBounded(t, i - 1);
        BumpMovesOn(t.cfg, a, e);
      }
    }
    if i == 0 || DrawsOf(t)[i - 1].Restarting? {
      NthFreshIndex(t.cfg, t.cfg.reserved);
    }
  }

  lemma {:induction false} DrawnGrows(ds: seq<Draw>, reserved: nat, i: nat, j: nat)
    requires i <= j <= |ds| && Undisturbed(ds, i, j)
    ensures Drawn(ds, reserved, i) <= Drawn(ds, reserved, j)
    ensures i < j && ds[i].Bumping? ==> Drawn(ds, reserved, i) < Drawn(ds, reserved, j)
  {
    if i < j {
      DrawnGrows(ds, reserved, i, j - 1);
    }
  }

  /** Within one boot the fresh slots are issued in row-major order, starting behind the 2k that start-up
      takes, and none of them twice. */
  lemma FreshIssuedOnce(t: Run, i: nat, j: nat)
    requires i < j < |t.events| && Undisturbed(DrawsOf(t), i, j)
    requires DrawsOf(t)[i].Bumping? && DrawsOf(t)[j].Bumping?
    ensures var x, y := Issued(t.cfg, t.states[i]), Issued(t.cfg, t.states[j]);
      && Lin(t.cfg, x) == t.cfg.reserved + Drawn(DrawsOf(t), t.cfg.reserved, i)
      && Lin(t.cfg, y) == t.cfg.reserved + Drawn(DrawsOf(t), t.cfg.reserved, j)
      && Lin(t.cfg, x) < Lin(t.cfg, y)
  {
    var k, ds := t.cfg.reserved, DrawsOf(t);
    DrawnGrows(ds, k, i, j);
    PointerIsIndex(t, i);
    PointerIsIndex(t, j);
  }

  // ---- the free list as a stack ----------------------------------------------------------

  lemma {:induction false} AgeingPushes(cfg: Cfg, a: Adv, sub: nat, n: nat)
    requires WF(cfg, a) && sub < cfg.subevents && n <= cfg.slots
    ensures a.free <= AgeUpTo(cfg, a, sub, n).free
  {
    if n > 0 {
      AgeingPushes(cfg, a, sub, n - 1);
    }
  }

  lemma VisitPushes(cfg: Cfg, a: Adv, sub: nat)
    requires WF(cfg, a) && sub < cfg.subevents
    ensures a.free <= Step(cfg, a, Visit(sub)).free
  {
    AgeingPushes(cfg, if sub == 0 then a.(r := a.r + 1) else a, sub, cfg.slots);
  }

  lemma ResponseMoves(cfg: Cfg, a: Adv, e: Event)
    requires WF(cfg, a) && InRange(cfg, e) && e.Response?
    ensures var b := Step(cfg, a, e);
      if Issues(a, e) && a.free != [] then a.free == b.free + [Issued(cfg, a)] else a.free <= b.free
  {
    var b := Step(cfg, a, e);
    if !Accepted(a, e) {
      assert b.free == a.free || b.free == a.free + [e.loc];
    } else if Issues(a, e) && a.free != [] {
      var n := |a.free| - 1;
      assert b.free == a.free[..n];
      assert a.free == a.free[..n] + [a.free[n]];
    } else {
      assert b.free == a.free;
    }
  }

  /** A step pushes on the free list or takes its newest slot; it takes one exactly when it issues one
      and the list is not empty. */
  lemma StepIsStackMove(cfg: Cfg, a: Adv, e: Event)
    requires WF(cfg, a) && InRange(cfg, e) && !e.Reboot?
    ensures var b := Step(cfg, a, e);
      if Issues(a, e) && a.free != [] then a.free == b.free + [Issued(cfg, a)] else a.free <= b.free
  {
    match e
    case Visit(sub) => VisitPushes(cfg, a, sub);
    case Response(_, _, _, _) => ResponseMoves(cfg, a, e);
    case _ =>
  }

  /** Whatever lies below the lowest level the free list reaches between two points of a run is still there
      at the end. */
  lemma {:induction false} StackBelowIsKept(t: Run, i: nat, j: nat, h: nat)
    requires i <= j <= |t.events| && Undisturbed(DrawsOf(t), i, j)
    requires forall m :: i <= m <= j ==> |t.states[m].free| >= h
    ensures t.states[j].free[..h] == t.states[i].free[..h]
  {
    if i < j {
      StackBelowIsKept(t, i, j - 1, h);
      assert t.Moves(j - 1);
      assert DrawsOf(t)[j - 1] != Restarting;
      StepIsStackMove(t.cfg, t.states[j - 1], t.events[j - 1]);
    }
  }

  /** The slot at the top of the free list at some point of a run is the one issued when the list is next
      at that height: of the slots freed and not yet issued again, the newest comes first. */
  lemma NewestFreedIsIssued(t: Run, i: nat, j: nat)
    requires i <= j < |t.events| && Undisturbed(DrawsOf(t), i, j)
    requires |t.states[i].free| > 0 && |t.states[j].free| == |t.states[i].free|
    requires forall m :: i <= m <= j ==> |t.states[m].free| >= |t.states[i].free|
    ensures Issued(t.cfg, t.states[j]) == t.states[i].free[|t.states[i].free| - 1]
    ensures Issues(t.states[j], t.events[j]) ==> t.states[j + 1].free == t.states[i].free[..|t.states[i].free| - 1]
  {
    var h := |t.states[i].free|;
    StackBelowIsKept(t, i, j, h);
    assert t.states[j].free == t.states[i].free;
    assert t.Moves(j);
    if Issues(t.states[j], t.events[j]) {
      StepIsStackMove(t.cfg, t.states[j], t.events[j]);
    }
  }
}
