// Where slots go when their owner loses them: back to the allocator, unless the free list is full.
module Releases {
  import opened Words
  import opened Protocol
  import opened AdvertiserModel
  import opened Conservation
  import opened AllocatorRuns

  /** The slot had an owner and has none now. */
  predicate Lost(a: Adv, b: Adv, l: Loc) {
    At(a, l).dev != 0 && At(b, l).dev == 0
  }

  /** The allocator has the slot, or there was no room for it. */
  predicate Returned(cfg: Cfg, b: Adv, l: Loc) {
    l in b.free || (|b.free| == cfg.capacity && l in b.leaked)
  }

  // ---- one step --------------------------------------------------------------------------

  lemma {:induction false} AgeingReturns(cfg: Cfg, a: Adv, sub: nat, n: nat, l: Loc)
    requires WF(cfg, a) && sub < cfg.subevents && n <= cfg.slots && InGrid(cfg, l)
    ensures var b := AgeUpTo(cfg, a, sub, n);
      && (l in a.free ==> l in b.free)
      && (Lost(a, b, l) ==> Returned(cfg, b, l))
      && (l in b.leaked && l !in a.leaked ==> Lost(a, b, l) && |b.free| == cfg.capacity)
  {
    if n > 0 {
      var m := AgeUpTo(cfg, a, sub, n - 1);
      AgeingReturns(cfg, a, sub, n - 1, l);
      var b, x := AgeUpTo(cfg, a, sub, n), Loc(sub, n - 1);
      assert b == AgeSlot(cfg, m, x);
      assert m.free <= b.free;
      if x == l && Expires(At(m, l)) && |m.free| < cfg.capacity {
        assert b.free[|m.free|] == l;
      }
    }
  }

  lemma OnlyGridLeaks(cfg: Cfg, a: Adv, e: Event, l: Loc)
    requires WF(cfg, a) && InRange(cfg, e) && !e.Reboot? && l in Step(cfg, a, e).leaked && l !in a.leaked
    ensures InGrid(cfg, l)
  {
    if e.Visit? {
      AgeingLeaksGrid(cfg, if e.visited == 0 then a.(r := a.r + 1) else a, e.visited, cfg.slots, l);
    }
  }

  lemma {:induction false} AgeingLeaksGrid(cfg: Cfg, a: Adv, sub: nat, n: nat, l: Loc)
    requires WF(cfg, a) && sub < cfg.subevents && n <= cfg.slots
    requires l in AgeUpTo(cfg, a, sub, n).leaked && l !in a.leaked
    ensures InGrid(cfg, l)
  {
    if n > 0 && l in AgeUpTo(cfg, a, sub, n - 1).leaked {
      AgeingLeaksGrid(cfg, a, sub, n - 1, l);
    }
  }

  /** Whenever an owner loses its slot, by silence or by a failed verification, the slot is on the free list
      afterwards, or the free list is full and the slot is leaked. */
  lemma ReleasedIsReturned(cfg: Cfg, a: Adv, e: Event, l: Loc)
    requires WF(cfg, a) && InRange(cfg, e) && InGrid(cfg, l) && !e.Reboot?
    requires Lost(a, Step(cfg, a, e), l)
    ensures Returned(cfg, Step(cfg, a, e), l)
  {
    if e.Visit? {
      AgeingReturns(cfg, if e.visited == 0 then a.(r := a.r + 1) else a, e.visited, cfg.slots, l);
    } else {
      var b := Step(cfg, a, e);
      if |a.free| < cfg.capacity {
        assert b.free[|a.free|] == l;
      }
    }
  }

  /** A slot leaks only as its owner loses it and finds the free list full. */
  lemma LeakIsLoss(cfg: Cfg, a: Adv, e: Event, l: Loc)
    requires WF(cfg, a) && InRange(cfg, e) && !e.Reboot?
    requires l in Step(cfg, a, e).leaked && l !in a.leaked
    ensures Lost(a, Step(cfg, a, e), l) && |Step(cfg, a, e).free| == cfg.capacity
  {
    OnlyGridLeaks(cfg, a, e, l);
    if e.Visit? {
      AgeingReturns(cfg, if e.visited == 0 then a.(r := a.r + 1) else a, e.visited, cfg.slots, l);
    }
  }

  /** A response that fails verification leaves its slot without an owner, and puts it on top of the free
      list, owned before or not, unless that is full. */
  lemma RefusedIsFreed(cfg: Cfg, a: Adv, e: Event)
    requires WF(cfg, a) && InRange(cfg, e) && Rejected(a, e)
    ensures var b := Step(cfg, a, e);
      && At(b, e.loc) == Slot(0, At(a, e.loc).idle) && b.c == a.c && b.r == a.r && b.reg == a.reg && b.last == a.last
      && b.free == if |a.free| < cfg.capacity then a.free + [e.loc] else a.free
  {
  }

  /** A verified response never frees a slot: it takes its slot if nobody owns it, stays in it if its sender
      does, and changes nothing but the counter if somebody else does. */
  lemma AcceptedOwns(cfg: Cfg, a: Adv, e: Event)
    requires WF(cfg, a) && InRange(cfg, e) && Accepted(a, e)
    ensures var b, owner := Step(cfg, a, e), At(a, e.loc).dev;
      && b.c == e.counter && b.r == a.r
      && (owner == 0 || owner == e.sender ==> At(b, e.loc) == Slot(e.sender, 0))
      && (owner != 0 ==> b.reg == a.reg && b.free == a.free && b.last == a.last)
      && (owner != 0 && owner != e.sender ==> b == a.(c := e.counter))
      && (owner == 0 && e.loc !in a.reg ==> b.reg == a.reg && b.free == a.free && b.last == a.last)
      && Emits(cfg, a, e) ==
           [Advert(a.reg, e.counter)] + (if owner == 0 then [Advert(b.reg, e.counter)] else [])
  {
  }

  /** A visit adds one, in a byte, to the silence of every slot of its subevent, and takes a slot from its
      owner when that makes more than nine; all other slots stay as they are. */
  lemma VisitAges(cfg: Cfg, a: Adv, sub: nat, l: Loc)
    requires WF(cfg, a) && sub < cfg.subevents && InGrid(cfg, l)
    ensures var b, s := Step(cfg, a, Visit(sub)), At(a, l);
      && (l.sub != sub ==> At(b, l) == s)
      && (l.sub == sub && s.dev != 0 && 9 <= s.idle < 255 ==> At(b, l) == Slot(0, 0))
      && (l.sub == sub && (s.dev == 0 || s.idle < 9 || s.idle == 255) ==> At(b, l) == Slot(s.dev, (s.idle + 1) % 256))
  {
  }

  // ---- along a run -----------------------------------------------------------------------

  /** Slot l was lost by its owner in step k, which ended with a full free list, and up to state n it has
      stayed leaked and nobody has owned it. */
  ghost predicate LostForGood(t: Run, k: nat, n: nat, l: Loc)
    requires n <= |t.events|
  {
    && k < n && InGrid(t.cfg, l)
    && Lost(t.states[k], t.states[k + 1], l) && |t.states[k + 1].free| == t.cfg.capacity
    && (forall j :: k < j <= n ==> l in t.states[j].leaked && At(t.states[j], l).dev == 0)
  }

  lemma LeakStays(cfg: Cfg, a: Adv, e: Event, l: Loc)
    requires WF(cfg, a) && Legal(cfg, a, e) && !e.Reboot? && At(a, l).dev == 0
    requires l in a.leaked && l in Step(cfg, a, e).leaked
    ensures At(Step(cfg, a, e), l).dev == 0
  {
  }

  /** What "leaked" means on every run, clean or not. */
  lemma {:induction false} LeakedMeansLost(t: Run, n: nat, l: Loc)
    requires n <= |t.events| && l in t.states[n].leaked
    ensures exists k :: LatestStart(t, n) <= k < n && LostForGood(t, k, n, l)
  {
    var b := LatestStart(t, n);
    if n == b {
      StartLeaksNothing(t, n);
    } else {
      assert t.Moves(n - 1);
      var a, e := t.states[n - 1], t.events[n - 1];
      if l in a.leaked {
        LeakedMeansLost(t, n - 1, l);
        var k :| LatestStart(t, n - 1) <= k < n - 1 && LostForGood(t, k, n - 1, l);
        LeakStays(t.cfg, a, e, l);
        assert LostForGood(t, k, n, l);
      } else {
        OnlyGridLeaks(t.cfg, a, e, l);
        LeakIsLoss(t.cfg, a, e, l);
        assert LostForGood(t, n - 1, n, l);
      }
    }
  }

  lemma StartLeaksNothing(t: Run, b: nat)
    requires b <= |t.events| && (b == 0 || t.events[b - 1].Reboot?)
    ensures t.states[b].leaked == {}
  {
    if b > 0 {
      assert t.Moves(b - 1);
    }
  }
}
