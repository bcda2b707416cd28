// The partition and the bump pointer over whole runs.
module HighWater {
  import opened Words
  import opened Protocol
  import opened AdvertiserModel
  import opened SlotRoles
  import opened SlotPartition
  import opened Allocator
  import opened GridBound
  import opened Conservation

  lemma RoomWhenIssuing(cfg: Cfg, a: Adv, e: Event)
    requires WF(cfg, a) && PointerBounded(cfg, a) && InRange(cfg, e)
    ensures e.Response? && e.loc in a.reg ==> Room(cfg, a)
  {
    if e.Response? && e.loc in a.reg {
      RoomToBump(cfg, a, e.loc);
    }
  }

  /** A clean step keeps soundness; the bump pointer moves by at most one, and only when the free list is
      empty before and after. */
  lemma SoundStep(cfg: Cfg, a: Adv, e: Event)
    requires Sound(cfg, a) && PointerBounded(cfg, a) && Legal(cfg, a, e) && Clean(cfg, a, e) && !e.Reboot?
    ensures var b := Step(cfg, a, e);
      && Sound(cfg, b)
      && (Lin(cfg, b.last) == Lin(cfg, a.last) || (Lin(cfg, b.last) == Lin(cfg, a.last) + 1 && b.free == []))
  {
    RoomWhenIssuing(cfg, a, e);
    PartitionStep(cfg, a, e);
    CountStep(cfg, a, e);
    StepDraws(cfg, a, e);
    if Bumps(a, e) {
      BumpIndex(cfg, a.last);
    }
  }

  /** If the bump pointer is at the peak of the held slots, so it is after a clean step. */
  lemma PeakStep(cfg: Cfg, a: Adv, e: Event, peak: nat)
    requires Sound(cfg, a) && PointerBounded(cfg, a) && Legal(cfg, a, e) && Clean(cfg, a, e) && !e.Reboot?
    requires Lin(cfg, a.last) == 2 * cfg.reserved + peak
    ensures var b := Step(cfg, a, e);
      Sound(cfg, b) && Lin(cfg, b.last) == 2 * cfg.reserved + if Held(b) > peak then Held(b) else peak
  {
    SoundStep(cfg, a, e);
  }

  lemma StartIsSound(t: Run, b: nat)
    requires b <= |t.events| && (b == 0 || t.events[b - 1].Reboot?)
    ensures AtPeak(t, b, 0) && HeldAlong(t)[b] == 0
  {
    if b > 0 {
      assert t.Moves(b - 1);
    }
    BootPartitioned(t.cfg, t.states[b].c);
    BootCounted(t.cfg, t.states[b].c);
  }

  lemma PeakStepOfRun(t: Run, n: nat, peak: nat) returns (next: nat)
    requires 0 < n <= |t.events| && AtPeak(t, n - 1, peak)
    requires !t.events[n - 1].Reboot? && Clean(t.cfg, t.states[n - 1], t.events[n - 1])
    ensures AtPeak(t, n, next)
    ensures next == if HeldAlong(t)[n] > peak then HeldAlong(t)[n] else peak
  {
    PointerStaysBounded(t, n - 1);
    assert t.Moves(n - 1);
    PeakStep(t.cfg, t.states[n - 1], t.events[n - 1], peak);
    next := if HeldAlong(t)[n] > peak then HeldAlong(t)[n] else peak;
  }

  lemma {:induction false} PeakAlongRun(t: Run, n: nat)
    requires n <= |t.events| && CleanFrom(t, LatestStart(t, n), n)
    ensures AtPeak(t, n, Peak(HeldAlong(t), LatestStart(t, n), n))
  {
    var b, hs := LatestStart(t, n), HeldAlong(t);
    if n == b {
      StartIsSound(t, b);
      assert Peak(hs, b, n) == hs[b] == 0;
    } else {
      PeakAlongRun(t, n - 1);
      var next := PeakStepOfRun(t, n, Peak(hs, b, n - 1));
      assert next == Peak(hs, b, n);
    }
  }

  /** On every run whose steps have been clean since start-up, the six roles partition the grid and nothing
      is lost, and the bump pointer is a high-water mark: behind the k reserved slots, the k on offer, and
      exactly as many more as were ever held at once. */
  lemma PartitionHolds(t: Run, n: nat)
    requires n <= |t.events| && CleanFrom(t, LatestStart(t, n), n)
    ensures Sound(t.cfg, t.states[n])
    ensures Lin(t.cfg, t.states[n].last) == 2 * t.cfg.reserved + Peak(HeldAlong(t), LatestStart(t, n), n)
  {
    PeakAlongRun(t, n);
  }

  /** So every slot on offer has no owner, is not reserved, does not wait on the free list, has left the
      bump pointer, and is on offer only once. */
  lemma AdvertisedIsAvailable(t: Run, n: nat, i: nat)
    requires n <= |t.events| && CleanFrom(t, LatestStart(t, n), n) && i < t.cfg.reserved
    ensures |t.states[n].reg| == t.cfg.reserved
    ensures var a, l := t.states[n], t.states[n].reg[i];
      && !Occupied(a, l) && !Reserved(t.cfg, l) && l !in a.free && !Fresh(a, l)
      && (forall j :: 0 <= j < t.cfg.reserved && j != i ==> a.reg[j] != l)
  {
    PartitionHolds(t, n);
    OnOffer(t.cfg, t.states[n], i);
  }

  lemma OnOffer(cfg: Cfg, a: Adv, i: nat)
    requires Partitioned(cfg, a) && i < cfg.reserved
    ensures a.reg[i] in a.reg && Precedes(a.reg[i], a.last)
    ensures InGrid(cfg, a.reg[i]) ==> Roles(cfg, a, a.reg[i]) == 1
    ensures !InGrid(cfg, a.reg[i]) ==> !Occupied(a, a.reg[i]) && a.reg[i] !in a.free
  {
  }

  /** All slots on offer are slots of the grid if and only if 2k and the largest number of slots ever held
      at once, since start-up, fit in it. */
  lemma OffersFitTheGrid(t: Run, n: nat)
    requires n <= |t.events| && CleanFrom(t, LatestStart(t, n), n)
    ensures (forall i :: 0 <= i < |t.states[n].reg| ==> InGrid(t.cfg, t.states[n].reg[i])) <==>
      2 * t.cfg.reserved + Peak(HeldAlong(t), LatestStart(t, n), n) <= t.cfg.subevents * t.cfg.slots
  {
    var cfg, a := t.cfg, t.states[n];
    PartitionHolds(t, n);
    PointerStaysBounded(t, n);
    OutsideBound(cfg, a.reg);
    if Lin(cfg, a.last) <= cfg.subevents * cfg.slots {
      forall i | 0 <= i < |a.reg|
        ensures InGrid(cfg, a.reg[i])
      {
        assert Precedes(a.reg[i], a.last);
        LinOrder(cfg, a.reg[i], a.last);
        LinGrid(cfg, a.reg[i]);
      }
    }
  }

  /** The unclean branches are real: right after start-up, a response at an advertised slot that fails
      verification frees that slot while it is still on offer, and the next registration then offers
      it a second time. */
  lemma SlotIssuedTwice(cfg: Cfg, c: nat, sender: u16)
    requires cfg.Valid() && cfg.reserved >= 2 && cfg.capacity >= 1 && sender != 0
    requires 2 * cfg.reserved <= cfg.subevents * cfg.slots
    ensures var a := Boot(cfg, c);
      && InGrid(cfg, a.reg[0]) && InGrid(cfg, a.reg[1])
      && var forged := Response(a.reg[0], sender, false, c);
      && var joins := Response(a.reg[1], sender, true, c);
      && var b := Step(cfg, a, forged);
      && Legal(cfg, a, forged) && Legal(cfg, b, joins) && !Clean(cfg, a, forged)
      && Step(cfg, b, joins).reg[0] == Step(cfg, b, joins).reg[1]
  {
    var a := Boot(cfg, c);
    BootPartitioned(cfg, c);
    forall i | 0 <= i < 2
      ensures InGrid(cfg, a.reg[i])
    {
      assert Precedes(a.reg[i], a.last);
      LinOrder(cfg, a.reg[i], a.last);
      LinGrid(cfg, a.reg[i]);
    }
    var b := Step(cfg, a, Response(a.reg[0], sender, false, c));
    assert At(a, a.reg[0]).dev == 0 && At(a, a.reg[1]).dev == 0;
    assert b.free == [a.reg[0]];
    assert At(b, a.reg[1]).dev == 0;
    var i := FirstIndex(b.reg, a.reg[1]);
    assert a.reg[1] in b.reg;
    assert i == Some(1);
  }
}
