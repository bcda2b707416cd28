// Runs of the whole system, built step by step.
module SystemRuns {
  import opened Words
  import opened Protocol
  import opened AdvertiserModel
  import opened ScannerModel
  import opened SystemModel
  import opened SystemInvariant
  import opened CallRuns
  import opened CatchUp

  ghost function Now(y: SysRun): Sys {
    y.states[|y.events|]
  }

  ghost function Continued(y: SysRun, e: SysEvent): SysTrace
    requires Enabled(y.cfg, y.floor, Now(y), e)
  {
    SysTrace(y.cfg, y.floor, y.states + [SysStep(y.cfg, y.floor, Now(y), e)], y.events + [e])
  }

  lemma EventsContinue(y: SysRun, e: SysEvent)
    requires Enabled(y.cfg, y.floor, Now(y), e)
    ensures Continued(y, e).AdvEvents() == y.AdvEvents() + [AdvEventOf(Now(y), e)]
  {
  }

  lemma MovesContinue(y: SysRun, e: SysEvent, i: nat)
    requires Enabled(y.cfg, y.floor, Now(y), e) && i < |y.events|
    ensures Continued(y, e).Moves(i)
  {
    assert y.Moves(i);
    EventsContinue(y, e);
    InRequestPrefix(y.AdvEvents(), Continued(y, e).AdvEvents(), i);
  }

  /** A run of the system goes on with any step that can happen. */
  lemma SystemGoesOn(y: SysRun, e: SysEvent) returns (z: SysRun)
    requires Enabled(y.cfg, y.floor, Now(y), e)
    requires AdvEventOf(Now(y), e).Visit? ==> InRequest(y.AdvEvents(), |y.events|)
    ensures z == Continued(y, e) && Now(z) == SysStep(y.cfg, y.floor, Now(y), e)
  {
    var x := Continued(y, e);
    EventsContinue(y, e);
    forall i | 0 <= i < |x.events|
      ensures x.Moves(i)
    {
      if i < |y.events| {
        MovesContinue(y, e, i);
      } else {
        InRequestPrefix(y.AdvEvents(), x.AdvEvents(), i);
      }
    }
    z := x;
  }

  lemma StorableContinues(y: SysRun, e: SysEvent, z: SysRun)
    requires Enabled(y.cfg, y.floor, Now(y), e) && z == Continued(y, e)
    requires StorableUpTo(y, |y.events|) && (e == Own(Reboot) ==> Now(y).adv.c < 0x1_0000_0000)
    ensures StorableUpTo(z, |z.events|)
  {
    forall k | 0 <= k < |z.events|
      ensures Storable(z.states[k], z.events[k])
    {
      if k < |y.events| {
        assert Storable(y.states[k], y.events[k]);
      }
    }
  }

  /** A step of a scanner, while nothing else happens. */
  lemma ScannerGoesOn(y: SysRun, id: u16, step: ScnEvent, n: nat) returns (z: SysRun)
    requires id in Now(y).scn && WF(y.cfg, Now(y).adv) && WFS(y.cfg, Now(y).scn[id])
    requires Possible(y.cfg, Now(y).scn[id], step) && Genuine(Now(y).air, step, n)
    requires StorableUpTo(y, |y.events|)
    ensures z.cfg == y.cfg && z.floor == y.floor && StorableUpTo(z, |z.events|)
    ensures z.states == y.states + [Now(z)] && z.events == y.events + [Scanner(id, step, n)]
    ensures var s, answer := Now(y), Answer(y.cfg, id, Now(y).scn[id], step);
      Now(z) == s.(scn := s.scn[id := ScnStep(y.cfg, id, s.scn[id], step)],
                   rsps := if answer.Some? then s.rsps + [answer.value] else s.rsps)
  {
    z := SystemGoesOn(y, Scanner(id, step, n));
    StorableContinues(y, Scanner(id, step, n), z);
  }
}
