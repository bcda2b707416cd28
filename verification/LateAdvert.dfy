// A run in which a scanner rejects an advertisement built at the third visit to subevent 0.
module LateAdvertRuns {
  import opened Words
  import opened Protocol
  import opened AdvertiserModel
  import opened Clocks
  import opened ScannerModel
  import opened ScannerInvariant
  import opened SystemModel
  import opened CatchUp
  import opened Reception
  import opened SystemRuns

  /** Since state p the advertiser has not rebooted and scanner id has been on. */
  ghost predicate Quiet(y: SysRun, id: u16, p: nat) {
    && p <= |y.events| && StorableUpTo(y, |y.events|) && WF(y.cfg, Now(y).adv)
    && OneBoot(TicksOf(AdvRun(y)), p, |y.events|) && StaysOn(y, id, p, |y.events|)
  }

  /** Visits to subevent 0 from p to i. */
  ghost function SweepsOf(y: SysRun, p: nat, i: nat): nat
    requires p <= i <= |y.events|
  {
    Sweeps(TicksOf(AdvRun(y)), p, i)
  }

  /** Run z continues run y. */
  ghost predicate Continues(y: SysRun, z: SysRun) {
    z.cfg == y.cfg && y.states <= z.states && y.events <= z.events
  }

  /** Only scanner id did anything from y to z. */
  ghost predicate OnlyScanner(y: SysRun, z: SysRun, id: u16, p: nat, j: nat) {
    && Quiet(z, id, p) && Continues(y, z) && Now(z).air == Now(y).air && id in Now(z).scn
    && p <= j <= |y.events| && SweepsOf(z, p, j) == SweepsOf(y, p, j)
  }

  /** The scanner waits for its confirmation, at or below the counter that the next advertisement carries
      plus one. */
  ghost predicate AwaitsBelow(y: SysRun, id: u16, c: nat) {
    && id in Now(y).scn && WFS(y.cfg, Now(y).scn[id]) && Disciplined(id, Now(y).scn[id])
    && Confirming(Now(y).scn[id]) && Now(y).scn[id].recv == ConfirmRecv && Now(y).scn[id].counter <= c + 1
  }

  /** The last step of y visited subevent 0 in state a. */
  ghost predicate JustSwept(y: SysRun, a: Adv, p: nat) {
    && WF(y.cfg, a) && Legal(y.cfg, a, Visit(0)) && p < |y.events|
    && Now(y).air == y.states[|y.events| - 1].air + Emits(y.cfg, a, Visit(0))
  }
}

module LateAdvert {
  import opened Words
  import opened Protocol
  import opened AdvertiserModel
  import opened Clocks
  import opened ScannerModel
  import opened ScannerInvariant
  import opened SystemModel
  import opened SystemHistory
  import opened CallRuns
  import opened CatchUp
  import opened Reception
  import opened Overtaking
  import opened SystemRuns
  import opened Continuing
  import opened LateAnswer
  import opened LateAdvertRuns

  /** The ticks of a run of the system that went on by one step. */
  lemma TicksContinue(y: SysRun, e: SysEvent, z: SysRun)
    requires Enabled(y.cfg, y.floor, Now(y), e) && z == Continued(y, e)
    ensures TicksOf(AdvRun(z)) == TicksOf(AdvRun(y)) + [TickOf(Now(y).adv, AdvEventOf(Now(y), e))]
  {
    EventsContinue(y, e);
  }

  lemma SweepsOfSystem(y: SysRun, p: nat, e: SysEvent, z: SysRun)
    requires p <= |y.events| && Enabled(y.cfg, y.floor, Now(y), e) && z == Continued(y, e)
    ensures SweepsOf(z, p, |z.events|) ==
      SweepsOf(y, p, |y.events|) + if AdvEventOf(Now(y), e) == Visit(0) then 1 else 0
  {
    TicksContinue(y, e, z);
    SweepsContinue(TicksOf(AdvRun(y)), TickOf(Now(y).adv, AdvEventOf(Now(y), e)), p);
  }

  lemma QuietContinues(y: SysRun, id: u16, p: nat, e: SysEvent, z: SysRun)
    requires Quiet(y, id, p) && Enabled(y.cfg, y.floor, Now(y), e) && z == Continued(y, e)
    requires e != Own(Reboot) && !e.PowerCycle?
    ensures Quiet(z, id, p)
  {
    StorableContinues(y, e, z);
    TicksContinue(y, e, z);
  }

  lemma QuietGoesOn(y: SysRun, id: u16, p: nat, e: SysEvent) returns (z: SysRun)
    requires Quiet(y, id, p) && Enabled(y.cfg, y.floor, Now(y), e)
    requires AdvEventOf(Now(y), e).Visit? ==> InRequest(y.AdvEvents(), |y.events|)
    requires e != Own(Reboot) && !e.PowerCycle?
    ensures z == Continued(y, e) && Now(z) == SysStep(y.cfg, y.floor, Now(y), e) && Quiet(z, id, p)
    ensures SweepsOf(z, p, |z.events|) ==
      SweepsOf(y, p, |y.events|) + if AdvEventOf(Now(y), e) == Visit(0) then 1 else 0
  {
    z := SystemGoesOn(y, e);
    QuietContinues(y, id, p, e, z);
    SweepsOfSystem(y, p, e, z);
  }

  /** One visit to subevent 0, in a call of its own. */
  lemma SweepGoesOn(y: SysRun, id: u16, p: nat) returns (z: SysRun, a: Adv)
    requires Quiet(y, id, p)
    ensures Quiet(z, id, p) && Continues(y, z) && JustSwept(z, a, p)
    ensures SweepsOf(z, p, |z.events|) == SweepsOf(y, p, |y.events|) + 1
    ensures Now(z).scn == Now(y).scn && Now(y).adv.c <= a.c <= Now(z).adv.c
  {
    var v := QuietGoesOn(y, id, p, Own(Fold));
    EventsContinue(y, Own(Fold));
    a := Now(v).adv;
    z := QuietGoesOn(v, id, p, Own(Visit(0)));
    assert z.states[|z.events| - 1] == Now(v);
  }

  lemma SweepsKept(y: SysRun, p: nat, j: nat, e: SysEvent, z: SysRun)
    requires p <= j <= |y.events| && Enabled(y.cfg, y.floor, Now(y), e) && z == Continued(y, e)
    ensures SweepsOf(z, p, j) == SweepsOf(y, p, j)
  {
    TicksContinue(y, e, z);
    SweepsStay(TicksOf(AdvRun(y)), TickOf(Now(y).adv, AdvEventOf(Now(y), e)), p, j);
  }

  /** One step of a scanner. */
  lemma ScannerMoves(y: SysRun, id: u16, p: nat, j: nat, step: ScnEvent, n: nat) returns (z: SysRun)
    requires Quiet(y, id, p) && id in Now(y).scn && WFS(y.cfg, Now(y).scn[id]) && p <= j <= |y.events|
    requires Possible(y.cfg, Now(y).scn[id], step) && Genuine(Now(y).air, step, n)
    ensures OnlyScanner(y, z, id, p, j) && Now(z).scn[id] == ScnStep(y.cfg, id, Now(y).scn[id], step)
    ensures z.states == y.states + [Now(z)] && z.events == y.events + [Scanner(id, step, n)]
  {
    z := QuietGoesOn(y, id, p, Scanner(id, step, n));
    SweepsKept(y, p, j, Scanner(id, step, n), z);
  }

  lemma QuietMeansStorable(y: SysRun, id: u16, p: nat)
    requires Quiet(y, id, p)
    ensures StorableUpTo(y, p)
  {
  }

  lemma OnlyScannerTwice(x: SysRun, y: SysRun, z: SysRun, id: u16, p: nat, j: nat)
    requires OnlyScanner(x, y, id, p, j) && OnlyScanner(y, z, id, p, j)
    ensures OnlyScanner(x, z, id, p, j)
  {
  }

  lemma ScannerMovesTwice(y: SysRun, id: u16, p: nat, j: nat, e: ScnEvent, n: nat, f: ScnEvent) returns (z: SysRun)
    requires Quiet(y, id, p) && id in Now(y).scn && WFS(y.cfg, Now(y).scn[id]) && p <= j <= |y.events|
    requires Possible(y.cfg, Now(y).scn[id], e) && Genuine(Now(y).air, e, n)
    requires !f.Receive? && !f.Hear? && Possible(y.cfg, ScnStep(y.cfg, id, Now(y).scn[id], e), f)
    ensures OnlyScanner(y, z, id, p, j)
    ensures Now(z).scn[id] == ScnStep(y.cfg, id, ScnStep(y.cfg, id, Now(y).scn[id], e), f)
  {
    var u := ScannerMoves(y, id, p, j, e, n);
    z := ScannerMoves(u, id, p, j, f, 0);
    OnlyScannerTwice(y, u, z, id, p, j);
  }

  // ---- the run ---------------------------------------------------------------------------

  lemma ContinuesTwice(x: SysRun, y: SysRun, z: SysRun)
    requires Continues(x, y) && Continues(y, z)
    ensures Continues(x, z)
  {
  }

  lemma WaitingAwaits(y: SysRun, id: u16, c: nat, bound: nat)
    requires y.cfg.Valid() && Now(y).scn == map[id := Waiting(c, Boot(y.cfg, c).reg[0])] && c <= bound
    ensures AwaitsBelow(y, id, bound)
  {
  }

  /** Three visits to subevent 0, and a scanner that still waits with the counter of the start. */
  lemma ThreeSweeps(cfg: Cfg, c: nat, id: u16) returns (y: SysRun, p: nat, a: Adv)
    requires cfg.Valid() && id != 0
    ensures y.cfg == cfg && Quiet(y, id, p) && JustSwept(y, a, p) && AwaitsBelow(y, id, a.c)
    ensures id in y.states[p].scn && SweepsOf(y, p, |y.events|) == 3
  {
    var x := ScannerWaits(cfg, c, id);
    p := |x.events|;
    var u, v;
    u, a := SweepGoesOn(x, id, p);
    v, a := SweepGoesOn(u, id, p);
    ContinuesTwice(x, u, v);
    y, a := SweepGoesOn(v, id, p);
    ContinuesTwice(x, v, y);
    assert y.states[p] == Now(x);
    WaitingAwaits(y, id, c, a.c);
  }

  /** A scanner that waits takes the last message, loses its sync, and scans again. */
  lemma ScannerStrays(y: SysRun, p: nat, a: Adv, id: u16) returns (z: SysRun)
    requires Quiet(y, id, p) && JustSwept(y, a, p) && AwaitsBelow(y, id, a.c)
    ensures OnlyScanner(y, z, id, p, |y.events|)
    ensures WFS(z.cfg, Now(z).scn[id]) && |Emits(y.cfg, a, Visit(0))| > 0
    ensures var advert := Emits(y.cfg, a, Visit(0))[0];
      && advert.Advert?
      && Possible(z.cfg, Now(z).scn[id], Hear(Ad(advert.reg, advert.counter), 0, true, true))
      && Now(z).scn[id].counter > advert.counter
  {
    var j, n, sent := |y.events|, |y.states[|y.events| - 1].air|, Emits(y.cfg, a, Visit(0));
    TakingOvertakesAdvert(y.cfg, id, a, Now(y).scn[id], 0);
    assert Now(y).air[n + 1] == sent[1];
    var heard := Receive(0, Signed(sent[1].counter, Some(sent[1].acks)));
    var v := ScannerMovesTwice(y, id, p, j, heard, n + 1, Terminated(false));
    z := ScannerMovesTwice(v, id, p, j, Run(true), 0, Run(true));
    OnlyScannerTwice(y, v, z, id, p, j);
  }

  lemma ThirdSweepBuilt(x: SysRun, y: SysRun, p: nat, a: Adv, id: u16)
    requires Quiet(y, id, p) && Continues(x, y) && JustSwept(x, a, p)
    requires SweepsOf(y, p, |x.events|) >= 3
    requires |Emits(x.cfg, a, Visit(0))| > 0 && Emits(x.cfg, a, Visit(0))[0].Advert?
    ensures ThirdSweepAdvert(y, p, |x.events| - 1, |x.states[|x.events| - 1].air|)
  {
    var q, n := |x.events| - 1, |x.states[|x.events| - 1].air|;
    assert y.states[q] == x.states[q] && y.states[q + 1] == x.states[q + 1] == Now(x);
    assert Now(x).air[n] == Emits(x.cfg, a, Visit(0))[0];
  }

  lemma RejectedAtLast(v: SysRun, y: SysRun, p: nat, q: nat, n: nat, id: u16, reg: seq<Loc>, c: nat)
    requires Quiet(y, id, p) && p <= q < |v.events| && n < |Now(v).air|
    requires id in v.states[p].scn && id in Now(v).scn && Now(v).scn[id].counter > c
    requires y.states == v.states + [Now(y)] && y.events == v.events + [Scanner(id, Hear(Ad(reg, c), 0, true, true), n)]
    ensures AdvertReaches(y, p, q, n, id, |v.events|) && !AcceptsAd(y, id, |v.events|)
  {
    assert y.states[|v.events|] == Now(v) && y.states[p] == v.states[p];
  }

  lemma AdvertComesLate(x: SysRun, p: nat, a: Adv, id: u16) returns (y: SysRun, q: nat, n: nat, i: nat)
    requires Quiet(x, id, p) && JustSwept(x, a, p) && AwaitsBelow(x, id, a.c)
    requires id in x.states[p].scn && SweepsOf(x, p, |x.events|) == 3
    ensures y.cfg == x.cfg && ThirdSweepAdvert(y, p, q, n) && AdvertReaches(y, p, q, n, id, i)
    ensures StorableUpTo(y, p) && !AcceptsAd(y, id, i)
  {
    q, n := |x.events| - 1, |x.states[|x.events| - 1].air|;
    var v := ScannerStrays(x, p, a, id);
    var advert := Emits(x.cfg, a, Visit(0))[0];
    assert Now(v).air[n] == advert;
    i := |v.events|;
    y := ScannerMoves(v, id, p, q + 1, Hear(Ad(advert.reg, advert.counter), 0, true, true), n);
    OnlyScannerTwice(x, v, y, id, p, q + 1);
    ThirdSweepBuilt(x, y, p, a, id);
    RejectedAtLast(v, y, p, q, n, id, advert.reg, advert.counter);
    QuietMeansStorable(y, id, p);
  }

  /** Nobody reboots, the advertiser visits subevent 0 three times, and the advertisement it built at the
      third of these visits reaches a scanner that was on all the time and rejects it. */
  lemma ThirdSweepRejected(cfg: Cfg, c: nat, id: u16) returns (y: SysRun, p: nat, q: nat, n: nat, i: nat)
    requires cfg.Valid() && id != 0
    ensures y.cfg == cfg && ThirdSweepAdvert(y, p, q, n) && AdvertReaches(y, p, q, n, id, i)
    ensures StorableUpTo(y, p) && !AcceptsAd(y, id, i)
  {
    var x, a;
    x, p, a := ThreeSweeps(cfg, c, id);
    y, q, n, i := AdvertComesLate(x, p, a, id);
  }
}
