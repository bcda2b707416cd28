// A run in which a response outlives a reboot and takes the counter up by one more than its visits.
module LateAnswer {
  import opened Words
  import opened Protocol
  import opened AdvertiserModel
  import opened Clocks
  import opened SlotHistory
  import opened ScannerModel
  import opened SystemModel
  import opened CatchUp
  import opened SystemRuns

  // ---- a scanner comes to wait for its confirmation --------------------------------------

  /** A scanner that has taken the start-up advertisement: phase by phase up to waiting in CONFIRMING. */
  function Found(c: nat, l: Loc): Scn {
    PowerUp(0).(st := SYNCING, phase := Wait, counter := c, sel := l, syncSem := true)
  }

  function Waiting(c: nat, l: Loc): Scn {
    PowerUp(0).(st := CONFIRMING, phase := Wait, counter := c, sel := l, recv := ConfirmRecv)
  }

  /** Everything is as at start-up, except for one scanner. */
  function Alone(cfg: Cfg, c: nat, id: u16, s: Scn): Sys
    requires cfg.Valid()
  {
    Sys(Boot(cfg, c), [Advert(Boot(cfg, c).reg, c)], map[id := s], [])
  }

  lemma OneStep(y: SysRun, c: nat, id: u16, s: Scn, step: ScnEvent, t: Scn) returns (z: SysRun)
    requires Now(y) == Alone(y.cfg, c, id, s) && StorableUpTo(y, |y.events|)
    requires WFS(y.cfg, s) && Possible(y.cfg, s, step) && Genuine(Now(y).air, step, 0)
    requires ScnStep(y.cfg, id, s, step) == t && Answer(y.cfg, id, s, step).None?
    ensures z.cfg == y.cfg && Now(z) == Alone(z.cfg, c, id, t) && StorableUpTo(z, |z.events|)
  {
    z := ScannerGoesOn(y, id, step, 0);
    assert map[id := s][id := t] == map[id := t];
  }

  lemma ScannerFinds(cfg: Cfg, c: nat, id: u16) returns (y: SysRun)
    requires cfg.Valid() && id != 0
    ensures y.cfg == cfg && StorableUpTo(y, |y.events|)
    ensures Now(y) == Alone(cfg, c, id, Found(c, Boot(cfg, c).reg[0]))
  {
    var s := PowerUp(0);
    y := SysTrace(cfg, 0, [Alone(cfg, c, id, s)], []);
    y := OneStep(y, c, id, s, Run(true), s.(st := SYNCING));
    y := OneStep(y, c, id, s.(st := SYNCING), Run(true), s.(st := SYNCING, phase := Wait, scanning := true));
    y := OneStep(y, c, id, s.(st := SYNCING, phase := Wait, scanning := true),
                 Hear(Ad(Boot(cfg, c).reg, c), 0, true, true), Found(c, Boot(cfg, c).reg[0]));
  }

  lemma ScannerWaits(cfg: Cfg, c: nat, id: u16) returns (y: SysRun)
    requires cfg.Valid() && id != 0
    ensures y.cfg == cfg && StorableUpTo(y, |y.events|)
    ensures Now(y) == Alone(cfg, c, id, Waiting(c, Boot(cfg, c).reg[0]))
  {
    var l := Boot(cfg, c).reg[0];
    var s := Found(c, l).(st := CONFIRMING, syncSem := false);
    y := ScannerFinds(cfg, c, id);
    y := OneStep(y, c, id, Found(c, l), Run(true), s.(phase := Entry));
    y := OneStep(y, c, id, s.(phase := Entry), Run(true), s.(phase := Nap));
    y := OneStep(y, c, id, s.(phase := Nap), Run(true), Waiting(c, l));
  }

  // ---- it answers, and the answer arrives after a reboot ---------------------------------

  /** The message of the first visit to subevent 0 acks nobody. */
  lemma FirstVisit(cfg: Cfg, c: nat) returns (acks: seq<u16>)
    requires cfg.Valid()
    ensures Boot(cfg, c).reg[0] == Loc(0, cfg.reserved) && InGrid(cfg, Boot(cfg, c).reg[0])
    ensures Emits(cfg, Boot(cfg, c), Visit(0)) == [Advert(Boot(cfg, c).reg, c), Data(0, acks, c + 1)]
    ensures |acks| == cfg.slots && acks[cfg.reserved] == 0
    ensures Step(cfg, Boot(cfg, c), Visit(0)).c == c
  {
    var a := Boot(cfg, c);
    acks := Acks(cfg, Step(cfg, a, Visit(0)), 0);
    AckReadsSlot(cfg, a, Loc(0, cfg.reserved));
    assert At(a, Loc(0, cfg.reserved)) == Slot(0, 0);
  }

  /** State in which the first visit's message was sent, and scanner id has answered it or not. */
  ghost predicate Visited(y: SysRun, c: nat, id: u16, acks: seq<u16>) {
    && y.cfg.Valid() && StorableUpTo(y, |y.events|)
    && var s, a := Now(y), Boot(y.cfg, c);
    && s.adv == Step(y.cfg, a, Visit(0))
    && s.air == [Advert(a.reg, c), Advert(a.reg, c), Data(0, acks, c + 1)]
    && s.scn == map[id := Waiting(c, a.reg[0])] && s.rsps == []
  }

  lemma AdvertiserSends(cfg: Cfg, c: nat, id: u16) returns (y: SysRun, acks: seq<u16>)
    requires cfg.Valid() && id != 0
    ensures y.cfg == cfg && Visited(y, c, id, acks) && |acks| == cfg.slots && acks[cfg.reserved] == 0
    ensures Boot(cfg, c).reg[0] == Loc(0, cfg.reserved) && InGrid(cfg, Boot(cfg, c).reg[0])
    ensures Now(y).adv.c == c
  {
    var x := ScannerWaits(cfg, c, id);
    acks := FirstVisit(cfg, c);
    var v := SystemGoesOn(x, Own(Fold));
    StorableContinues(x, Own(Fold), v);
    EventsContinue(x, Own(Fold));
    y := SystemGoesOn(v, Own(Visit(0)));
    StorableContinues(v, Own(Visit(0)), y);
  }

  lemma ScannerAnswers(cfg: Cfg, c: nat, id: u16) returns (y: SysRun, r: Rsp)
    requires cfg.Valid() && id != 0
    ensures y.cfg == cfg && StorableUpTo(y, |y.events|)
    ensures Now(y).adv.c == c && WF(cfg, Now(y).adv) && Now(y).rsps == [r]
    ensures r.sender == id && r.counter == c + 1 && InGrid(cfg, r.loc)
  {
    var x, acks := AdvertiserSends(cfg, c, id);
    y := ScannerGoesOn(x, id, Receive(0, Signed(c + 1, Some(acks))), 2);
    r := Rsp(Loc(0, cfg.reserved), id, 0, [], c + 1);
  }

  lemma ButtonIsPressed(cfg: Cfg, c: nat, id: u16) returns (y: SysRun, r: Rsp)
    requires cfg.Valid() && id != 0 && c < 0x1_0000_0000
    ensures y.cfg == cfg && StorableUpTo(y, |y.events|) && Now(y).adv == Boot(cfg, c) && Now(y).rsps == [r]
    ensures r.sender == id && r.counter == c + 1 && InGrid(cfg, r.loc)
  {
    var x;
    x, r := ScannerAnswers(cfg, c, id);
    y := SystemGoesOn(x, Own(Reboot));
    StorableContinues(x, Own(Reboot), y);
  }

  /** A scanner's answer is under way when the button is pressed; the reboot drops the rollover, and the
      answer then brings it back. From the reboot on, no subevent was visited, but T has grown by one. */
  lemma AnswerOutlivesReboot(cfg: Cfg, c: nat, id: u16) returns (y: SysRun, p: nat)
    requires cfg.Valid() && id != 0 && c < 0x1_0000_0000
    ensures y.cfg == cfg && p + 1 == |y.events| && StorableUpTo(y, p)
    ensures var ts := TicksOf(AdvRun(y)); OneBoot(ts, p, p + 1) && Sweeps(ts, p, p + 1) == 0
    ensures y.states[p].adv == Boot(cfg, c)
    ensures y.states[p + 1].adv.T() == y.states[p].adv.T() + 1
  {
    var v, r := ButtonIsPressed(cfg, c, id);
    assert AdvEventOf(Now(v), Arrives(0)) == Response(r.loc, id, true, c + 1);
    p := |v.events|;
    y := SystemGoesOn(v, Arrives(0));
    assert y.states[p] == Now(v) && y.states[p + 1] == Now(y);
  }
}
