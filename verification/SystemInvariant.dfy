// What every step of the whole system keeps.
module SystemInvariant {
  import opened Words
  import opened Protocol
  import opened AdvertiserModel
  import opened ScannerModel
  import opened ScannerInvariant
  import opened SystemModel

  predicate WellFormed(cfg: Cfg, tx: Tx) {
    match tx
    case Advert(reg, _) => Offers(cfg, reg)
    case Data(sub, acks, _) => sub < cfg.subevents && |acks| == cfg.slots
  }

  /** Everybody's state and everything on the air is well formed. */
  predicate Formed(cfg: Cfg, s: Sys) {
    && WF(cfg, s.adv)
    && (forall n :: 0 <= n < |s.air| ==> WellFormed(cfg, s.air[n]))
    && (forall n :: 0 <= n < |s.rsps| ==> InGrid(cfg, s.rsps[n].loc) && s.rsps[n].sender in s.scn)
    && (forall id :: id in s.scn ==> id != 0 && WFS(cfg, s.scn[id]) && Disciplined(id, s.scn[id]))
  }

  /** Counters never get more than a rollover and an increment ahead of the advertiser's: what it sent is
      at most c + 1, and a scanner is at most one above what it took. */
  predicate Bounded(floor: nat, s: Sys) {
    && floor <= s.adv.c && s.adv.r <= 1
    && (forall n :: 0 <= n < |s.air| ==> s.air[n].counter <= s.adv.c + 1)
    && (forall n :: 0 <= n < |s.rsps| ==> s.rsps[n].counter <= s.adv.c + 1)
    && (forall id :: id in s.scn ==> s.scn[id].counter <= s.adv.c + 2)
  }

  /** A reboot does not lose counter bits: only four bytes are stored. */
  predicate Storable(s: Sys, e: SysEvent) {
    e == Own(Reboot) ==> s.adv.c < 0x1_0000_0000
  }

  /** Messages carry the counters of the state they are built in. */
  lemma EmitShape(cfg: Cfg, a: Adv, e: Event, n: nat)
    requires WF(cfg, a) && InRange(cfg, e) && n < |Emits(cfg, a, e)|
    ensures var tx, b := Emits(cfg, a, e)[n], Step(cfg, a, e);
      && WellFormed(cfg, tx)
      && (tx.Advert? ==> tx.counter == b.c)
      && (tx.Data? ==> e == Visit(tx.sub) && n == |Emits(cfg, a, e)| - 1 && tx.counter == b.T())
  {
  }

  lemma AdvertiserKeeps(cfg: Cfg, a: Adv, e: Event)
    requires WF(cfg, a) && Legal(cfg, a, e) && a.r <= 1 && (e == Reboot ==> a.c < 0x1_0000_0000)
    ensures var b := Step(cfg, a, e); a.c <= b.c && b.r <= 1
  {
  }

  /** What a scanner signs is its own, and belongs to a slot of the grid. */
  lemma AnswerShape(cfg: Cfg, id: u16, s: Sys, e: ScnEvent, n: nat)
    requires Formed(cfg, s) && id in s.scn && Possible(cfg, s.scn[id], e) && Genuine(s.air, e, n)
    requires Answer(cfg, id, s.scn[id], e).Some?
    ensures var q := Answer(cfg, id, s.scn[id], e).value;
      q.sender == id && InGrid(cfg, q.loc) && n < |s.air| && q.counter == s.air[n].counter
  {
    AnswerStep(cfg, id, s.scn[id], e);
  }

  lemma FormedStep(cfg: Cfg, floor: nat, s: Sys, e: SysEvent)
    requires Enabled(cfg, floor, s, e) && Formed(cfg, s)
    ensures Formed(cfg, SysStep(cfg, floor, s, e))
  {
    var t, ae := SysStep(cfg, floor, s, e), AdvEventOf(s, e);
    forall n | 0 <= n < |t.air|
      ensures WellFormed(cfg, t.air[n])
    {
      if n < |s.air| {
        assert t.air[n] == s.air[n];
      } else {
        EmitShape(cfg, s.adv, ae, n - |s.air|);
      }
    }
    if e.Scanner? {
      DisciplineHolds(cfg, e.id, s.scn[e.id], e.step);
      if Answer(cfg, e.id, s.scn[e.id], e.step).Some? {
        AnswerShape(cfg, e.id, s, e.step, e.n);
      }
    }
  }

  /** A scanner's counter moves only to what is on the air, or one above. */
  lemma ScannerCounter(cfg: Cfg, id: u16, s: Sys, e: ScnEvent, n: nat)
    requires id in s.scn && WFS(cfg, s.scn[id]) && Possible(cfg, s.scn[id], e) && Genuine(s.air, e, n)
    ensures var u := ScnStep(cfg, id, s.scn[id], e);
      u.counter == s.scn[id].counter || (n < |s.air| && u.counter <= s.air[n].counter + 1)
  {
    CounterStep(cfg, id, s.scn[id], e);
  }

  lemma BoundedStep(cfg: Cfg, floor: nat, s: Sys, e: SysEvent)
    requires Enabled(cfg, floor, s, e) && Formed(cfg, s) && Bounded(floor, s) && Storable(s, e)
    ensures Bounded(floor, SysStep(cfg, floor, s, e))
  {
    var t, ae := SysStep(cfg, floor, s, e), AdvEventOf(s, e);
    AdvertiserKeeps(cfg, s.adv, ae);
    forall n | 0 <= n < |t.air|
      ensures t.air[n].counter <= t.adv.c + 1
    {
      if n < |s.air| {
        assert t.air[n] == s.air[n];
      } else {
        EmitShape(cfg, s.adv, ae, n - |s.air|);
      }
    }
    if e.Scanner? {
      ScannerCounter(cfg, e.id, s, e.step, e.n);
      if Answer(cfg, e.id, s.scn[e.id], e.step).Some? {
        AnswerShape(cfg, e.id, s, e.step, e.n);
      }
    }
  }

  /** The rule that id 0 never verifies excludes nothing: every response on the air may arrive. */
  lemma ArrivalsAreLegal(cfg: Cfg, s: Sys, n: nat)
    requires Formed(cfg, s) && n < |s.rsps|
    ensures Legal(cfg, s.adv, AdvEventOf(s, Arrives(n)))
  {
  }
}
