// The advertiser's steps taken apart, one piece for each method of the class.
module AdvertiserParts {
  import opened Words
  import opened Protocol
  import opened AdvertiserModel
  import opened AdvertiserTables

  // ---- visits ----------------------------------------------------------------------------

  /** The ack of a slot is settled as soon as that slot has aged. */
  lemma AckIsFinal(cfg: Cfg, a: Adv, sub: nat, j: nat)
    requires WF(cfg, a) && sub < cfg.subevents && j < cfg.slots
    ensures AgeUpTo(cfg, a, sub, j + 1) == AgeSlot(cfg, AgeUpTo(cfg, a, sub, j), Loc(sub, j))
    ensures Acks(cfg, AgeUpTo(cfg, a, sub, cfg.slots), sub)[j] == AckOf(At(AgeUpTo(cfg, a, sub, j + 1), Loc(sub, j)))
  {
    var l := Loc(sub, j);
    assert InGrid(cfg, l);
    assert At(AgeUpTo(cfg, a, sub, cfg.slots), l) == At(AgeUpTo(cfg, a, sub, j + 1), l);
  }

  function Begun(a: Adv, sub: nat): Adv {
    if sub == 0 then a.(r := a.r + 1) else a
  }

  function Renewed(a: Adv, sub: nat): seq<Tx> {
    if sub == 0 then [Advert(a.reg, a.c)] else []
  }

  lemma VisitIs(cfg: Cfg, a: Adv, sub: nat)
    requires WF(cfg, a) && sub < cfg.subevents
    ensures WF(cfg, Begun(a, sub)) && Step(cfg, a, Visit(sub)) == AgeUpTo(cfg, Begun(a, sub), sub, cfg.slots)
    ensures var b := Step(cfg, a, Visit(sub));
      Emits(cfg, a, Visit(sub)) == Renewed(a, sub) + [Data(sub, Acks(cfg, b, sub), b.T())]
  {
  }

  // ---- responses -------------------------------------------------------------------------

  lemma {:induction false} FirstIndexIs(reg: seq<Loc>, l: Loc, i: nat)
    requires i < |reg| && reg[i] == l && l !in reg[..i]
    ensures FirstIndex(reg, l) == Some(i)
  {
    if i > 0 {
      assert reg[0] == reg[..i][0];
      assert reg[1..][..i - 1] == reg[..i][1..];
      FirstIndexIs(reg[1..], l, i - 1);
    }
  }

  lemma PutSame(cfg: Cfg, a: Adv, l: Loc)
    requires WF(cfg, a) && InGrid(cfg, l)
    ensures Put(cfg, a, l, At(a, l)) == a
  {
    var row := a.slots[l.sub];
    assert row[l.slot := row[l.slot]] == row;
    assert a.slots[l.sub := row] == a.slots;
  }

  function Registered(cfg: Cfg, a: Adv, l: Loc, sender: u16): Adv
    requires WF(cfg, a) && InGrid(cfg, l)
  {
    Readvertise(cfg, Put(cfg, a, l, Slot(sender, 0)).(leaked := a.leaked - {l}), l)
  }

  /** What acceptance does once the counter has moved. */
  function Credited(cfg: Cfg, a: Adv, l: Loc, sender: u16): Adv
    requires WF(cfg, a) && InGrid(cfg, l)
  {
    var s := At(a, l);
    if s.dev == 0 then Registered(cfg, a, l, sender)
    else if s.dev == sender then Put(cfg, a, l, Slot(s.dev, 0))
    else a
  }

  function Announced(cfg: Cfg, a: Adv, l: Loc, sender: u16): seq<Tx>
    requires WF(cfg, a) && InGrid(cfg, l)
  {
    var b := Credited(cfg, a, l, sender);
    [Advert(a.reg, a.c)] + if At(a, l).dev == 0 then [Advert(b.reg, b.c)] else []
  }

  lemma ResponseIs(cfg: Cfg, a: Adv, e: Event)
    requires WF(cfg, a) && e.Response? && InGrid(cfg, e.loc)
    ensures var b := a.(c := e.counter);
      && (Accepted(a, e) ==>
          && WF(cfg, b)
          && Step(cfg, a, e) == Credited(cfg, b, e.loc, e.sender)
          && Emits(cfg, a, e) == Announced(cfg, b, e.loc, e.sender))
      && (!Accepted(a, e) ==> Step(cfg, a, e) == Reject(cfg, a, e.loc) && Emits(cfg, a, e) == [])
  {
  }

  // ---- start-up --------------------------------------------------------------------------

  /** The advertiser after i rounds of `init_bufs`, the counter not read yet. */
  ghost function Booting(cfg: Cfg, i: nat): Adv
    requires cfg.Valid() && i <= cfg.reserved
  {
    Adv(0, 0, NthFresh(cfg, i), seq(cfg.reserved, j requires 0 <= j => if j < i then NthFresh(cfg, j) else Loc(0, 0)),
        [], NoOwners(cfg.subevents, cfg.slots), {})
  }

  lemma BootingIsWF(cfg: Cfg, i: nat)
    requires cfg.Valid() && i <= cfg.reserved
    ensures WF(cfg, Booting(cfg, i)) && (i == cfg.reserved ==> Booting(cfg, i) == Boot(cfg, 0))
  {
    if i == cfg.reserved {
      assert Booting(cfg, i).reg == Boot(cfg, 0).reg;
      assert Booting(cfg, i).slots == Boot(cfg, 0).slots by {
        forall s | 0 <= s < cfg.subevents
          ensures Booting(cfg, i).slots[s] == Boot(cfg, 0).slots[s]
        {
        }
      }
    }
  }

  lemma BootingNext(cfg: Cfg, i: nat)
    requires cfg.Valid() && i < cfg.reserved
    ensures var a := Booting(cfg, i);
      Booting(cfg, i + 1) == Reserve(cfg, a).0.(reg := a.reg[i := Reserve(cfg, a).1])
  {
    var a := Booting(cfg, i);
    assert Booting(cfg, i + 1).reg == a.reg[i := Reserve(cfg, a).1];
  }
}
