// The six roles a slot of the grid can have, and the steps that respect them.
module SlotRoles {
  import opened Words
  import opened Protocol
  import opened AdvertiserModel

  /** Row-major order. */
  predicate Precedes(x: Loc, y: Loc) {
    x.sub < y.sub || (x.sub == y.sub && x.slot < y.slot)
  }

  predicate Reserved(cfg: Cfg, l: Loc) {
    l.sub == 0 && l.slot < cfg.reserved
  }

  /** Never handed out by the bump pointer. */
  predicate Fresh(a: Adv, l: Loc) {
    !Precedes(l, a.last)
  }

  function One(b: bool): nat { if b then 1 else 0 }

  /** How many of the six roles a slot has. */
  function Roles(cfg: Cfg, a: Adv, l: Loc): nat {
    One(Reserved(cfg, l)) + One(l in a.reg) + One(l in a.free) + One(Occupied(a, l)) +
    One(l in a.leaked) + One(Fresh(a, l))
  }

  ghost predicate Distinct(s: seq<Loc>) {
    forall i, j :: 0 <= i < j < |s| ==> s[i] != s[j]
  }

  /** Reserved, advertised, free, occupied, leaked and fresh slots partition the grid, no list repeats
      a slot, and whatever is advertised came from the bump pointer. */
  ghost predicate Partitioned(cfg: Cfg, a: Adv) {
    && WF(cfg, a)
    && Distinct(a.reg)
    && Distinct(a.free)
    && (forall l :: InGrid(cfg, l) ==> Roles(cfg, a, l) == 1)
    && (forall l :: l in a.leaked ==> InGrid(cfg, l))
    && (forall i :: 0 <= i < |a.reg| ==> Precedes(a.reg[i], a.last))
  }

  /** The next bump does not overflow the subevent byte. */
  predicate Room(cfg: Cfg, a: Adv) {
    a.last.sub < 255 || a.last.slot + 1 < cfg.slots
  }

  /** Entries of a list that are not slots of the grid. */
  function Outside(cfg: Cfg, ls: seq<Loc>): nat {
    if |ls| == 0 then 0 else Outside(cfg, ls[..|ls| - 1]) + One(!InGrid(cfg, ls[|ls| - 1]))
  }

  /** The bump pointer is past the end of the grid by no more than what is on offer there. */
  predicate PointerBounded(cfg: Cfg, a: Adv) {
    Lin(cfg, a.last) <= cfg.subevents * cfg.slots + Outside(cfg, a.reg)
  }

  /** The step stays out of the two branches that give a slot a second role: registering a device in a
      slot that is not on offer, and freeing a slot that nobody owned. */
  predicate Clean(cfg: Cfg, a: Adv, e: Event) {
    e.Response? && At(a, e.loc).dev == 0 ==>
      if Accepted(a, e) then e.loc in a.reg || e.loc in a.leaked
      else |a.free| == cfg.capacity || e.loc in a.leaked
  }
}
