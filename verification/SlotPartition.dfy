// Every slot of the grid has exactly one role. Which steps keep that.
module SlotPartition {
  import opened Words
  import opened Protocol
  import opened AdvertiserModel
  import opened SlotRoles

  // ---- list facts ------------------------------------------------------------------------

  lemma InPopped(s: seq<Loc>, x: Loc)
    requires |s| > 0 && Distinct(s)
    ensures x in s[..|s| - 1] <==> x in s && x != s[|s| - 1]
  {
    if x in s && x != s[|s| - 1] {
      var i :| 0 <= i < |s| && s[i] == x;
      assert s[..|s| - 1][i] == x;
    }
  }

  lemma InReplaced(s: seq<Loc>, i: nat, y: Loc, x: Loc)
    requires i < |s| && Distinct(s)
    ensures x in s[i := y] <==> x == y || (x in s && x != s[i])
  {
    if x == y {
      assert s[i := y][i] == y;
    } else if x in s && x != s[i] {
      var j :| 0 <= j < |s| && s[j] == x;
      assert s[i := y][j] == x;
    }
  }

  lemma BumpOrder(cfg: Cfg, a: Adv)
    requires WF(cfg, a) && Room(cfg, a)
    ensures Lin(cfg, Bump(cfg, a.last)) == Lin(cfg, a.last) + 1
    ensures forall l: Loc :: l.slot < cfg.slots ==>
      (Precedes(l, Bump(cfg, a.last)) <==> l == a.last || Precedes(l, a.last))
  {
    if a.last.slot + 1 == cfg.slots {
      assert (a.last.sub + 1) * cfg.slots == a.last.sub * cfg.slots + cfg.slots;
    }
  }

  // ---- one step --------------------------------------------------------------------------

  lemma PushKeeps(cfg: Cfg, a: Adv, b: Adv, l: Loc)
    requires Partitioned(cfg, a) && InGrid(cfg, l) && Occupied(a, l)
    requires exists idle :: b == Push(cfg, Put(cfg, a, l, Slot(0, idle)), l)
    ensures Partitioned(cfg, b)
  {
    assert Roles(cfg, a, l) == 1;
    forall x | InGrid(cfg, x)
      ensures Roles(cfg, b, x) == 1
    {
      assert Roles(cfg, a, x) == 1;
    }
  }

  lemma IdleKeeps(cfg: Cfg, a: Adv, l: Loc, idle: u8)
    requires Partitioned(cfg, a) && InGrid(cfg, l)
    ensures Partitioned(cfg, Put(cfg, a, l, Slot(At(a, l).dev, idle)))
  {
    var b := Put(cfg, a, l, Slot(At(a, l).dev, idle));
    forall x | InGrid(cfg, x)
      ensures Roles(cfg, b, x) == 1
    {
      assert Roles(cfg, a, x) == 1;
    }
  }

  lemma AgeSlotKeeps(cfg: Cfg, a: Adv, l: Loc)
    requires Partitioned(cfg, a) && InGrid(cfg, l)
    ensures Partitioned(cfg, AgeSlot(cfg, a, l))
  {
    if Expires(At(a, l)) {
      PushKeeps(cfg, a, AgeSlot(cfg, a, l), l);
    } else {
      IdleKeeps(cfg, a, l, Age(At(a, l)).idle);
    }
  }

  lemma {:induction false} AgeKeeps(cfg: Cfg, a: Adv, sub: nat, n: nat)
    requires Partitioned(cfg, a) && sub < cfg.subevents && n <= cfg.slots
    ensures Partitioned(cfg, AgeUpTo(cfg, a, sub, n))
  {
    if n > 0 {
      AgeKeeps(cfg, a, sub, n - 1);
      AgeSlotKeeps(cfg, AgeUpTo(cfg, a, sub, n - 1), Loc(sub, n - 1));
    }
  }

  /** Registering in an advertised slot moves that slot, and no other, from the slots on offer to the
      occupied ones. In its place the newest freed slot goes on offer, or if there is none the next fresh
      one, and nothing else changes its role. */
  lemma RegisterMoves(cfg: Cfg, a: Adv, l: Loc, sender: u16, counter: nat)
    requires Partitioned(cfg, a) && InGrid(cfg, l) && l in a.reg && sender != 0
    ensures var b := Accept(cfg, a, l, sender, counter);
      At(b, l) == Slot(sender, 0) && forall x :: x != l ==> At(b, x) == At(a, x)
    ensures FirstIndex(a.reg, l).Some? && |Accept(cfg, a, l, sender, counter).reg| == |a.reg|
    ensures var b, i := Accept(cfg, a, l, sender, counter), FirstIndex(a.reg, l).value;
      && b.reg == a.reg[i := b.reg[i]] && a.reg[i] == l
      && (a.free != [] ==> a.free == b.free + [b.reg[i]] && b.last == a.last)
      && (a.free == [] ==> b.free == [] && b.reg[i] == a.last && b.last == Bump(cfg, a.last))
  {
    assert Roles(cfg, a, l) == 1;
    var b, i := Accept(cfg, a, l, sender, counter), FirstIndex(a.reg, l).value;
    if a.free != [] {
      assert a.free == b.free + [b.reg[i]];
    }
    assert b.reg == a.reg[i := b.reg[i]];
  }

  lemma RegisterKeeps(cfg: Cfg, a: Adv, l: Loc, sender: u16, counter: nat)
    requires Partitioned(cfg, a) && Room(cfg, a) && InGrid(cfg, l) && l in a.reg && sender != 0
    requires a.c <= counter
    ensures Partitioned(cfg, Accept(cfg, a, l, sender, counter))
  {
    assert Roles(cfg, a, l) == 1;
    var i := FirstIndex(a.reg, l).value;
    var b := Accept(cfg, a, l, sender, counter);
    var next := b.reg[i];
    forall x | InGrid(cfg, x)
      ensures Roles(cfg, b, x) == 1
    {
      assert Roles(cfg, a, x) == 1;
      InReplaced(a.reg, i, next, x);
      if |a.free| > 0 {
        InPopped(a.free, x);
      } else {
        BumpOrder(cfg, a);
      }
    }
    BumpOrder(cfg, a);
    if |a.free| > 0 {
      assert next in a.free;
      assert Roles(cfg, a, next) == 1;
    }
    assert next !in a.reg;
  }

  /** A step keeps the partition exactly when it is clean. */
  lemma PartitionStep(cfg: Cfg, a: Adv, e: Event)
    requires Partitioned(cfg, a) && Legal(cfg, a, e)
    requires e.Response? && e.loc in a.reg ==> Room(cfg, a)
    ensures Partitioned(cfg, Step(cfg, a, e)) <==> Clean(cfg, a, e)
  {
    var b := Step(cfg, a, e);
    match e
    case Fold => SameSlots(cfg, a, b);
    case Visit(sub) =>
      var v := if sub == 0 then a.(r := a.r + 1) else a;
      SameSlots(cfg, a, v);
      AgeKeeps(cfg, v, sub, cfg.slots);
    case Response(l, sender, _, counter) =>
      assert Roles(cfg, a, l) == 1;
      if At(a, l).dev != 0 {
        OccupiedResponse(cfg, a, e);
      } else if Accepted(a, e) {
        if l in a.reg {
          RegisterKeeps(cfg, a, l, sender, counter);
        } else {
          EmptySlotTaken(cfg, a, e);
        }
      } else {
        EmptySlotFreed(cfg, a, e);
      }
    case Noop =>
    case Reboot => BootPartitioned(cfg, Stored(a.c));
  }

  lemma SameSlots(cfg: Cfg, a: Adv, b: Adv)
    requires Partitioned(cfg, a) && b == a.(c := b.c, r := b.r)
    ensures Partitioned(cfg, b)
  {
    forall x | InGrid(cfg, x)
      ensures Roles(cfg, b, x) == 1
    {
      assert Roles(cfg, a, x) == 1;
    }
  }

  lemma OccupiedResponse(cfg: Cfg, a: Adv, e: Event)
    requires Partitioned(cfg, a) && e.Response? && InGrid(cfg, e.loc) && Occupied(a, e.loc)
    ensures Partitioned(cfg, Step(cfg, a, e))
  {
    if Accepted(a, e) {
      var b := a.(c := Step(cfg, a, e).c);
      SameSlots(cfg, a, b);
      IdleKeeps(cfg, b, e.loc, 0);
    } else {
      PushKeeps(cfg, a, Step(cfg, a, e), e.loc);
    }
  }

  lemma EmptySlotTaken(cfg: Cfg, a: Adv, e: Event)
    requires Partitioned(cfg, a) && Legal(cfg, a, e) && Accepted(a, e)
    requires At(a, e.loc).dev == 0 && e.loc !in a.reg
    ensures Partitioned(cfg, Step(cfg, a, e)) <==> e.loc in a.leaked
  {
    var b := Step(cfg, a, e);
    assert Roles(cfg, a, e.loc) == 1;
    if e.loc in a.leaked {
      forall x | InGrid(cfg, x)
        ensures Roles(cfg, b, x) == 1
      {
        assert Roles(cfg, a, x) == 1;
      }
    } else {
      assert Roles(cfg, b, e.loc) == 2;
    }
  }

  lemma EmptySlotFreed(cfg: Cfg, a: Adv, e: Event)
    requires Partitioned(cfg, a) && Legal(cfg, a, e) && Rejected(a, e) && At(a, e.loc).dev == 0
    ensures Partitioned(cfg, Step(cfg, a, e)) <==> |a.free| == cfg.capacity || e.loc in a.leaked
  {
    var b := Step(cfg, a, e);
    var l := e.loc;
    assert Roles(cfg, a, l) == 1;
    if |a.free| < cfg.capacity {
      if l in a.leaked {
        forall x | InGrid(cfg, x)
          ensures Roles(cfg, b, x) == 1
        {
          assert Roles(cfg, a, x) == 1;
        }
      } else if l in a.free {
        var i :| 0 <= i < |a.free| && a.free[i] == l;
        assert b.free[i] == b.free[|a.free|];
      } else {
        assert b.free[|a.free|] == l;
        assert Roles(cfg, b, l) == 2;
      }
    }
  }

  // ---- start-up --------------------------------------------------------------------------

  lemma BumpIndex(cfg: Cfg, l: Loc)
    requires cfg.Valid() && l.slot < cfg.slots
    requires l.sub < 255 || l.slot + 1 < cfg.slots
    ensures Lin(cfg, Bump(cfg, l)) == Lin(cfg, l) + 1
  {
    assert (l.sub + 1) * cfg.slots == l.sub * cfg.slots + cfg.slots;
  }

  /** The n-th slot from the bump pointer is grid index k + n, until the subevent byte overflows. */
  lemma {:induction false} NthFreshIndex(cfg: Cfg, n: nat)
    requires cfg.Valid() && cfg.reserved + n < 256 * cfg.slots
    ensures Lin(cfg, NthFresh(cfg, n)) == cfg.reserved + n
  {
    if n > 0 {
      NthFreshIndex(cfg, n - 1);
      BumpIndex(cfg, NthFresh(cfg, n - 1));
    }
  }

  lemma BootPartitioned(cfg: Cfg, c: nat)
    requires cfg.Valid()
    ensures Partitioned(cfg, Boot(cfg, c))
    ensures Lin(cfg, Boot(cfg, c).last) == 2 * cfg.reserved
  {
    var a := Boot(cfg, c);
    forall i | 0 <= i <= cfg.reserved
      ensures Lin(cfg, NthFresh(cfg, i)) == cfg.reserved + i
    {
      NthFreshIndex(cfg, i);
    }
    forall i, j | 0 <= i < j < |a.reg|
      ensures a.reg[i] != a.reg[j]
    {
      assert Lin(cfg, a.reg[i]) != Lin(cfg, a.reg[j]);
    }
    forall i | 0 <= i < |a.reg|
      ensures Precedes(a.reg[i], a.last)
    {
      LinOrder(cfg, a.reg[i], a.last);
      LinOrder(cfg, a.last, a.reg[i]);
    }
    forall l | InGrid(cfg, l)
      ensures Roles(cfg, a, l) == 1
    {
      LinOrder(cfg, l, a.last);
      LinOrder(cfg, a.last, l);
      LinOrder(cfg, l, Loc(0, cfg.reserved));
      LinOrder(cfg, Loc(0, cfg.reserved), l);
      if cfg.reserved <= Lin(cfg, l) < 2 * cfg.reserved {
        var i := Lin(cfg, l) - cfg.reserved;
        LinOrder(cfg, l, a.reg[i]);
        assert a.reg[i] == l;
      }
    }
  }
}
