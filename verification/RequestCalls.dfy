// A whole call of `request_cb` in terms of its steps.
module RequestCalls {
  import opened Words
  import opened Protocol
  import opened AdvertiserModel
  import opened Clocks

  ghost predicate AllInRange(cfg: Cfg, es: seq<Event>) {
    forall i :: 0 <= i < |es| ==> InRange(cfg, es[i])
  }

  /** State after a sequence of steps. */
  ghost function Exec(cfg: Cfg, a: Adv, es: seq<Event>): (b: Adv)
    requires WF(cfg, a) && AllInRange(cfg, es)
    ensures WF(cfg, b)
  {
    if |es| == 0 then a else Step(cfg, Exec(cfg, a, es[..|es| - 1]), es[|es| - 1])
  }

  /** Everything a sequence of steps puts on the air. */
  ghost function Sent(cfg: Cfg, a: Adv, es: seq<Event>): seq<Tx>
    requires WF(cfg, a) && AllInRange(cfg, es)
  {
    if |es| == 0 then []
    else Sent(cfg, a, es[..|es| - 1]) + Emits(cfg, Exec(cfg, a, es[..|es| - 1]), es[|es| - 1])
  }

  lemma ExecSnoc(cfg: Cfg, a: Adv, es: seq<Event>, e: Event)
    requires WF(cfg, a) && AllInRange(cfg, es) && InRange(cfg, e)
    ensures AllInRange(cfg, es + [e])
    ensures Exec(cfg, a, es + [e]) == Step(cfg, Exec(cfg, a, es), e)
    ensures Sent(cfg, a, es + [e]) == Sent(cfg, a, es) + Emits(cfg, Exec(cfg, a, es), e)
  {
    assert (es + [e])[..|es|] == es;
  }

  /** The subevent visited by the i-th iteration of `request_cb`. */
  function Visited(cfg: Cfg, start: u8, i: nat): nat
    requires cfg.Valid()
  {
    (start + i) % cfg.subevents
  }

  /** Number of iterations: no more than there are subevents. */
  function Iterations(cfg: Cfg, count: u8): nat {
    if count < cfg.subevents then count else cfg.subevents
  }

  function RequestEvents(cfg: Cfg, start: u8, count: u8): (es: seq<Event>)
    requires cfg.Valid()
    ensures |es| == Iterations(cfg, count) + 1 && es[0] == Fold
    ensures forall i :: 0 < i < |es| ==> es[i] == Visit(Visited(cfg, start, i - 1)) && InRange(cfg, es[i])
  {
    [Fold] + seq(Iterations(cfg, count), i requires 0 <= i => Visit(Visited(cfg, start, i)))
  }

  lemma VisitedNext(cfg: Cfg, start: u8, i: nat)
    requires cfg.Valid()
    ensures Visited(cfg, start, i + 1) == NextSubevent(Visited(cfg, start, i), cfg.subevents)
  {
    var n, x := cfg.subevents, start + i;
    var q := x / n;
    assert x == n * q + x % n;
    if x % n + 1 == n {
      assert x + 1 == n * (q + 1) by { assert n * (q + 1) == n * q + n; }
      Remainder(x + 1, n, q + 1, 0);
    } else {
      Remainder(x + 1, n, q, x % n + 1);
    }
  }

  lemma Remainder(v: nat, n: nat, q: nat, rest: nat)
    requires rest < n && v == n * q + rest
    ensures v % n == rest
  {
    DivModUnique(v, n, q, rest);
  }

  lemma SameRemainder(x: nat, y: nat, n: nat)
    requires 0 < n && x < y && x % n == y % n
    ensures y - x >= n
  {
    var k := y / n - x / n;
    assert n * k == y - x by {
      assert x == n * (x / n) + x % n && y == n * (y / n) + y % n;
      assert n * k == n * (y / n) - n * (x / n);
    }
    if k < 1 {
      assert false;
    } else {
      assert n * k == n * (k - 1) + n;
    }
  }

  /** In one call no subevent is visited twice. */
  lemma {:induction false} VisitsAreDistinct(cfg: Cfg, start: u8, i: nat, j: nat)
    requires cfg.Valid() && i < j < i + cfg.subevents
    ensures Visited(cfg, start, i) != Visited(cfg, start, j)
  {
    if Visited(cfg, start, i) == Visited(cfg, start, j) {
      SameRemainder(start + i, start + j, cfg.subevents);
      assert false;
    }
  }

  lemma {:induction false} RolloverOfPrefix(cfg: Cfg, a: Adv, start: u8, count: u8, i: nat)
    requires WF(cfg, a) && 0 < i <= Iterations(cfg, count) + 1
    ensures AllInRange(cfg, RequestEvents(cfg, start, count)[..i])
    ensures Exec(cfg, a, RequestEvents(cfg, start, count)[..i]).r != 0 ==>
      exists k :: 0 <= k < i - 1 && Visited(cfg, start, k) == 0
  {
    var es := RequestEvents(cfg, start, count);
    assert es[..i] == es[..i - 1] + [es[i - 1]];
    if i == 1 {
      assert es[..0] == [];
      ExecSnoc(cfg, a, [], Fold);
    } else {
      RolloverOfPrefix(cfg, a, start, count, i - 1);
      ExecSnoc(cfg, a, es[..i - 1], es[i - 1]);
      if Visited(cfg, start, i - 2) == 0 {
        assert Visited(cfg, start, i - 2) == 0;
      }
    }
  }

  /** Every step of a call is a legal step of a run: it is inside a request, subevent 0 is visited only
      with an empty rollover, and subevents come in turn. */
  lemma RequestIsLegal(cfg: Cfg, a: Adv, start: u8, count: u8, i: nat)
    requires WF(cfg, a) && i < |RequestEvents(cfg, start, count)|
    ensures var es := RequestEvents(cfg, start, count);
      && AllInRange(cfg, es[..i]) && Legal(cfg, Exec(cfg, a, es[..i]), es[i])
      && (i > 0 ==> InRequest(es, i))
      && (i > 1 ==> es[i] == Visit(NextSubevent(es[i - 1].visited, cfg.subevents)))
  {
    var es := RequestEvents(cfg, start, count);
    if i > 0 {
      RolloverOfPrefix(cfg, a, start, count, i);
      InsideRequest(cfg, start, count, i);
      if es[i] == Visit(0) && Exec(cfg, a, es[..i]).r != 0 {
        var k :| 0 <= k < i - 1 && Visited(cfg, start, k) == 0;
        VisitsAreDistinct(cfg, start, k, i - 1);
        assert false;
      }
    }
    if i > 1 {
      VisitedNext(cfg, start, i - 2);
    }
  }

  lemma {:induction false} InsideRequest(cfg: Cfg, start: u8, count: u8, i: nat)
    requires cfg.Valid() && 0 < i < |RequestEvents(cfg, start, count)|
    ensures InRequest(RequestEvents(cfg, start, count), i)
  {
    if i > 1 {
      InsideRequest(cfg, start, count, i - 1);
    }
  }

  // ---- a call step by step ---------------------------------------------------------------

  lemma FirstStep(cfg: Cfg, a: Adv, start: u8, count: u8)
    requires WF(cfg, a)
    ensures var es := RequestEvents(cfg, start, count);
      AllInRange(cfg, es[..1]) && Exec(cfg, a, es[..1]) == Step(cfg, a, Fold) && Sent(cfg, a, es[..1]) == []
  {
    var es := RequestEvents(cfg, start, count);
    assert es[..1] == [] + [Fold];
    ExecSnoc(cfg, a, [], Fold);
  }

  lemma NextStep(cfg: Cfg, a: Adv, start: u8, count: u8, i: nat)
    requires WF(cfg, a) && i < Iterations(cfg, count)
    requires AllInRange(cfg, RequestEvents(cfg, start, count)[..i + 1])
    ensures var es, sub := RequestEvents(cfg, start, count), Visited(cfg, start, i);
      && es[i + 1] == Visit(sub) && sub < cfg.subevents && AllInRange(cfg, es[..i + 2])
      && var b := Exec(cfg, a, es[..i + 1]);
      && Exec(cfg, a, es[..i + 2]) == Step(cfg, b, Visit(sub))
      && Sent(cfg, a, es[..i + 2]) == Sent(cfg, a, es[..i + 1]) + Emits(cfg, b, Visit(sub))
  {
    var es := RequestEvents(cfg, start, count);
    assert es[..i + 2] == es[..i + 1] + [es[i + 1]];
    ExecSnoc(cfg, a, es[..i + 1], es[i + 1]);
  }
}
