// Which subevents a call of `request_cb` serves.
module Serving {
  import opened Words
  import opened Protocol
  import opened AdvertiserModel

  /** subs is what a host that asks for `count` subevents from `start` on is owed: no more than there are, the
      first of them first and then in turn, none twice, and all of them if it asked for that many. */
  ghost predicate Serves(cfg: Cfg, start: u8, count: u8, subs: seq<nat>) {
    && |subs| == (if count <= cfg.subevents then count else cfg.subevents)
    && (start < cfg.subevents && count > 0 ==> |subs| > 0 && subs[0] == start)
    && (forall i :: 0 <= i < |subs| ==> subs[i] < cfg.subevents)
    && (forall i :: 0 <= i < |subs| - 1 ==> subs[i + 1] == if subs[i] == cfg.subevents - 1 then 0 else subs[i] + 1)
    && (forall i, j :: 0 <= i < j < |subs| ==> subs[i] != subs[j])
    && (count >= cfg.subevents ==> forall s :: 0 <= s < cfg.subevents ==> s in subs)
  }

  /** The subevents that a sequence of steps visits. */
  function VisitsOf(es: seq<Event>): seq<nat> {
    if |es| == 0 then []
    else VisitsOf(es[..|es| - 1]) + if es[|es| - 1].Visit? then [es[|es| - 1].visited] else []
  }
}

module ServingLaws {
  import opened Words
  import opened Protocol
  import opened AdvertiserModel
  import opened Clocks
  import opened RequestCalls
  import opened Wire
  import opened Frames
  import opened FrameLaws
  import opened Serving

  /** Messages go to the subevents that are visited, one to each. */
  lemma {:induction false} SentWhereVisited(cfg: Cfg, a: Adv, es: seq<Event>)
    requires WF(cfg, a) && AllInRange(cfg, es)
    ensures DataSubs(Sent(cfg, a, es)) == VisitsOf(es)
  {
    if |es| > 0 {
      var done, e := es[..|es| - 1], es[|es| - 1];
      SentWhereVisited(cfg, a, done);
      DataSubsAppend(Sent(cfg, a, done), Emits(cfg, Exec(cfg, a, done), e));
      OneDataEach(cfg, Exec(cfg, a, done), e);
    }
  }

  lemma {:induction false} NoData(txs: seq<Tx>)
    requires forall i :: 0 <= i < |txs| ==> txs[i].Advert?
    ensures DataSubs(txs) == []
  {
    if |txs| > 0 {
      NoData(txs[..|txs| - 1]);
    }
  }

  lemma LastIsData(txs: seq<Tx>)
    requires |txs| > 0 && txs[|txs| - 1].Data?
    requires forall i :: 0 <= i < |txs| - 1 ==> txs[i].Advert?
    ensures DataSubs(txs) == [txs[|txs| - 1].sub]
  {
    NoData(txs[..|txs| - 1]);
  }

  lemma OneDataEach(cfg: Cfg, a: Adv, e: Event)
    requires WF(cfg, a) && InRange(cfg, e)
    ensures DataSubs(Emits(cfg, a, e)) == if e.Visit? then [e.visited] else []
  {
    if e.Visit? {
      LastIsData(Emits(cfg, a, e));
    } else {
      NoData(Emits(cfg, a, e));
    }
  }

  lemma {:induction false} VisitsOfCall(cfg: Cfg, start: u8, count: u8, n: nat)
    requires cfg.Valid() && 0 < n <= |RequestEvents(cfg, start, count)|
    ensures var subs := VisitsOf(RequestEvents(cfg, start, count)[..n]);
      |subs| == n - 1 && forall i :: 0 <= i < n - 1 ==> subs[i] == Visited(cfg, start, i)
  {
    var es := RequestEvents(cfg, start, count);
    assert es[..n][..n - 1] == es[..n - 1];
    if n > 1 {
      VisitsOfCall(cfg, start, count, n - 1);
    } else {
      assert es[..0] == [];
    }
  }

  lemma ReachRemainder(x: nat, n: nat, s: nat) returns (i: nat)
    requires s < n
    ensures i < n && (x + i) % n == s
  {
    var q := x / n;
    var first := x - n * q;
    if s >= first {
      i := s - first;
      Remainder(x + i, n, q, s);
    } else {
      i := s + n - first;
      assert n * (q + 1) == n * q + n;
      Remainder(x + i, n, q + 1, s);
    }
  }

  /** Every subevent is visited by some iteration below the number of subevents. */
  lemma VisitedSometime(cfg: Cfg, start: u8, s: nat) returns (i: nat)
    requires cfg.Valid() && s < cfg.subevents
    ensures i < cfg.subevents && Visited(cfg, start, i) == s
  {
    i := ReachRemainder(start, cfg.subevents, s);
  }

  lemma AllVisited(cfg: Cfg, start: u8, subs: seq<nat>)
    requires cfg.Valid() && |subs| == cfg.subevents
    requires forall i :: 0 <= i < |subs| ==> subs[i] == Visited(cfg, start, i)
    ensures forall s :: 0 <= s < cfg.subevents ==> s in subs
  {
    forall s | 0 <= s < cfg.subevents
      ensures s in subs
    {
      var i := VisitedSometime(cfg, start, s);
      assert subs[i] == s;
    }
  }

  lemma FirstVisited(cfg: Cfg, start: u8)
    requires cfg.Valid() && start < cfg.subevents
    ensures Visited(cfg, start, 0) == start
  {
    Remainder(start, cfg.subevents, 0, start);
  }

  lemma SubsServe(cfg: Cfg, start: u8, count: u8, subs: seq<nat>)
    requires cfg.Valid() && |subs| == Iterations(cfg, count)
    requires forall i :: 0 <= i < |subs| ==> subs[i] == Visited(cfg, start, i)
    ensures Serves(cfg, start, count, subs)
  {
    var n := cfg.subevents;
    forall i | 0 <= i < |subs| - 1
      ensures subs[i + 1] == if subs[i] == n - 1 then 0 else subs[i] + 1
    {
      VisitedNext(cfg, start, i);
    }
    forall i, j | 0 <= i < j < |subs|
      ensures subs[i] != subs[j]
    {
      VisitsAreDistinct(cfg, start, i, j);
    }
    if count >= n {
      AllVisited(cfg, start, subs);
    }
    if start < n {
      FirstVisited(cfg, start);
    }
  }

  /** A call serves what the host asked for. */
  lemma CallServes(cfg: Cfg, start: u8, count: u8)
    requires cfg.Valid()
    ensures Serves(cfg, start, count, VisitsOf(RequestEvents(cfg, start, count)))
  {
    var es := RequestEvents(cfg, start, count);
    VisitsOfCall(cfg, start, count, |es|);
    assert es[..|es|] == es;
    SubsServe(cfg, start, count, VisitsOf(es));
  }

  /** So do the packets it hands over. */
  lemma PacketsServe(mac: Mac, key: nat, cfg: Cfg, a: Adv, start: u8, count: u8, out: seq<Packet>)
    requires WF(cfg, a) && Carry(mac, key, Sent(cfg, a, RequestEvents(cfg, start, count)), out)
    ensures Serves(cfg, start, count, Served(out))
  {
    var es := RequestEvents(cfg, start, count);
    CarriedToSubevents(mac, key, Sent(cfg, a, es), out);
    SentWhereVisited(cfg, a, es);
    CallServes(cfg, start, count);
  }
}
