// What the advertiser advertises is what it has on offer.
module Announcements {
  import opened Words
  import opened Protocol
  import opened AdvertiserModel
  import opened SystemModel

  /** The last advertisement among messages in build order. */
  function LatestAdvert(txs: seq<Tx>): Option<Tx> {
    if |txs| == 0 then None
    else if txs[|txs| - 1].Advert? then Some(txs[|txs| - 1])
    else LatestAdvert(txs[..|txs| - 1])
  }

  /** The advertisement on the air names the slots on offer, with the counter as it is, or as it was before
      a rollover that was just added to it. */
  predicate Current(s: Sys) {
    && LatestAdvert(s.air).Some? && s.adv.r <= 1
    && var tx := LatestAdvert(s.air).value;
    && tx.Advert? && tx.reg == s.adv.reg
    && (tx.counter == s.adv.c || (tx.counter + 1 == s.adv.c && s.adv.r == 0))
  }
}

module AnnouncementLaws {
  import opened Words
  import opened Protocol
  import opened AdvertiserModel
  import opened SystemModel
  import opened Announcements

  lemma {:induction false} LatestOfBoth(xs: seq<Tx>, ys: seq<Tx>)
    ensures LatestAdvert(xs + ys) == if LatestAdvert(ys).Some? then LatestAdvert(ys) else LatestAdvert(xs)
  {
    if |ys| == 0 {
      assert xs + ys == xs;
    } else {
      LatestOfBoth(xs, ys[..|ys| - 1]);
      assert (xs + ys)[..|xs| + |ys| - 1] == xs + ys[..|ys| - 1];
    }
  }

  /** Start-up, a visit to subevent 0 and an accepted response each leave the air with exactly the slots that
      are then on offer and the counter as it then is; no other step advertises. */
  lemma AdvertRenewed(cfg: Cfg, a: Adv, e: Event)
    requires WF(cfg, a) && InRange(cfg, e)
    ensures var b := Step(cfg, a, e);
      LatestAdvert(Emits(cfg, a, e)) ==
        if e == Visit(0) || e.Reboot? || Accepted(a, e) then Some(Advert(b.reg, b.c)) else None
  {
    var txs := Emits(cfg, a, e);
    if e.Visit? {
      assert txs[..|txs| - 1] == if e.visited == 0 then [Advert(a.reg, a.c)] else [];
      assert LatestAdvert(txs) == LatestAdvert(txs[..|txs| - 1]);
    }
  }

  lemma CurrentStep(cfg: Cfg, floor: nat, s: Sys, e: SysEvent)
    requires Enabled(cfg, floor, s, e) && Current(s)
    ensures Current(SysStep(cfg, floor, s, e))
  {
    var ae := AdvEventOf(s, e);
    LatestOfBoth(s.air, Emits(cfg, s.adv, ae));
    AdvertRenewed(cfg, s.adv, ae);
  }

  /** On every run of the system, after every step. */
  lemma {:induction false} AdvertIsCurrent(y: SysRun, i: nat)
    requires i <= |y.events|
    ensures Current(y.states[i])
  {
    if i > 0 {
      AdvertIsCurrent(y, i - 1);
      assert y.Moves(i - 1);
      CurrentStep(y.cfg, y.floor, y.states[i - 1], y.events[i - 1]);
    }
  }
}
