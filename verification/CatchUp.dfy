// Reboots of the advertiser: how far scanners can be ahead, and when they follow again.
module CatchUp {
  import opened Words
  import opened Protocol
  import opened AdvertiserModel
  import opened Clocks
  import opened CounterRuns
  import opened ScannerModel
  import opened ScannerInvariant
  import opened SystemModel
  import opened SystemInvariant
  import opened SystemHistory

  /** The advertiser's counter fits the four bytes that are stored, whenever it reboots before step i. */
  ghost predicate StorableUpTo(y: SysRun, i: nat)
    requires i <= |y.events|
  {
    forall k :: 0 <= k < i ==> Storable(y.states[k], y.events[k])
  }

  /** Across any number of reboots of the advertiser and of scanners, no message or response exceeds c + 1
      and no scanner's counter exceeds c + 2. */
  lemma {:induction false} NobodyFarAhead(y: SysRun, i: nat)
    requires i <= |y.events| && StorableUpTo(y, i)
    ensures Bounded(y.floor, y.states[i])
  {
    if i == 0 {
      InitiallyFormed(y.cfg, y.floor, y.states[0]);
    } else {
      NobodyFarAhead(y, i - 1);
      AlwaysFormed(y, i - 1);
      assert y.Moves(i - 1);
      BoundedStep(y.cfg, y.floor, y.states[i - 1], y.events[i - 1]);
    }
  }

  /** Catching up. Take any moment p, such as the moment after a reboot. Every advertisement built in the
      same boot at or after the third visit to subevent 0 since p passes the check against the counter
      that any scanner held at p. */
  lemma ThirdSweepIsAccepted(y: SysRun, p: nat, q: nat, n: nat, id: u16)
    requires p <= q && Builds(y, q, n) && StorableUpTo(y, p) && id in y.states[p].scn
    requires OneBoot(TicksOf(AdvRun(y)), p, q + 1) && Sweeps(TicksOf(AdvRun(y)), p, q + 1) >= 3
    requires y.states[q + 1].air[n].Advert?
    ensures y.states[p].scn[id].counter <= y.states[q + 1].air[n].counter
  {
    NobodyFarAhead(y, p);
    BuiltShape(y, q, n);
    RunRises(AdvRun(y), p, q + 1);
  }

  /** The counter held at p cannot be replaced by the counter held when the advertisement arrives. Any scanner
      that waits for its confirmation and takes the message of a visit to subevent 0 there, acked or not, then
      loses its sync and scans again, rejects that visit's own advertisement. */
  lemma TakingOvertakesAdvert(cfg: Cfg, id: u16, a: Adv, s: Scn, pick: u8)
    requires WF(cfg, a) && Legal(cfg, a, Visit(0)) && WFS(cfg, s) && Disciplined(id, s)
    requires Confirming(s) && s.recv == ConfirmRecv && s.counter <= a.c + 1
    ensures var sent := Emits(cfg, a, Visit(0));
      && |sent| == 2 && sent[0].Advert? && sent[1].Data? && |sent[1].acks| == cfg.slots
      && var heard := Receive(0, Signed(sent[1].counter, Some(sent[1].acks)));
      && Possible(cfg, s, heard)
      && var taken := ScnStep(cfg, id, s, heard);
      && var lost := ScnStep(cfg, id, taken, Terminated(false));
      && Possible(cfg, lost, Run(true))
      && var syncing := ScnStep(cfg, id, lost, Run(true));
      && Possible(cfg, syncing, Run(true))
      && var scanning := ScnStep(cfg, id, syncing, Run(true));
      && var advert := Hear(Ad(sent[0].reg, sent[0].counter), pick, true, true);
      && Possible(cfg, scanning, advert)
      && scanning.counter == sent[0].counter + (if Answer(cfg, id, s, heard).Some? then 2 else 1)
      && ScnStep(cfg, id, scanning, advert) == scanning
  {
  }

  // ---- the envelope in a running system --------------------------------------------------

  /** No subevent message and no response on the air carries more than `floor`. */
  ghost predicate SentUpTo(s: Sys, floor: nat) {
    && (forall n :: 0 <= n < |s.air| && s.air[n].Data? ==> s.air[n].counter <= floor)
    && (forall n :: 0 <= n < |s.rsps| ==> s.rsps[n].counter <= floor)
  }

  /** A step adds at most the messages it builds, and responses to older ones. */
  lemma SentStep(y: SysRun, i: nat, m: nat, more: nat)
    requires i < |y.events| && SentUpTo(y.states[i], m) && m <= more
    requires TicksOf(AdvRun(y))[i].Tour? ==> ClocksOf(AdvRun(y))[i + 1].T() <= more
    ensures SentUpTo(y.states[i + 1], more)
  {
    StepGrows(y, i);
    var s, t := y.states[i], y.states[i + 1];
    forall n | 0 <= n < |t.air| && t.air[n].Data?
      ensures t.air[n].counter <= more
    {
      if n < |s.air| {
        assert t.air[n] == s.air[n];
      } else {
        CounterWhenBuilt(y, i, n);
      }
    }
    forall n | 0 <= n < |t.rsps|
      ensures t.rsps[n].counter <= more
    {
      if n < |s.rsps| {
        assert t.rsps[n] == s.rsps[n];
      } else {
        TransmittedShape(y, i, n);
      }
    }
  }

  /** What is on the air, and what comes back, is no higher than what was on the air at p or sent since. */
  lemma {:induction false} NothingExceedsSent(y: SysRun, floor: nat, p: nat, i: nat)
    requires p <= i <= |y.events| && OneBoot(TicksOf(AdvRun(y)), p, i) && SentUpTo(y.states[p], floor)
    ensures SentUpTo(y.states[i], HighestSent(ClocksOf(AdvRun(y)), TicksOf(AdvRun(y)), floor, p, i))
  {
    if i > p {
      NothingExceedsSent(y, floor, p, i - 1);
      var ks, ts := ClocksOf(AdvRun(y)), TicksOf(AdvRun(y));
      SentStep(y, i - 1, HighestSent(ks, ts, floor, p, i - 1), HighestSent(ks, ts, floor, p, i));
    }
  }

  lemma RaisedByResponse(y: SysRun, k: nat)
    requires k < |y.events| && TicksOf(AdvRun(y))[k].Raise?
    ensures exists n :: 0 <= n < |y.states[k].rsps| && y.states[k].rsps[n].counter == TicksOf(AdvRun(y))[k].to
  {
    assert y.Moves(k);
  }

  /** Scanners only echo. */
  lemma ScannersEcho(y: SysRun, floor: nat, p: nat, i: nat)
    requires p <= i <= |y.events| && OneBoot(TicksOf(AdvRun(y)), p, i) && SentUpTo(y.states[p], floor)
    ensures Echoing(ClocksOf(AdvRun(y)), TicksOf(AdvRun(y)), floor, p, i)
  {
    var ks, ts := ClocksOf(AdvRun(y)), TicksOf(AdvRun(y));
    forall k | p <= k < i
      ensures Echoes(ks, ts, floor, p, k)
    {
      NothingExceedsSent(y, floor, p, k);
      if ts[k].Raise? {
        RaisedByResponse(y, k);
      }
    }
  }

  lemma EchoFrom(y: SysRun, p: nat, i: nat)
    requires p <= i <= |y.events| && StorableUpTo(y, p) && OneBoot(TicksOf(AdvRun(y)), p, i)
    ensures y.states[p].adv.r <= 1
    ensures Echoing(ClocksOf(AdvRun(y)), TicksOf(AdvRun(y)), y.states[p].adv.c + 1, p, i)
  {
    NobodyFarAhead(y, p);
    ScannersEcho(y, y.states[p].adv.c + 1, p, i);
  }

  /** The counter envelope of any boot, from any state p of it on, however many reboots and late responses
      came before: n visits to subevent 0 take T up by at least n and at most 2n + 1. */
  lemma EnvelopeInService(y: SysRun, p: nat, i: nat)
    requires p <= i <= |y.events| && StorableUpTo(y, p) && OneBoot(TicksOf(AdvRun(y)), p, i)
    ensures y.states[i].adv.r <= 1
    ensures var n, from := Sweeps(TicksOf(AdvRun(y)), p, i), y.states[p].adv.T();
      from + n <= y.states[i].adv.T() <= from + 1 + 2 * n
  {
    var floor := y.states[p].adv.c + 1;
    assert y.states[p].adv.T() <= floor && Echoing(ClocksOf(AdvRun(y)), TicksOf(AdvRun(y)), floor, p, i) by {
      EchoFrom(y, p, i);
    }
    CounterEnvelope(AdvRun(y), floor, p, i);
  }

  /** The extra one is not needed if and only if no response that is one above the counter of p comes
      before the first visit to subevent 0 since p, and before the rollover of p is folded. */
  lemma EnvelopeIsTight(y: SysRun, p: nat, i: nat)
    requires p <= i <= |y.events| && StorableUpTo(y, p) && OneBoot(TicksOf(AdvRun(y)), p, i)
    ensures var ks, ts := ClocksOf(AdvRun(y)), TicksOf(AdvRun(y));
      WithinTwo(ks, ts, p, i) <==> NoneEarly(ks, ts, p, i)
  {
    EchoFrom(y, p, i);
    TwoSufficeOnRun(AdvRun(y), p, i);
  }

  /** In the first boot it is never needed from the start. */
  lemma EnvelopeOfFirstBoot(y: SysRun, i: nat)
    requires i <= |y.events| && OneBoot(TicksOf(AdvRun(y)), 0, i)
    ensures var n, from := Sweeps(TicksOf(AdvRun(y)), 0, i), y.states[0].adv.T();
      from + n <= y.states[i].adv.T() <= from + 2 * n
  {
    ScannersEcho(y, 0, 0, i);
    CounterEnvelope(AdvRun(y), 0, 0, i);
  }
}
