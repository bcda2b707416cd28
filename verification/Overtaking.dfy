// Exactly when an advertisement built after a reboot passes a scanner's counter check.
module Overtaking {
  import opened Words
  import opened Protocol
  import opened Clocks
  import opened ScannerModel
  import opened SystemModel
  import opened SystemHistory
  import opened Reception
  import opened CatchUp

  /** The step receives a message with a counter above c, or answers one with counter c. */
  predicate Outdates(cfg: Cfg, id: u16, s: Scn, e: ScnEvent, c: nat) {
    || (e.Receive? && e.rx.Signed? && s.recv != NoRecv &&
        (e.rx.counter > c || (e.rx.counter == c && Answer(cfg, id, s, e).Some?)))
    || (e.Hear? && e.report.Ad? && e.report.counter > c)
  }

  /** Step k of the run does that to scanner id. */
  ghost predicate OutdatesAt(y: SysRun, id: u16, k: nat, c: nat) {
    && k < |y.events| && y.events[k].Scanner? && y.events[k].id == id && id in y.states[k].scn
    && Outdates(y.cfg, id, y.states[k].scn[id], y.events[k].step, c)
  }

  /** Some step from p on, before i, does. */
  ghost predicate OutdatedBetween(y: SysRun, id: u16, p: nat, i: nat, c: nat) {
    exists k :: p <= k < i && OutdatesAt(y, id, k, c)
  }

  /** Message n is an advertisement, built at step q, at or after the third visit to subevent 0 since p in
      the same boot. */
  ghost predicate ThirdSweepAdvert(y: SysRun, p: nat, q: nat, n: nat) {
    && p <= q && Builds(y, q, n) && y.states[q + 1].air[n].Advert?
    && OneBoot(TicksOf(AdvRun(y)), p, q + 1) && Sweeps(TicksOf(AdvRun(y)), p, q + 1) >= 3
  }

  /** Step i brings advertisement n, built at step q, to scanner id, which has been on since p. */
  ghost predicate AdvertReaches(y: SysRun, p: nat, q: nat, n: nat, id: u16, i: nat) {
    && p <= q < i < |y.events| && id in y.states[p].scn && StaysOn(y, id, p, i)
    && Takes(y, id, i) && y.events[i].step.Hear? && y.events[i].n == n
  }

  /** Message m was built at least two visits to subevent 0 before step q, in the same boot. */
  ghost predicate TwoSweepsOlder(y: SysRun, m: nat, q: nat) {
    exists b: nat :: b <= q < |y.events| && Builds(y, b, m)
      && OneBoot(TicksOf(AdvRun(y)), b, q + 1) && Sweeps(TicksOf(AdvRun(y)), b + 1, q + 1) >= 2
  }
}

module OvertakingLaws {
  import opened Words
  import opened Protocol
  import opened SlotRoles
  import opened Clocks
  import opened CounterRuns
  import opened ScannerModel
  import opened ScannerInvariant
  import opened SystemModel
  import opened SystemHistory
  import opened Reception
  import opened CatchUp
  import opened Overtaking

  /** The counter after a step that takes a message, exactly: the message's, and one more if it is
      answered. */
  lemma CounterMoves(cfg: Cfg, id: u16, s: Scn, e: ScnEvent)
    requires WFS(cfg, s) && Possible(cfg, s, e)
    ensures ScnStep(cfg, id, s, e).counter ==
      if e.Receive? && s.recv != NoRecv && Verifies(s, e.rx) then e.rx.counter + One(Answer(cfg, id, s, e).Some?)
      else if e.Hear? && e.report.Ad? && s.counter <= e.report.counter then e.report.counter
      else s.counter
  {
    if e.Run? {
      StateFunctionFrame(cfg, id, s, e);
    }
  }

  /** Whether a scanner is past c, one step on. */
  lemma PastStep(y: SysRun, id: u16, k: nat, c: nat)
    requires k < |y.events| && id in y.states[k].scn && StaysOn(y, id, k, k + 1)
    ensures id in y.states[k + 1].scn
    ensures y.states[k + 1].scn[id].counter > c <==> y.states[k].scn[id].counter > c || OutdatesAt(y, id, k, c)
  {
    assert y.Moves(k);
    if y.events[k].Scanner? && y.events[k].id == id {
      CounterMoves(y.cfg, id, y.states[k].scn[id], y.events[k].step);
    }
  }

  lemma {:induction false} PastMeansOutdated(y: SysRun, id: u16, p: nat, i: nat, c: nat)
    requires p <= i <= |y.events| && id in y.states[p].scn && StaysOn(y, id, p, i)
    requires y.states[p].scn[id].counter <= c
    ensures id in y.states[i].scn
    ensures y.states[i].scn[id].counter > c <==> OutdatedBetween(y, id, p, i, c)
  {
    if p < i {
      PastMeansOutdated(y, id, p, i - 1, c);
      PastStep(y, id, i - 1, c);
      assert OutdatedBetween(y, id, p, i, c) <==> OutdatedBetween(y, id, p, i - 1, c) || OutdatesAt(y, id, i - 1, c);
    }
  }

  /** Catching up, exactly. Take any moment p and an advertisement built in the same boot at or after the
      third visit to subevent 0 since p. When it reaches a scanner that was on all the time, it is accepted
      if and only if since p that scanner has received no message with a larger counter and answered none
      with the same counter. In particular a scanner that has received nothing since p accepts it. */
  lemma AcceptedUnlessOutdated(y: SysRun, p: nat, q: nat, n: nat, id: u16, i: nat)
    requires ThirdSweepAdvert(y, p, q, n) && AdvertReaches(y, p, q, n, id, i) && StorableUpTo(y, p)
    ensures AcceptsAd(y, id, i) <==> !OutdatedBetween(y, id, p, i, y.states[q + 1].air[n].counter)
  {
    ThirdSweepIsAccepted(y, p, q, n, id);
    PastMeansOutdated(y, id, p, i, y.states[q + 1].air[n].counter);
    AirGrows(y, q + 1, i);
    assert y.Moves(i);
  }

  // ---- in terms of visits ----------------------------------------------------------------

  /** An advertisement is above every message built at least two visits to subevent 0 earlier in its boot,
      and not below those built one visit earlier. */
  lemma SweepsOutnumber(y: SysRun, b: nat, m: nat, q: nat, n: nat)
    requires b <= q && Builds(y, b, m) && Builds(y, q, n) && y.states[q + 1].air[n].Advert?
    requires OneBoot(TicksOf(AdvRun(y)), b, q + 1)
    ensures y.states[b + 1].air[m].counter + Sweeps(TicksOf(AdvRun(y)), b + 1, q + 1)
      <= y.states[q + 1].air[n].counter + 1
  {
    BuiltShape(y, b, m);
    BuiltShape(y, q, n);
    RunRises(AdvRun(y), b + 1, q + 1);
  }

  /** A scanner takes from the air what the advertiser put there. */
  lemma TakenFromAir(y: SysRun, id: u16, k: nat)
    requires Takes(y, id, k)
    ensures y.events[k].n < |y.states[k].air|
    ensures var e := y.events[k].step;
      y.states[k].air[y.events[k].n].counter == if e.Receive? then e.rx.counter else e.report.counter
  {
    assert y.Moves(k);
  }

  lemma OldMessageDoesNotOutdate(y: SysRun, q: nat, n: nat, id: u16, k: nat)
    requires Builds(y, q, n) && y.states[q + 1].air[n].Advert?
    requires Takes(y, id, k) && TwoSweepsOlder(y, y.events[k].n, q)
    ensures !OutdatesAt(y, id, k, y.states[q + 1].air[n].counter)
  {
    var m := y.events[k].n;
    var b: nat :| b <= q && Builds(y, b, m)
      && OneBoot(TicksOf(AdvRun(y)), b, q + 1) && Sweeps(TicksOf(AdvRun(y)), b + 1, q + 1) >= 2;
    SweepsOutnumber(y, b, m, q, n);
    TakenFromAir(y, id, k);
    SameMessage(y, b + 1, k, m);
  }

  /** A message is the same whenever it is looked at. */
  lemma SameMessage(y: SysRun, i: nat, j: nat, m: nat)
    requires i <= |y.events| && j <= |y.events| && m < |y.states[i].air| && m < |y.states[j].air|
    ensures y.states[i].air[m] == y.states[j].air[m]
  {
    if i <= j {
      AirGrows(y, i, j);
    } else {
      AirGrows(y, j, i);
    }
  }

  /** Hence it is enough that whatever the scanner has received since p was built at least two visits to
      subevent 0 before the advertisement. */
  lemma AcceptedAfterTwoSweeps(y: SysRun, p: nat, q: nat, n: nat, id: u16, i: nat)
    requires ThirdSweepAdvert(y, p, q, n) && AdvertReaches(y, p, q, n, id, i) && StorableUpTo(y, p)
    requires forall k :: p <= k < i && Takes(y, id, k) ==> TwoSweepsOlder(y, y.events[k].n, q)
    ensures AcceptsAd(y, id, i)
  {
    var c := y.states[q + 1].air[n].counter;
    forall k | p <= k < i
      ensures !OutdatesAt(y, id, k, c)
    {
      if Takes(y, id, k) {
        OldMessageDoesNotOutdate(y, q, n, id, k);
      }
    }
    AcceptedUnlessOutdated(y, p, q, n, id, i);
  }
}
