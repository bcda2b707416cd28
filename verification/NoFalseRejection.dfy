// In normal operation no scanner rejects a message of the advertiser for its counter.
module NoFalseRejection {
  import opened Words
  import opened Protocol
  import opened AdvertiserModel
  import opened Clocks
  import opened CounterRuns
  import opened ScannerModel
  import opened ScannerInvariant
  import opened SystemModel
  import opened SystemInvariant
  import opened SystemHistory
  import opened Reception

  // ---- the air since some state of a boot ------------------------------------------------

  lemma BuilderSince(y: SysRun, p: nat, i: nat, n: nat) returns (j: nat)
    requires p <= i <= |y.events| && |y.states[p].air| <= n < |y.states[i].air|
    ensures p <= j < i && Builds(y, j, n) && y.states[j + 1].air[n] == y.states[i].air[n]
  {
    assert y.states[0].air != [];
    AirGrows(y, 0, p);
    j := Builder(y, i, n);
    if j < p {
      AirGrows(y, j + 1, p);
    }
  }

  /** What is built at step q of a boot carries at least the counter of any earlier state. */
  lemma NewerThanState(y: SysRun, p: nat, q: nat, n: nat)
    requires p <= q && Builds(y, q, n) && OneBoot(TicksOf(AdvRun(y)), p, q + 1)
    requires y.states[q + 1].air[n].Data?
    ensures y.states[p].adv.T() <= y.states[q + 1].air[n].counter
  {
    BuiltShape(y, q, n);
    RunRises(AdvRun(y), p, q + 1);
  }

  lemma TicksTell(ks: seq<Clock>, ts: seq<Tick>, subevents: nat, p: nat, o: nat, q: nat)
    requires Ticking(ks, ts) && p <= o <= q < |ts| && OneBoot(ts, p, q + 1) && Cyclic(ts, subevents, p, q + 1)
    ensures ks[o + 1].c <= ks[q + 1].T()
    ensures o < q && ts[o].Tour? && ts[q] == ts[o] ==> ks[o + 1].T() < ks[q + 1].T()
  {
    ClockRises(ks, ts, o + 1, q + 1);
    if o < q && ts[o].Tour? && ts[q] == ts[o] {
      VisitsRise(ks, ts, subevents, p, o, q);
    }
  }

  lemma NewerThanBuilt(y: SysRun, p: nat, o: nat, q: nat, m: nat, n: nat)
    requires p <= o <= q && Builds(y, o, m) && Builds(y, q, n) && m < n && InTurn(y, p, q + 1)
    requires y.states[q + 1].air[n].Data?
    ensures var older, newer := y.states[o + 1].air[m], y.states[q + 1].air[n];
      && (older.Advert? ==> older.counter <= newer.counter)
      && (older.Data? && older.sub == newer.sub ==> older.counter < newer.counter)
  {
    var ks, ts := ClocksOf(AdvRun(y)), TicksOf(AdvRun(y));
    var older, newer := y.states[o + 1].air[m], y.states[q + 1].air[n];
    assert newer.counter == ks[q + 1].T() && ts[q] == Tour(newer.sub) by {
      CounterWhenBuilt(y, q, n);
    }
    assert if older.Advert? then older.counter == ks[o + 1].c
           else o < q && older.counter == ks[o + 1].T() && ts[o] == Tour(older.sub) by {
      CounterWhenBuilt(y, o, m);
    }
    assert Ticking(ks, ts) by {
      RunTicks(AdvRun(y));
    }
    TicksTell(ks, ts, y.cfg.subevents, p, o, q);
  }

  /** While subevents are visited in turn, a subevent message is at least as new as any advertisement built
      earlier since p, and strictly newer than any such message of its subevent. */
  lemma LaterIsNewer(y: SysRun, p: nat, i: nat, m: nat, n: nat)
    requires p <= i <= |y.events| && InTurn(y, p, i)
    requires BuiltSince(y, p, m) && m < n < |y.states[i].air| && y.states[i].air[n].Data?
    ensures y.states[i].air[m].Advert? ==> y.states[i].air[m].counter <= y.states[i].air[n].counter
    ensures y.states[i].air[m].Data? && y.states[i].air[m].sub == y.states[i].air[n].sub ==>
      y.states[i].air[m].counter < y.states[i].air[n].counter
  {
    var q := BuilderSince(y, p, i, n);
    if m < |y.states[p].air| {
      AirGrows(y, p, i);
      NewerThanState(y, p, q, n);
    } else {
      var o := BuilderSince(y, p, i, m);
      BuildOrder(y, o, q, m, n);
      NewerThanBuilt(y, p, o, q, m, n);
    }
  }

  // ---- what a scanner holds --------------------------------------------------------------

  /** A step of a scanner either leaves its counter and subevent alone, or takes a verified message. */
  lemma CounterAndSlot(cfg: Cfg, id: u16, s: Scn, e: ScnEvent)
    requires WFS(cfg, s) && Possible(cfg, s, e) && s.st != INITIALIZE
    ensures var u := ScnStep(cfg, id, s, e);
      && u.st != INITIALIZE
      && (|| (u.counter == s.counter && u.sel == s.sel)
          || (e.Receive? && Verifies(s, e.rx) && u.counter <= e.rx.counter + 1 && u.sel == s.sel)
          || (e.Hear? && e.report.Ad? && s.counter <= e.report.counter && u.counter == e.report.counter))
  {
    CounterStep(cfg, id, s, e);
    if e.Run? {
      StateFunctionFrame(cfg, id, s, e);
    }
  }

  lemma AdvertExplains(y: SysRun, id: u16, k: nat)
    requires AcceptsAd(y, id, k)
    ensures Explained(y, id, k, k + 1)
  {
    AlwaysFormed(y, k);
    StepGrows(y, k);
    assert y.Moves(k);
  }

  lemma ExplainedStep(y: SysRun, id: u16, b: nat, i: nat)
    requires i < |y.events| && Explained(y, id, b, i) && OnItsSubevent(y, id, i, i) && StaysOn(y, id, i, i + 1)
    ensures Explained(y, id, b, i + 1) || Explained(y, id, i, i + 1)
  {
    AlwaysFormed(y, i);
    StepGrows(y, i);
    assert y.Moves(i);
    var e := y.events[i];
    if e.Scanner? && e.id == id {
      CounterAndSlot(y.cfg, id, y.states[i].scn[id], e.step);
    }
  }

  lemma {:induction false} AlwaysExplained(y: SysRun, id: u16, k: nat, i: nat) returns (b: nat)
    requires k < i <= |y.events| && AcceptsAd(y, id, k) && OnItsSubevent(y, id, k, i) && StaysOn(y, id, k, i)
    ensures k <= b && Explained(y, id, b, i)
  {
    if i == k + 1 {
      AdvertExplains(y, id, k);
      b := k;
    } else {
      b := AlwaysExplained(y, id, k, i - 1);
      ExplainedStep(y, id, b, i - 1);
      if !Explained(y, id, b, i) {
        b := i - 1;
      }
    }
  }

  /** No false rejection. Take any state p of the system, after whatever reboots and stale responses. As
      long as the advertiser does not reboot and visits its subevents in turn from p on, a scanner that
      accepts an advertisement built since p, and from there on hears messages in build order with any
      losses, verifies every subevent message it receives. */
  lemma EveryMessageVerifies(y: SysRun, id: u16, p: nat, k: nat, i: nat)
    requires k < i < |y.events| && p <= i && InTurn(y, p, i)
    requires AcceptsAd(y, id, k) && BuiltSince(y, p, y.events[k].n)
    requires InBuildOrder(y, id, k, i) && OnItsSubevent(y, id, k, i) && StaysOn(y, id, k, i)
    requires Takes(y, id, i) && y.events[i].step.Receive?
    ensures id in y.states[i].scn && Verifies(y.states[i].scn[id], y.events[i].step.rx)
  {
    var b := AlwaysExplained(y, id, k, i);
    assert y.Moves(i);
    assert BuiltSince(y, p, y.events[b].n);
    LaterIsNewer(y, p, i, y.events[b].n, y.events[i].n);
  }
}
