// Both ends of the counter envelope are reached, for any number of visits to subevent 0.
module EnvelopeEnds {
  import opened Words
  import opened Protocol
  import opened AdvertiserModel
  import opened Clocks
  import opened CallRuns
  import opened Continuing

  /** A run of one boot with only echoing responses, n visits to subevent 0, and T up by rate * n. */
  ghost predicate Reaches(t: Run, n: nat, rate: nat) {
    && WF(t.cfg, Last(t)) && Last(t).r <= 1
    && OneBoot(TicksOf(t), 0, |t.events|) && Echoing(ClocksOf(t), TicksOf(t), 0, 0, |t.events|)
    && Sweeps(TicksOf(t), 0, |t.events|) == n
    && Last(t).T() == t.states[0].T() + rate * n
  }

  /** One step more, in terms of ticks. */
  lemma GoOn(t: Run, e: Event) returns (u: Run)
    requires OneBoot(TicksOf(t), 0, |t.events|) && Echoing(ClocksOf(t), TicksOf(t), 0, 0, |t.events|)
    requires Legal(t.cfg, Last(t), e) && !e.Reboot? && (e.Visit? ==> InRequest(t.events, |t.events|))
    requires e.Response? ==> e.counter <= HighestSent(ClocksOf(t), TicksOf(t), 0, 0, |t.events|)
    ensures u.cfg == t.cfg && u.states[0] == t.states[0] && u.events == t.events + [e]
    ensures WF(t.cfg, Last(t)) && WF(u.cfg, Last(u)) && Last(u) == Step(t.cfg, Last(t), e)
    ensures OneBoot(TicksOf(u), 0, |u.events|) && Echoing(ClocksOf(u), TicksOf(u), 0, 0, |u.events|)
    ensures Sweeps(TicksOf(u), 0, |u.events|) == Sweeps(TicksOf(t), 0, |t.events|) + if e == Visit(0) then 1 else 0
    ensures e.Visit? ==> HighestSent(ClocksOf(u), TicksOf(u), 0, 0, |u.events|) >= Last(u).T()
  {
    u := StepExtendsRun(t, e);
    ClocksContinue(t, e, u);
    SweepsContinue(TicksOf(t), TickOf(Last(t), e), 0);
    EchoingContinues(ClocksOf(t), TicksOf(t), ClockOf(Last(u)), TickOf(Last(t), e), 0, 0);
  }

  lemma SweepOnce(t: Run) returns (u: Run)
    requires OneBoot(TicksOf(t), 0, |t.events|) && Echoing(ClocksOf(t), TicksOf(t), 0, 0, |t.events|)
    requires WF(t.cfg, Last(t))
    ensures u.cfg == t.cfg && u.states[0] == t.states[0] && WF(u.cfg, Last(u))
    ensures OneBoot(TicksOf(u), 0, |u.events|) && Echoing(ClocksOf(u), TicksOf(u), 0, 0, |u.events|)
    ensures Sweeps(TicksOf(u), 0, |u.events|) == Sweeps(TicksOf(t), 0, |t.events|) + 1
    ensures Last(u).r == 1 && Last(u).T() == Last(t).T() + 1
    ensures HighestSent(ClocksOf(u), TicksOf(u), 0, 0, |u.events|) >= Last(u).T()
  {
    var v := GoOn(t, Fold);
    assert InRequest(v.events, |v.events|);
    u := GoOn(v, Visit(0));
  }

  lemma {:induction false} LowerEnd(cfg: Cfg, c: nat, n: nat) returns (t: Run)
    requires cfg.Valid()
    ensures t.cfg == cfg && t.states[0] == Boot(cfg, c) && Reaches(t, n, 1)
  {
    if n == 0 {
      t := Trace(cfg, [Boot(cfg, c)], []);
    } else {
      t := LowerEnd(cfg, c, n - 1);
      t := SweepOnce(t);
    }
  }

  /** A response to every message of subevent 0 arrives before the rollover is folded. */
  lemma {:induction false} UpperEnd(cfg: Cfg, c: nat, n: nat) returns (t: Run)
    requires cfg.Valid()
    ensures t.cfg == cfg && t.states[0] == Boot(cfg, c) && Reaches(t, n, 2)
  {
    if n == 0 {
      t := Trace(cfg, [Boot(cfg, c)], []);
    } else {
      t := UpperEnd(cfg, c, n - 1);
      t := SweepOnce(t);
      t := GoOn(t, Response(Loc(0, 0), 1, true, Last(t).T()));
    }
  }
}
