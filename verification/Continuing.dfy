// What has been counted along a run stays counted as the run goes on.
module Continuing {
  import opened Words
  import opened AdvertiserModel
  import opened Clocks
  import opened CallRuns

  lemma {:induction false} SweepsStay(ts: seq<Tick>, t: Tick, p: nat, i: nat)
    requires p <= i <= |ts|
    ensures Sweeps(ts + [t], p, i) == Sweeps(ts, p, i)
  {
    if p < i {
      SweepsStay(ts, t, p, i - 1);
    }
  }

  lemma SweepsContinue(ts: seq<Tick>, t: Tick, p: nat)
    requires p <= |ts|
    ensures Sweeps(ts + [t], p, |ts| + 1) == Sweeps(ts, p, |ts|) + if t == Tour(0) then 1 else 0
  {
    SweepsStay(ts, t, p, |ts|);
  }

  lemma {:induction false} HighestStays(ks: seq<Clock>, ts: seq<Tick>, k: Clock, t: Tick, floor: nat, p: nat, i: nat)
    requires p <= i <= |ts| && |ks| == |ts| + 1
    ensures HighestSent(ks + [k], ts + [t], floor, p, i) == HighestSent(ks, ts, floor, p, i)
  {
    if p < i {
      HighestStays(ks, ts, k, t, floor, p, i - 1);
    }
  }

  lemma EchoingContinues(ks: seq<Clock>, ts: seq<Tick>, k: Clock, t: Tick, floor: nat, p: nat)
    requires p <= |ts| && |ks| == |ts| + 1 && Echoing(ks, ts, floor, p, |ts|)
    requires t.Raise? ==> t.to <= HighestSent(ks, ts, floor, p, |ts|)
    ensures Echoing(ks + [k], ts + [t], floor, p, |ts| + 1)
  {
    forall i | p <= i < |ts| + 1
      ensures Echoes(ks + [k], ts + [t], floor, p, i)
    {
      HighestStays(ks, ts, k, t, floor, p, i);
      if i < |ts| {
        assert Echoes(ks, ts, floor, p, i);
      }
    }
  }

  /** The clock and the ticks of a run that went on by one step. */
  lemma ClocksContinue(t: Run, e: Event, u: Run)
    requires WF(t.cfg, Last(t)) && InRange(t.cfg, e) && u == Extended(t, e)
    ensures ClocksOf(u) == ClocksOf(t) + [ClockOf(Last(u))]
    ensures TicksOf(u) == TicksOf(t) + [TickOf(Last(t), e)]
  {
  }
}
