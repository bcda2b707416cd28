// What holds of the counters over whole runs of the advertiser.
module CounterRuns {
  import opened Words
  import opened Protocol
  import opened AdvertiserModel
  import opened Clocks

  // ---- envelope --------------------------------------------------------------------------

  /** Between steps the rollover is 0 or 1. */
  lemma RolloverIsABit(ks: seq<Clock>, ts: seq<Tick>, i: nat)
    requires Ticking(ks, ts) && i <= |ts|
    ensures ks[i].r <= 1
  {
    if i > 0 {
      assert Allowed(ks[i - 1], ts[i - 1]) && ks[i] == Advance(ks[i - 1], ts[i - 1]);
      RolloverIsABit(ks, ts, i - 1);
    }
  }

  /** Within one boot neither c nor T decreases, and T grows by at least one per visit to subevent 0. */
  lemma {:induction false} ClockRises(ks: seq<Clock>, ts: seq<Tick>, i: nat, j: nat)
    requires Ticking(ks, ts) && i <= j <= |ts| && OneBoot(ts, i, j)
    ensures ks[i].c <= ks[j].c
    ensures ks[i].T() + Sweeps(ts, i, j) <= ks[j].T()
  {
    if i < j {
      ClockRises(ks, ts, i, j - 1);
      assert ks[j] == Advance(ks[j - 1], ts[j - 1]);
    }
  }

  lemma {:induction false} SentStaysBelow(ks: seq<Clock>, ts: seq<Tick>, floor: nat, p: nat, i: nat)
    requires Ticking(ks, ts) && p <= i <= |ts| && OneBoot(ts, p, i)
    ensures HighestSent(ks, ts, floor, p, i) <= ks[i].T() || HighestSent(ks, ts, floor, p, i) == floor
    ensures HighestSent(ks, ts, floor, p, i) >= floor
  {
    if i > p {
      SentStaysBelow(ks, ts, floor, p, i - 1);
      assert Allowed(ks[i - 1], ts[i - 1]) && ks[i] == Advance(ks[i - 1], ts[i - 1]);
    }
  }

  /** The counter can still be raised to the highest counter sent, on top of which the pending rollover
      counts a second time: that sum grows by at most two per visit to subevent 0. */
  lemma {:induction false} DebtIsBounded(ks: seq<Clock>, ts: seq<Tick>, floor: nat, p: nat, i: nat)
    requires Ticking(ks, ts) && p <= i <= |ts| && OneBoot(ts, p, i) && Echoing(ks, ts, floor, p, i)
    requires ks[p].r == 0 || ks[p].T() <= floor
    ensures var m, base := HighestSent(ks, ts, floor, p, i), (if floor > ks[p].c then floor else ks[p].c) + ks[p].r;
      && ks[i].c + ks[i].r <= base + 2 * Sweeps(ts, p, i)
      && m + ks[i].r <= base + 2 * Sweeps(ts, p, i)
      && (InBatch(ts, i) ==> ks[i].r == 0 || ks[i].T() <= m)
  {
    if i > p {
      DebtIsBounded(ks, ts, floor, p, i - 1);
      assert Echoes(ks, ts, floor, p, i - 1) && TourInBatch(ts, i - 1);
      assert Allowed(ks[i - 1], ts[i - 1]) && ks[i] == Advance(ks[i - 1], ts[i - 1]);
    }
  }

  /** The counter envelope: n visits to subevent 0 after any state p of a boot, with responses that only echo
      counters up to `floor` or sent since p, the rollover is a bit, nothing sent since p exceeds T, and T is
      between T(p) + n and 2n above T(p), or above `floor` and the rollover of p if that is more. */
  lemma CounterEnvelope(t: Run, floor: nat, p: nat, i: nat)
    requires p <= i <= |t.events| && OneBoot(TicksOf(t), p, i)
    requires Echoing(ClocksOf(t), TicksOf(t), floor, p, i)
    requires t.states[p].r == 0 || t.states[p].T() <= floor
    ensures t.states[i].r <= 1
    ensures HighestSent(ClocksOf(t), TicksOf(t), 0, p, i) <= t.states[i].T()
    ensures var n, from := Sweeps(TicksOf(t), p, i), t.states[p];
      from.T() + n <= t.states[i].T() <= (if floor > from.c then floor else from.c) + from.r + 2 * n
  {
    RunTicks(t);
    RolloverIsABit(ClocksOf(t), TicksOf(t), i);
    ClockRises(ClocksOf(t), TicksOf(t), p, i);
    SentStaysBelow(ClocksOf(t), TicksOf(t), 0, p, i);
    DebtIsBounded(ClocksOf(t), TicksOf(t), floor, p, i);
  }

  // ---- when two per sweep suffice --------------------------------------------------------

  /** Until the first visit to subevent 0 nothing moves T but a response that comes early. */
  lemma {:induction false} QuietBeforeSweep(ks: seq<Clock>, ts: seq<Tick>, p: nat, i: nat)
    requires Ticking(ks, ts) && p <= i <= |ts| && OneBoot(ts, p, i) && Echoing(ks, ts, ks[p].c + 1, p, i)
    requires ks[p].r <= 1 && Sweeps(ts, p, i) == 0
    requires NoneEarly(ks, ts, p, i)
    ensures ks[i].T() == ks[p].T() && ks[i].r <= ks[p].r
    ensures HighestSent(ks, ts, ks[p].c + 1, p, i) == ks[p].c + 1
  {
    if i > p {
      QuietBeforeSweep(ks, ts, p, i - 1);
      assert Allowed(ks[i - 1], ts[i - 1]) && ks[i] == Advance(ks[i - 1], ts[i - 1]);
      assert !RaisedEarly(ks, ts, p, i - 1) && Echoes(ks, ts, ks[p].c + 1, p, i - 1);
    }
  }

  lemma {:induction false} DebtAfterSweep(ks: seq<Clock>, ts: seq<Tick>, p: nat, i: nat)
    requires Ticking(ks, ts) && p <= i <= |ts| && OneBoot(ts, p, i) && Echoing(ks, ts, ks[p].c + 1, p, i)
    requires ks[p].r <= 1 && Sweeps(ts, p, i) > 0
    requires NoneEarly(ks, ts, p, i)
    ensures var m, bound := HighestSent(ks, ts, ks[p].c + 1, p, i), ks[p].T() + 2 * Sweeps(ts, p, i);
      && ks[i].c + ks[i].r <= bound
      && m + ks[i].r <= bound
      && (InBatch(ts, i) ==> ks[i].r == 0 || ks[i].T() <= m)
  {
    assert Allowed(ks[i - 1], ts[i - 1]) && ks[i] == Advance(ks[i - 1], ts[i - 1]);
    assert !RaisedEarly(ks, ts, p, i - 1) && Echoes(ks, ts, ks[p].c + 1, p, i - 1) && TourInBatch(ts, i - 1);
    if Sweeps(ts, p, i - 1) == 0 {
      QuietBeforeSweep(ks, ts, p, i - 1);
    } else {
      DebtAfterSweep(ks, ts, p, i - 1);
    }
  }

  /** From p to i, T stays within two per visit to subevent 0 exactly if no response comes early. */
  lemma TwoSufficeUnlessEarly(ks: seq<Clock>, ts: seq<Tick>, floor: nat, p: nat, i: nat)
    requires Ticking(ks, ts) && p <= i <= |ts| && OneBoot(ts, p, i)
    requires floor == ks[p].c + 1 && Echoing(ks, ts, floor, p, i)
    ensures WithinTwo(ks, ts, p, i) <==> NoneEarly(ks, ts, p, i)
  {
    RolloverIsABit(ks, ts, p);
    if k :| p <= k < i && RaisedEarly(ks, ts, p, k) {
      assert Allowed(ks[k], ts[k]) && ks[k + 1] == Advance(ks[k], ts[k]);
      assert Sweeps(ts, p, k + 1) == 0 && ks[k + 1].T() > ks[p].T();
      assert !TwoAtMost(ks, ts, p, k + 1);
    } else {
      forall j | p <= j <= i
        ensures TwoAtMost(ks, ts, p, j)
      {
        if Sweeps(ts, p, j) == 0 {
          QuietBeforeSweep(ks, ts, p, j);
        } else {
          DebtAfterSweep(ks, ts, p, j);
        }
      }
    }
  }

  lemma TwoSufficeOnRun(t: Run, p: nat, i: nat)
    requires p <= i <= |t.events| && OneBoot(TicksOf(t), p, i)
    requires Echoing(ClocksOf(t), TicksOf(t), t.states[p].c + 1, p, i)
    ensures WithinTwo(ClocksOf(t), TicksOf(t), p, i) <==> NoneEarly(ClocksOf(t), TicksOf(t), p, i)
  {
    RunTicks(t);
    TwoSufficeUnlessEarly(ClocksOf(t), TicksOf(t), t.states[p].c + 1, p, i);
  }

  lemma RunRises(t: Run, i: nat, j: nat)
    requires i <= j <= |t.events| && OneBoot(TicksOf(t), i, j)
    ensures t.states[i].c <= t.states[j].c && t.states[j].r <= 1
    ensures t.states[i].T() + Sweeps(TicksOf(t), i, j) <= t.states[j].T()
  {
    RunTicks(t);
    ClockRises(ClocksOf(t), TicksOf(t), i, j);
    RolloverIsABit(ClocksOf(t), TicksOf(t), j);
  }

  // ---- catching up -----------------------------------------------------------------------

  /** After n visits to subevent 0 in one boot, the last of which may still wait to be folded, the counter
      itself has grown by at least n - 1. */
  lemma SweepsCatchUp(ks: seq<Clock>, ts: seq<Tick>, i: nat, j: nat)
    requires Ticking(ks, ts) && i <= j <= |ts| && OneBoot(ts, i, j)
    ensures ks[i].c + Sweeps(ts, i, j) <= ks[j].c + 1
  {
    ClockRises(ks, ts, i, j);
    RolloverIsABit(ks, ts, j);
  }

  // ---- messages of one subevent ----------------------------------------------------------

  /** After a visit to a subevent, T has risen by the time it is due again. */
  lemma {:induction false} RisenWhenDue(ks: seq<Clock>, ts: seq<Tick>, subevents: nat, p: nat, i: nat, k: nat)
    requires p <= i < k <= |ts| && ts[i].Tour? && OneBoot(ts, i, k)
    requires Ticking(ks, ts) && Cyclic(ts, subevents, p, k)
    ensures var due := Due(ts, subevents, p, k);
      due.Some? && (due.value == 0 || ts[i].sub < due.value || ks[i + 1].T() < ks[k].T())
  {
    if k > i + 1 {
      RisenWhenDue(ks, ts, subevents, p, i, k - 1);
      ClockRises(ks, ts, i + 1, k - 1);
      assert Allowed(ks[k - 1], ts[k - 1]) && ks[k] == Advance(ks[k - 1], ts[k - 1]);
      assert VisitsDue(ts, subevents, p, k - 1);
    }
  }

  /** When subevents are visited in turn, the counters of one subevent's messages strictly increase. */
  lemma VisitsRise(ks: seq<Clock>, ts: seq<Tick>, subevents: nat, p: nat, i: nat, j: nat)
    requires p <= i < j < |ts| && ts[i].Tour? && ts[j] == ts[i] && OneBoot(ts, i, j)
    requires Ticking(ks, ts) && Cyclic(ts, subevents, p, j + 1)
    ensures ks[i + 1].T() < ks[j + 1].T()
  {
    RisenWhenDue(ks, ts, subevents, p, i, j);
    assert VisitsDue(ts, subevents, p, i) && VisitsDue(ts, subevents, p, j);
    ClockRises(ks, ts, i + 1, j);
    assert Allowed(ks[j], ts[j]) && ks[j + 1] == Advance(ks[j], ts[j]);
  }
}
