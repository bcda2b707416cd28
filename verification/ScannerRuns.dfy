// What holds of a scanner over a whole run, from power-up to its next reboot.
module ScannerRuns {
  import opened Words
  import opened Protocol
  import opened ScannerModel
  import opened ScannerInvariant
  import opened ScannerHistory

  lemma {:induction false} AlwaysDisciplined(t: ScnRun, i: nat)
    requires i <= |t.events|
    ensures WFS(t.cfg, t.states[i]) && Disciplined(t.id, t.states[i])
  {
    if i > 0 {
      AlwaysDisciplined(t, i - 1);
      assert t.Moves(i - 1);
      DisciplineHolds(t.cfg, t.id, t.states[i - 1], t.events[i - 1]);
    }
  }

  // ---- run discipline --------------------------------------------------------------------

  lemma GeneratorStartAt(t: ScnRun, i: nat)
    requires i < |t.events| && !t.states[i].gen && t.states[i + 1].gen
    ensures t.states[i].st == CONFIRMING && t.states[i].evtSem && t.states[i].fault == NoFault
  {
    AlwaysDisciplined(t, i);
    assert t.Moves(i);
    GeneratorStart(t.cfg, t.id, t.states[i], t.events[i]);
  }

  /** At every moment the generator runs iff the state is SLEEPING or ENABLED, REGISTERING is never
      reached, and whoever is SLEEPING or ENABLED has completed a confirmation since it last synced. */
  lemma {:induction false} RunDiscipline(t: ScnRun, i: nat)
    requires i <= |t.events|
    ensures t.states[i].gen <==> t.states[i].st == SLEEPING || t.states[i].st == ENABLED
    ensures t.states[i].st != REGISTERING
    ensures t.states[i].gen ==> exists j :: ConfirmedSince(t, j, i)
  {
    AlwaysDisciplined(t, i);
    if i > 0 && t.states[i].gen {
      RunDiscipline(t, i - 1);
      if t.states[i - 1].gen {
        var j :| ConfirmedSince(t, j, i - 1);
        assert ConfirmedSince(t, j, i);
      } else {
        GeneratorStartAt(t, i - 1);
        assert ConfirmedSince(t, i - 1, i);
      }
    }
  }

  // ---- confirmation ----------------------------------------------------------------------

  lemma NoFaultAt(t: ScnRun, i: nat)
    requires i < |t.events|
    requires t.states[i + 1].st == CONFIRMING && t.states[i + 1].evtSem && t.states[i + 1].fault == NoFault
    ensures Confirming(t.states[i]) && Confirming(t.states[i + 1]) && t.states[i + 1].sel == t.states[i].sel
    ensures (t.states[i].evtSem && t.states[i].fault == NoFault) || Confirms(t.id, t.states[i], t.events[i])
  {
    AlwaysDisciplined(t, i);
    assert t.Moves(i);
    NoFaultStep(t.cfg, t.id, t.states[i], t.events[i]);
  }

  /** A pending NoFault event in CONFIRMING always comes from a reception in the same wait that acked
      this scanner in the slot it still has selected. */
  lemma {:induction false} NoFaultMeansConfirmed(t: ScnRun, i: nat)
    requires i <= |t.events|
    requires t.states[i].st == CONFIRMING && t.states[i].evtSem && t.states[i].fault == NoFault
    ensures exists k :: ConfirmedBy(t, k, i)
  {
    AlwaysDisciplined(t, i);
    if i > 0 {
      NoFaultAt(t, i - 1);
      if Confirms(t.id, t.states[i - 1], t.events[i - 1]) {
        assert ConfirmedBy(t, i - 1, i);
      } else {
        NoFaultMeansConfirmed(t, i - 1);
        var k :| ConfirmedBy(t, k, i - 1);
        assert ConfirmedBy(t, k, i);
      }
    }
  }

  // ---- freshness -------------------------------------------------------------------------

  lemma CounterAt(t: ScnRun, i: nat)
    requires i < |t.events|
    ensures t.states[i].counter <= t.states[i + 1].counter
    ensures AnswerAt(t, i).Some? ==>
      && t.events[i].Receive? && t.events[i].rx.Signed? && AnswerAt(t, i).value.counter == t.events[i].rx.counter
      && t.states[i].counter <= AnswerAt(t, i).value.counter < t.states[i + 1].counter
  {
    assert t.Moves(i);
    CounterStep(t.cfg, t.id, t.states[i], t.events[i]);
    if AnswerAt(t, i).Some? {
      AnswerStep(t.cfg, t.id, t.states[i], t.events[i]);
    }
  }

  lemma {:induction false} CounterRises(t: ScnRun, i: nat, j: nat)
    requires i <= j <= |t.events|
    ensures t.states[i].counter <= t.states[j].counter
  {
    if i < j {
      CounterRises(t, i, j - 1);
      CounterAt(t, j - 1);
    }
  }

  /** A response carries the counter of the very message it answers, its counters strictly increase from
      one response to the next, and whatever the scanner verifies later carries a larger one. */
  lemma ResponsesAreFresh(t: ScnRun, i: nat, j: nat)
    requires i < j < |t.events| && AnswerAt(t, i).Some?
    ensures t.events[i].Receive? && t.events[i].rx.Signed? && AnswerAt(t, i).value.counter == t.events[i].rx.counter
    ensures AnswerAt(t, j).Some? ==> AnswerAt(t, i).value.counter < AnswerAt(t, j).value.counter
    ensures t.events[j].Receive? && Verifies(t.states[j], t.events[j].rx) ==>
      AnswerAt(t, i).value.counter < t.events[j].rx.counter
  {
    CounterAt(t, i);
    CounterAt(t, j);
    CounterRises(t, i + 1, j);
  }
}
