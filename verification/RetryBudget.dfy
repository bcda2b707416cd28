// How often a scanner retries before it gives up.
module RetryBudget {
  import opened Words
  import opened Protocol
  import opened ScannerModel
  import opened ScannerInvariant
  import opened ScannerHistory
  import opened ScannerRuns

  /** Handling a message uses up one tick or ends the wait; nothing else in a visit touches the ticks. */
  lemma TickStep(cfg: Cfg, id: u16, s: Scn, e: ScnEvent)
    requires WFS(cfg, s) && Possible(cfg, s, e) && s.phase != Entry && (s.st == CONFIRMING || s.st == ENABLED)
    requires Disciplined(id, s) && s.ticks <= cfg.maxTicks
    requires e.Receive? ==> !s.evtSem && s.ticks < cfg.maxTicks
    ensures var u, handled := ScnStep(cfg, id, s, e), e.Receive? && s.recv != NoRecv;
      u.st == s.st && u.phase != Entry ==>
        && (s.evtSem ==> u.evtSem)
        && s.ticks <= u.ticks <= cfg.maxTicks
        && (u.ticks == cfg.maxTicks && s.ticks < cfg.maxTicks ==> u.evtSem)
        && (handled && !u.evtSem ==> u.ticks == s.ticks + 1)
        && (Answer(cfg, id, s, e).Some? ==> handled && u.ticks == s.ticks + 1)
        && (Answer(cfg, id, s, e).Some? && s.st == ENABLED ==> u.ticks < cfg.maxTicks)
  {
  }

  /** In one attentive visit at most CONFIG_MAX_UNCONFIRMED_TICKS messages are handled before the state
      function is woken: each uses a tick until then. CONFIRMING answers at most that many times, and
      ENABLED one time less, because the last tick gives up instead of answering. */
  lemma {:induction false} RetriesAreBounded(t: ScnRun, st: State, a: nat, b: nat)
    requires a <= b <= |t.events| && OneVisit(t, st, a, b) && Attentive(t, a, b)
    requires st == CONFIRMING || st == ENABLED
    ensures Handled(t, a, b) <= t.cfg.maxTicks
    ensures Handled(t, a, b) == t.cfg.maxTicks ==> t.states[b].evtSem
    ensures !t.states[b].evtSem ==> t.states[b].ticks == Handled(t, a, b)
    ensures Answered(t, a, b) <= t.states[b].ticks <= t.cfg.maxTicks
    ensures t.states[b].ticks == t.cfg.maxTicks ==> t.states[b].evtSem
    ensures st == ENABLED ==> Answered(t, a, b) <= t.cfg.maxTicks - 1
  {
    AlwaysDisciplined(t, b);
    if a < b {
      RetriesAreBounded(t, st, a, b - 1);
      AlwaysDisciplined(t, b - 1);
      assert t.Moves(b - 1);
      TickStep(t.cfg, t.id, t.states[b - 1], t.events[b - 1]);
    }
  }
}
