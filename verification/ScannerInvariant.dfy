// What every step of a scanner keeps, whatever the network and the host do.
module ScannerInvariant {
  import opened Words
  import opened Protocol
  import opened ScannerModel

  /** The scanner has not yet begun to listen for its confirmation. */
  predicate BeforeConfirm(s: Scn) {
    s.st == INITIALIZE || s.st == SYNCING || (s.st == CONFIRMING && s.phase != Wait)
  }

  predicate Disciplined(id: u16, s: Scn) {
    // the data generator runs exactly in SLEEPING and ENABLED, and nothing enters REGISTERING
    && (s.gen <==> s.st == SLEEPING || s.st == ENABLED)
    && s.st != REGISTERING
    && (s.phase == Nap ==> s.st == CONFIRMING)
    // scanning stops before the FSM is told that it may go on
    && (s.scanning ==> s.st == SYNCING && s.phase == Wait && !s.syncSem)
    && (s.syncSem ==> s.st == SYNCING && s.phase == Wait)
    // no confirmation can be pending from an earlier visit
    && (BeforeConfirm(s) ==> s.recv != ConfirmRecv && !(s.evtSem && s.fault == NoFault))
    && (s.st == ENABLED ==> s.recv != ConfirmRecv)
    // ENABLED always has something of this scanner's to send
    && (s.fault == DataGenerated || s.st == ENABLED || s.recv == AckRecv ==> s.pending.sender == id)
  }

  lemma ReceptionDisciplined(cfg: Cfg, id: u16, s: Scn, e: ScnEvent)
    requires WFS(cfg, s) && Possible(cfg, s, e) && Disciplined(id, s) && e.Receive?
    ensures Disciplined(id, ScnStep(cfg, id, s, e))
  {
  }

  lemma StateFunctionDisciplined(cfg: Cfg, id: u16, s: Scn, e: ScnEvent)
    requires WFS(cfg, s) && Possible(cfg, s, e) && Disciplined(id, s) && e.Run?
    ensures Disciplined(id, ScnStep(cfg, id, s, e))
  {
  }

  lemma DisciplineHolds(cfg: Cfg, id: u16, s: Scn, e: ScnEvent)
    requires WFS(cfg, s) && Possible(cfg, s, e) && Disciplined(id, s)
    ensures Disciplined(id, ScnStep(cfg, id, s, e))
  {
    if e.Receive? {
      ReceptionDisciplined(cfg, id, s, e);
    } else if e.Run? {
      StateFunctionDisciplined(cfg, id, s, e);
    }
  }

  /** The scanner's counter never goes back, and moves only to the counter of a message that verified or
      to one above it. */
  lemma CounterStep(cfg: Cfg, id: u16, s: Scn, e: ScnEvent)
    requires WFS(cfg, s) && Possible(cfg, s, e)
    ensures var u := ScnStep(cfg, id, s, e);
      || u.counter == s.counter
      || (e.Receive? && Verifies(s, e.rx) && e.rx.counter <= u.counter <= e.rx.counter + 1)
      || (e.Hear? && e.report.Ad? && s.counter <= e.report.counter && u.counter == e.report.counter)
  {
    match e
    case Receive(_, rx) =>
      ReceiveCounter(cfg, id, s, rx);
    case Hear(_, _, _, _) =>
    case Run(_) =>
      StateFunctionFrame(cfg, id, s, e);
    case _ =>
  }

  lemma ReceiveCounter(cfg: Cfg, id: u16, s: Scn, rx: Reception)
    ensures forall u :: u == ConfirmReceive(cfg, id, s, rx) || u == AckReceive(cfg, id, s, rx) ==>
      u.counter == s.counter || (Verifies(s, rx) && rx.counter <= u.counter <= rx.counter + 1)
  {
  }

  /** State functions leave the counter alone, and after start-up the selected slot. */
  lemma StateFunctionFrame(cfg: Cfg, id: u16, s: Scn, e: ScnEvent)
    requires WFS(cfg, s) && Possible(cfg, s, e) && e.Run?
    ensures var u := ScnStep(cfg, id, s, e);
      u.counter == s.counter && (s.st != INITIALIZE ==> u.sel == s.sel && u.st != INITIALIZE)
  {
  }

  /** A step that answers leaves the scanner's counter above the answer, which echoes the message. */
  lemma AnswerStep(cfg: Cfg, id: u16, s: Scn, e: ScnEvent)
    requires WFS(cfg, s) && Possible(cfg, s, e) && Answer(cfg, id, s, e).Some?
    ensures e.Receive? && e.rx.Signed? && Answer(cfg, id, s, e).value.counter == e.rx.counter
    ensures s.counter <= e.rx.counter < ScnStep(cfg, id, s, e).counter
  {
  }

  /** The generator starts only with a pending NoFault event in CONFIRMING. */
  lemma GeneratorStart(cfg: Cfg, id: u16, s: Scn, e: ScnEvent)
    requires WFS(cfg, s) && Possible(cfg, s, e) && Disciplined(id, s)
    ensures !s.gen && ScnStep(cfg, id, s, e).gen ==> s.st == CONFIRMING && s.evtSem && s.fault == NoFault
  {
  }

  /** This reception confirms the reservation. */
  predicate Confirms(id: u16, s: Scn, e: ScnEvent) {
    e.Receive? && s.recv == ConfirmRecv && Verifies(s, e.rx) && Acked(id, s, e.rx)
  }

  /** The scanner waits for its confirmation. */
  predicate Confirming(s: Scn) {
    s.st == CONFIRMING && s.phase == Wait
  }

  /** A pending NoFault event was pending before, or this step is the confirming reception; either way
      the selected slot stays the same. */
  lemma NoFaultStep(cfg: Cfg, id: u16, s: Scn, e: ScnEvent)
    requires WFS(cfg, s) && Possible(cfg, s, e) && Disciplined(id, s)
    ensures var u := ScnStep(cfg, id, s, e);
      u.st == CONFIRMING && u.evtSem && u.fault == NoFault ==>
        && Confirming(s) && Confirming(u) && u.sel == s.sel
        && ((s.evtSem && s.fault == NoFault) || Confirms(id, s, e))
  {
  }
}
