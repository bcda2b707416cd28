// Where a scanner goes, and what that says about its past.
module ScannerOutcomes {
  import opened Words
  import opened Protocol
  import opened ScannerModel
  import opened ScannerInvariant
  import opened ScannerHistory
  import opened ScannerRuns
  import opened RetryBudget
  import opened ScannerCauses

  // ---- transitions -----------------------------------------------------------------------

  /** The fault code of a cause. */
  function CodeOf(cause: Cause): Fault {
    match cause
    case Nothing => NoFault
    case Unverified => InvalidHash
    case Confirmed => NoFault
    case Delivered => GotAck
    case GaveUp(confirming) => if confirming then ConfirmationFailed else DidntReceiveAck
    case Ended(deleted) => if deleted then SyncDeleted else SyncTimeout
    case Produced => DataGenerated
  }

  lemma CauseOfReception(cfg: Cfg, id: u16, s: Scn, e: ScnEvent)
    requires WFS(cfg, s) && Possible(cfg, s, e) && e.Receive?
    ensures var u, c := ScnStep(cfg, id, s, e), CauseOf(cfg, id, s, e);
      && (c != Nothing ==> u.fault == CodeOf(c) && u.evtSem)
      && (c == Nothing ==> (u.evtSem ==> s.evtSem) && (u.fault == s.fault || u.st == FAULT_HANDLING))
      && (s.st == FAULT_HANDLING ==> u.st == FAULT_HANDLING)
  {
  }

  lemma CauseOfRun(cfg: Cfg, id: u16, s: Scn, e: ScnEvent)
    requires WFS(cfg, s) && Possible(cfg, s, e) && e.Run?
    ensures var u, c := ScnStep(cfg, id, s, e), CauseOf(cfg, id, s, e);
      && (c != Nothing ==> u.fault == CodeOf(c) && u.evtSem)
      && (c == Nothing ==> (u.evtSem ==> s.evtSem) && (u.fault == s.fault || u.st == FAULT_HANDLING))
      && (s.st == FAULT_HANDLING ==> u.st == FAULT_HANDLING)
  {
  }

  /** A cause leaves its code and wakes the FSM; no other step writes a code, unless the scanner has failed. */
  lemma CauseStep(cfg: Cfg, id: u16, s: Scn, e: ScnEvent)
    requires WFS(cfg, s) && Possible(cfg, s, e)
    ensures var u, c := ScnStep(cfg, id, s, e), CauseOf(cfg, id, s, e);
      && (c != Nothing ==> u.fault == CodeOf(c) && u.evtSem)
      && (c == Nothing ==> (u.evtSem ==> s.evtSem) && (u.fault == s.fault || u.st == FAULT_HANDLING))
      && (s.st == FAULT_HANDLING ==> u.st == FAULT_HANDLING)
  {
    if e.Receive? {
      CauseOfReception(cfg, id, s, e);
    } else if e.Run? {
      CauseOfRun(cfg, id, s, e);
    }
  }

  lemma {:induction false} CodeIsLastCause(t: ScnRun, i: nat)
    requires i <= |t.events|
    ensures t.states[i].evtSem ==> LastCause(t, i) != Nothing
    ensures LastCause(t, i) != Nothing && t.states[i].st != FAULT_HANDLING ==>
      t.states[i].fault == CodeOf(LastCause(t, i))
  {
    if i > 0 {
      CodeIsLastCause(t, i - 1);
      assert t.Moves(i - 1);
      CauseStep(t.cfg, t.id, t.states[i - 1], t.events[i - 1]);
    }
  }

  lemma ConfirmingTarget(s: Scn, cause: Cause)
    requires s.st == CONFIRMING && s.phase == Wait && s.fault == CodeOf(cause) && cause != Nothing
    ensures RunConfirming(s).st == Target(CONFIRMING, cause) && !RunConfirming(s).evtSem
  {
  }

  lemma SleepingTarget(s: Scn, cause: Cause)
    requires s.st == SLEEPING && s.phase == Wait && s.fault == CodeOf(cause) && cause != Nothing
    ensures RunSleeping(s).st == Target(SLEEPING, cause) && !RunSleeping(s).evtSem
  {
  }

  lemma EnabledTarget(s: Scn, cause: Cause)
    requires s.st == ENABLED && s.phase == Wait && s.fault == CodeOf(cause) && cause != Nothing
    ensures RunEnabled(s).st == Target(ENABLED, cause) && !RunEnabled(s).evtSem
  {
  }

  lemma TargetOfCode(cfg: Cfg, id: u16, s: Scn, e: ScnEvent, cause: Cause)
    requires WFS(cfg, s) && Possible(cfg, s, e) && e.Run? && s.phase == Wait && s.fault == CodeOf(cause)
    requires s.st == CONFIRMING || s.st == SLEEPING || s.st == ENABLED
    requires cause != Nothing
    ensures ScnStep(cfg, id, s, e).st == Target(s.st, cause) && !ScnStep(cfg, id, s, e).evtSem
  {
    if s.st == CONFIRMING {
      ConfirmingTarget(s, cause);
    } else if s.st == SLEEPING {
      SleepingTarget(s, cause);
    } else {
      EnabledTarget(s, cause);
    }
  }

  /** When the FSM goes on from a wait, the state it goes to is determined by the last thing that woke it. */
  lemma TransitionFollowsCause(t: ScnRun, i: nat)
    requires i < |t.events| && t.events[i].Run? && t.states[i].phase == Wait
    requires t.states[i].st == CONFIRMING || t.states[i].st == SLEEPING || t.states[i].st == ENABLED
    ensures LastCause(t, i) != Nothing
    ensures t.states[i + 1].st == Target(t.states[i].st, LastCause(t, i))
  {
    assert t.Moves(i);
    CodeIsLastCause(t, i);
    TargetOfCode(t.cfg, t.id, t.states[i], t.events[i], LastCause(t, i));
  }

  /** Until it goes on nothing but those transitions changes the state: SYNCING ends in CONFIRMING, or in
      FAULT_HANDLING if scanning does not start, and INITIALIZE in SYNCING or FAULT_HANDLING. */
  lemma OtherTransitions(cfg: Cfg, id: u16, s: Scn, e: ScnEvent)
    requires WFS(cfg, s) && Possible(cfg, s, e)
    ensures var u := ScnStep(cfg, id, s, e);
      && (!e.Run? ==> u.st == s.st && u.phase == s.phase)
      && (e.Run? && s.phase != Wait && (s.st == CONFIRMING || s.st == SLEEPING || s.st == ENABLED) ==> u.st == s.st)
      && (e.Run? && s.st == SYNCING ==>
          u.st == if s.phase == Wait then CONFIRMING else if e.ok then SYNCING else FAULT_HANDLING)
      && (e.Run? && s.st == INITIALIZE ==> u.st == if e.ok then SYNCING else FAULT_HANDLING)
  {
  }

  lemma CallbackLeftByLeg(s: Scn, ok: bool)
    requires s.phase == Wait
    ensures RunSyncing(s, ok).recv == s.recv && RunEnabled(s).recv == s.recv
    ensures s.st == CONFIRMING ==> RunConfirming(s).recv == if RunConfirming(s).st == SYNCING then NoRecv else s.recv
    ensures s.st == SLEEPING ==> RunSleeping(s).recv == if RunSleeping(s).st != SLEEPING then NoRecv else s.recv
  {
  }

  /** Which callback is left installed: none on the way from CONFIRMING back to SYNCING or out of SLEEPING, the
      old one on any other way out of a wait. */
  lemma CallbackLeft(cfg: Cfg, id: u16, s: Scn, e: ScnEvent)
    requires WFS(cfg, s) && Possible(cfg, s, e) && e.Run? && s.phase == Wait && s.st != INITIALIZE
    ensures var u := ScnStep(cfg, id, s, e);
      u.recv == if (s.st == CONFIRMING && u.st == SYNCING) || (s.st == SLEEPING && u.st != SLEEPING) then NoRecv
                else s.recv
  {
    CallbackLeftByLeg(s, e.ok);
  }

  // ---- listening -------------------------------------------------------------------------

  /** While it waits the scanner listens: for its confirmation in CONFIRMING, and in ENABLED for its ack
      until that has come. */
  predicate Listens(s: Scn) {
    && (s.st == CONFIRMING && s.phase == Wait ==> s.recv == ConfirmRecv)
    && (s.st == ENABLED && s.phase == Wait ==> s.recv == AckRecv || (s.recv == NoRecv && s.evtSem))
    && (s.st == ENABLED ==> s.phase == Entry || s.phase == Wait)
  }

  lemma ListensStep(cfg: Cfg, id: u16, s: Scn, e: ScnEvent)
    requires WFS(cfg, s) && Possible(cfg, s, e) && Disciplined(id, s) && Listens(s)
    ensures Listens(ScnStep(cfg, id, s, e))
  {
  }

  lemma {:induction false} AlwaysListens(t: ScnRun, i: nat)
    requires i <= |t.events|
    ensures Listens(t.states[i])
  {
    if i > 0 {
      AlwaysListens(t, i - 1);
      AlwaysDisciplined(t, i - 1);
      assert t.Moves(i - 1);
      ListensStep(t.cfg, t.id, t.states[i - 1], t.events[i - 1]);
    }
  }

  /** A visit to CONFIRMING or ENABLED starts with all its ticks. */
  lemma VisitStartsFresh(t: ScnRun, i: nat)
    requires i < |t.events| && t.events[i].Run? && t.states[i].phase == Entry
    requires t.states[i].st == CONFIRMING || t.states[i].st == ENABLED
    ensures OneVisit(t, t.states[i].st, i + 1, i + 1)
  {
    assert t.Moves(i);
  }

  // ---- delivery --------------------------------------------------------------------------

  /** A pending GotAck in ENABLED was pending before, or this step received the ack. */
  lemma GotAckStep(cfg: Cfg, id: u16, s: Scn, e: ScnEvent)
    requires WFS(cfg, s) && Possible(cfg, s, e) && Disciplined(id, s)
    ensures var u := ScnStep(cfg, id, s, e);
      u.st == ENABLED && u.evtSem && u.fault == GotAck ==>
        && s.st == ENABLED && u.sel == s.sel
        && ((s.evtSem && s.fault == GotAck) || CauseOf(cfg, id, s, e) == Delivered)
  {
  }

  lemma {:induction false} GotAckMeansDelivered(t: ScnRun, i: nat)
    requires i <= |t.events|
    requires t.states[i].st == ENABLED && t.states[i].evtSem && t.states[i].fault == GotAck
    ensures exists k :: DeliveredBy(t, k, i)
  {
    if i > 0 {
      AlwaysDisciplined(t, i - 1);
      assert t.Moves(i - 1);
      GotAckStep(t.cfg, t.id, t.states[i - 1], t.events[i - 1]);
      if CauseOf(t.cfg, t.id, t.states[i - 1], t.events[i - 1]) == Delivered {
        assert DeliveredBy(t, i - 1, i);
      } else {
        GotAckMeansDelivered(t, i - 1);
        var k :| DeliveredBy(t, k, i - 1);
        assert DeliveredBy(t, k, i);
      }
    }
  }

  lemma LeavingEnabled(cfg: Cfg, id: u16, s: Scn, e: ScnEvent)
    requires WFS(cfg, s) && Possible(cfg, s, e) && s.st == ENABLED && ScnStep(cfg, id, s, e).st == SLEEPING
    ensures s.evtSem && s.fault == GotAck
  {
  }

  /** Whoever goes from ENABLED to SLEEPING has received, while in ENABLED, the ack of its slot. */
  lemma SleepMeansDelivered(t: ScnRun, i: nat)
    requires i < |t.events| && t.states[i].st == ENABLED && t.states[i + 1].st == SLEEPING
    ensures exists k :: DeliveredBy(t, k, i)
  {
    assert t.Moves(i);
    LeavingEnabled(t.cfg, t.id, t.states[i], t.events[i]);
    GotAckMeansDelivered(t, i);
  }

  // ---- giving up -------------------------------------------------------------------------

  lemma ListeningStep(cfg: Cfg, id: u16, s: Scn, e: ScnEvent)
    requires WFS(cfg, s) && Possible(cfg, s, e) && Disciplined(id, s)
    ensures var u := ScnStep(cfg, id, s, e);
      u.st == ENABLED && u.recv == AckRecv ==>
        || (u.ticks == 0 && e.Run? && s.phase == Entry)
        || (&& s.st == ENABLED && s.recv == AckRecv
            && u.ticks == (if HandledInVain(id, s, e) then Inc8(s.ticks) else s.ticks)
            && (e.Receive? && Believed(s, e.rx) ==> !AcksMe(id, s, e.rx)))
  {
  }

  /** The ticks count the messages handled in vain since they were cleared, in a byte. */
  lemma {:induction false} TicksCountInVain(t: ScnRun, i: nat) returns (a: nat)
    requires i <= |t.events| && t.states[i].st == ENABLED && t.states[i].recv == AckRecv
    ensures Unanswered(t, a, i) && t.states[i].ticks == InVain(t, a, i) % 256
  {
    if i == 0 {
      assert false;
    }
    AlwaysDisciplined(t, i - 1);
    assert t.Moves(i - 1);
    ListeningStep(t.cfg, t.id, t.states[i - 1], t.events[i - 1]);
    if t.states[i].ticks == 0 && t.events[i - 1].Run? && t.states[i - 1].phase == Entry {
      a := i;
    } else {
      a := TicksCountInVain(t, i - 1);
    }
  }

  lemma GiveUpStep(cfg: Cfg, id: u16, s: Scn, e: ScnEvent)
    requires WFS(cfg, s) && Possible(cfg, s, e) && Disciplined(id, s)
    ensures var u := ScnStep(cfg, id, s, e);
      u.st == ENABLED && u.evtSem && u.fault == DidntReceiveAck ==>
        && s.st == ENABLED
        && ((s.evtSem && s.fault == DidntReceiveAck) ||
            (s.recv == AckRecv && HandledInVain(id, s, e) && Inc8(s.ticks) >= cfg.maxTicks))
  {
  }

  /** A pending DidntReceiveAck in ENABLED means that the scanner has handled at least
      CONFIG_MAX_UNCONFIRMED_TICKS messages since its ticks were cleared, and none of them acked it. */
  lemma {:induction false} GiveUpMeansTried(t: ScnRun, i: nat)
    requires i <= |t.events|
    requires t.states[i].st == ENABLED && t.states[i].evtSem && t.states[i].fault == DidntReceiveAck
    ensures exists a, k :: TriedInVain(t, a, k, i)
  {
    if i > 0 {
      AlwaysDisciplined(t, i - 1);
      assert t.Moves(i - 1);
      GiveUpStep(t.cfg, t.id, t.states[i - 1], t.events[i - 1]);
      if t.states[i - 1].evtSem && t.states[i - 1].fault == DidntReceiveAck {
        GiveUpMeansTried(t, i - 1);
        var a, k :| TriedInVain(t, a, k, i - 1);
        assert TriedInVain(t, a, k, i);
      } else {
        var a := TicksCountInVain(t, i - 1);
        assert TriedInVain(t, a, i - 1, i);
      }
    }
  }

  /** In a visit whose events are consumed in time these are exactly CONFIG_MAX_UNCONFIRMED_TICKS messages, and
      every message the visit handled is one of them. */
  lemma {:induction false} GiveUpIsExact(t: ScnRun, a: nat, b: nat)
    requires a <= b <= |t.events| && OneVisit(t, ENABLED, a, b) && Attentive(t, a, b) && !t.states[a].evtSem
    ensures !t.states[b].evtSem ==> InVain(t, a, b) == Handled(t, a, b)
    ensures t.states[b].evtSem && t.states[b].fault == DidntReceiveAck ==>
      InVain(t, a, b) == Handled(t, a, b) == t.cfg.maxTicks
  {
    if a < b {
      GiveUpIsExact(t, a, b - 1);
      RetriesAreBounded(t, ENABLED, a, b - 1);
      AlwaysDisciplined(t, b - 1);
      assert t.Moves(b - 1);
      GiveUpStep(t.cfg, t.id, t.states[b - 1], t.events[b - 1]);
      VisitStep(t.cfg, t.id, t.states[b - 1], t.events[b - 1]);
    }
  }

  lemma VisitStep(cfg: Cfg, id: u16, s: Scn, e: ScnEvent)
    requires WFS(cfg, s) && Possible(cfg, s, e) && s.st == ENABLED && s.phase != Entry
    requires ScnStep(cfg, id, s, e).st == ENABLED && ScnStep(cfg, id, s, e).phase != Entry
    requires e.Receive? ==> !s.evtSem
    ensures var u, handled := ScnStep(cfg, id, s, e), e.Receive? && s.recv != NoRecv;
      && (s.evtSem ==> u.evtSem && !handled)
      && (!u.evtSem ==> (handled <==> HandledInVain(id, s, e)))
      && (HandledInVain(id, s, e) ==> handled)
  {
  }

  // ---- finding a train -------------------------------------------------------------------

  /** A report with data that does not verify changes nothing at all. */
  lemma ForgedReportIgnored(cfg: Cfg, id: u16, s: Scn, e: ScnEvent)
    requires WFS(cfg, s) && Possible(cfg, s, e) && e.Hear? && !Acceptable(s, e.report)
    ensures ScnStep(cfg, id, s, e) == s
  {
  }

  /** The FSM is told to go on exactly by an acceptable report, with the sync created and the scan stopped. */
  lemma SyncIsGiven(cfg: Cfg, id: u16, s: Scn, e: ScnEvent)
    requires WFS(cfg, s) && Possible(cfg, s, e) && Disciplined(id, s)
    ensures var u := ScnStep(cfg, id, s, e);
      !s.syncSem && u.syncSem <==>
        e.Hear? && Acceptable(s, e.report) && e.created && e.stopped
  {
  }

  lemma SyncStep(cfg: Cfg, id: u16, s: Scn, e: ScnEvent)
    requires WFS(cfg, s) && Possible(cfg, s, e) && Disciplined(id, s)
    ensures var u := ScnStep(cfg, id, s, e);
      u.syncSem ==>
        && s.st == SYNCING && s.phase == Wait
        && (s.syncSem ==> u.sel == s.sel)
        && (!s.syncSem ==>
            && e.Hear? && Acceptable(s, e.report) && e.created && e.stopped && s.scanning
            && (e.report.Ad? ==> u.sel in e.report.reg) && (e.report.Bare? ==> u.sel == s.sel))
  {
  }

  lemma {:induction false} SyncMeansFound(t: ScnRun, i: nat)
    requires i <= |t.events| && t.states[i].syncSem
    ensures exists h :: FoundBy(t, h, i)
  {
    AlwaysDisciplined(t, i);
    if i > 0 {
      AlwaysDisciplined(t, i - 1);
      assert t.Moves(i - 1);
      SyncStep(t.cfg, t.id, t.states[i - 1], t.events[i - 1]);
      if t.states[i - 1].syncSem {
        SyncMeansFound(t, i - 1);
        var h :| FoundBy(t, h, i - 1);
        assert FoundBy(t, h, i);
      } else {
        assert FoundBy(t, i - 1, i);
      }
    }
  }

  /** Whoever goes from SYNCING to CONFIRMING has, since it began to scan, heard an acceptable report. */
  lemma ConfirmingMeansFound(t: ScnRun, i: nat)
    requires i < |t.events| && t.states[i].st == SYNCING && t.states[i + 1].st == CONFIRMING
    ensures exists h :: FoundBy(t, h, i)
  {
    assert t.Moves(i);
    SyncMeansFound(t, i);
  }

  /** Every slot on offer can be picked. */
  lemma EverySlotCanBePicked(reg: seq<Loc>, i: u8)
    requires i < |reg|
    ensures Pick(reg, i) == reg[i]
  {
    assert i % |reg| == i;
  }

  // ---- what a response says --------------------------------------------------------------

  lemma LegsKeepData(s: Scn, ok: bool)
    ensures RunSyncing(s, ok).reading == s.reading && RunSyncing(s, ok).pending == s.pending
    ensures RunConfirming(s).reading == s.reading && RunConfirming(s).pending == s.pending
  {
  }

  lemma MoreLegsKeepData(s: Scn)
    ensures RunSleeping(s).reading == s.reading && RunSleeping(s).pending == s.pending
    ensures RunEnabled(s).reading == s.reading && RunEnabled(s).pending == s.pending
  {
  }

  lemma ReceptionKeepsData(cfg: Cfg, id: u16, s: Scn, rx: Reception)
    ensures ConfirmReceive(cfg, id, s, rx).reading == s.reading && ConfirmReceive(cfg, id, s, rx).pending == s.pending
    ensures AckReceive(cfg, id, s, rx).reading == s.reading && AckReceive(cfg, id, s, rx).pending == s.pending
  {
  }

  lemma DataStep(cfg: Cfg, id: u16, s: Scn, e: ScnEvent)
    requires WFS(cfg, s) && Possible(cfg, s, e)
    ensures var u := ScnStep(cfg, id, s, e);
      && u.reading == (if e.Generated? then Inc32(s.reading) else s.reading)
      && u.pending == (if e.Generated? then Outgoing(id, u.reading, e.payload) else s.pending)
  {
    match e
    case Receive(_, rx) => ReceptionKeepsData(cfg, id, s, rx);
    case Run(ok) =>
      LegsKeepData(s, ok);
      MoreLegsKeepData(s);
    case _ =>
  }

  lemma PickStep(cfg: Cfg, id: u16, s: Scn, e: ScnEvent)
    requires WFS(cfg, s) && Possible(cfg, s, e) && (s.st == INITIALIZE ==> s.sel == Loc(0, 0))
    ensures e.Hear? && e.report.Ad? && e.report.counter >= s.counter ==>
      |e.report.reg| > 0 && ScnStep(cfg, id, s, e).sel == e.report.reg[e.pick % |e.report.reg|]
    ensures !(e.Hear? && e.report.Ad? && e.report.counter >= s.counter) ==> ScnStep(cfg, id, s, e).sel == s.sel
  {
    if e.Run? && s.st != INITIALIZE {
      StateFunctionFrame(cfg, id, s, e);
    }
  }

  lemma InitializeOnce(cfg: Cfg, id: u16, s: Scn, e: ScnEvent)
    requires WFS(cfg, s) && Possible(cfg, s, e) && Disciplined(id, s)
    ensures ScnStep(cfg, id, s, e).st == INITIALIZE ==> s.st == INITIALIZE && ScnStep(cfg, id, s, e).sel == s.sel
  {
  }

  lemma {:induction false} DataAlong(t: ScnRun, i: nat)
    requires i <= |t.events|
    ensures t.states[i].reading == Fired(t.events, i) % 0x1_0000_0000
    ensures t.states[i].pending ==
      if Fired(t.events, i) == 0 then Outgoing(0, 0, [])
      else Outgoing(t.id, t.states[i].reading, LatestPayload(t.events, i))
  {
    if i > 0 {
      DataAlong(t, i - 1);
      assert t.Moves(i - 1);
      DataStep(t.cfg, t.id, t.states[i - 1], t.events[i - 1]);
    }
  }

  lemma {:induction false} PickAlong(t: ScnRun, i: nat)
    requires i <= |t.events|
    ensures t.states[i].sel == LatestPick(t, i)
    ensures t.states[i].st == INITIALIZE ==> t.states[i].sel == Loc(0, 0)
  {
    if i > 0 {
      PickAlong(t, i - 1);
      AlwaysDisciplined(t, i - 1);
      assert t.Moves(i - 1);
      PickStep(t.cfg, t.id, t.states[i - 1], t.events[i - 1]);
      InitializeOnce(t.cfg, t.id, t.states[i - 1], t.events[i - 1]);
    }
  }

  lemma AnswerIs(cfg: Cfg, id: u16, s: Scn, e: ScnEvent)
    requires WFS(cfg, s) && Possible(cfg, s, e) && Answer(cfg, id, s, e).Some?
    ensures HandledInVain(id, s, e) && s.recv != NoRecv
    ensures Answer(cfg, id, s, e).value ==
      if s.recv == ConfirmRecv then Rsp(Loc(e.sub, s.sel.slot), id, s.reading, [], e.rx.counter)
      else Rsp(Loc(e.sub, s.sel.slot), s.pending.sender, s.pending.reading, s.pending.payload, e.rx.counter)
  {
  }

  /** A response goes to the subevent of the message it answers and the slot picked last. It carries the
      scanner's id, that message's counter, and how often the generator has fired, in 32 bits; when sent in
      ENABLED also what the generator produced last. */
  lemma ResponseSays(t: ScnRun, i: nat)
    requires i < |t.events| && AnswerAt(t, i).Some?
    ensures var r, e := AnswerAt(t, i).value, t.events[i];
      && e.Receive? && HandledInVain(t.id, t.states[i], e)
      && r.loc == Loc(e.sub, LatestPick(t, i).slot) && r.sender == t.id && r.counter == e.rx.counter
      && r.reading == Fired(t.events, i) % 0x1_0000_0000
      && (t.states[i].recv == ConfirmRecv ==> r.payload == [])
      && (t.states[i].recv == AckRecv ==> Fired(t.events, i) > 0 && r.payload == LatestPayload(t.events, i))
  {
    assert t.Moves(i);
    AlwaysDisciplined(t, i);
    DataAlong(t, i);
    PickAlong(t, i);
    AnswerIs(t.cfg, t.id, t.states[i], t.events[i]);
  }

  /** A believed message that does not ack the scanner is answered: always while confirming, and while sending
      as long as a tick is left. */
  lemma AnswersWhenItShould(cfg: Cfg, id: u16, s: Scn, e: ScnEvent)
    requires WFS(cfg, s) && Possible(cfg, s, e)
    ensures Answer(cfg, id, s, e).Some? <==>
      HandledInVain(id, s, e) && (s.recv == ConfirmRecv || (s.ticks + 1) % 256 < cfg.maxTicks)
  {
  }
}
