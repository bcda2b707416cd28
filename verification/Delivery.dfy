// End to end, after the confirmation: a response that counts as delivered was accepted; and before it: a scanner
// sets out only for slots that are on offer.
module Delivery {
  import opened Words
  import opened Protocol
  import opened ScannerModel
  import opened ScannerInvariant
  import opened ScannerCauses
  import opened ScannerOutcomes
  import opened SystemModel
  import opened SystemInvariant
  import opened SystemHistory
  import opened Handshakes
  import opened Confirmation

  // ---- delivery --------------------------------------------------------------------------

  /** The ack event waits to be consumed. */
  predicate AckPending(s: Scn) {
    s.st == ENABLED && s.evtSem && s.fault == GotAck
  }

  /** In step k scanner id received its ack, and it has stayed in ENABLED with the same slot selected from then
      to state i. */
  ghost predicate AckedAt(y: SysRun, id: u16, k: nat, i: nat)
    requires i <= |y.events|
  {
    && k < i && TakesAck(y, id, k)
    && (forall m :: k <= m <= i ==>
      id in y.states[m].scn && y.states[m].scn[id].st == ENABLED
      && y.states[m].scn[id].sel == y.states[k].scn[id].sel)
  }

  lemma AckPendingAt(y: SysRun, id: u16, i: nat)
    requires i < |y.events| && id in y.states[i + 1].scn && AckPending(y.states[i + 1].scn[id])
    ensures id in y.states[i].scn && y.states[i].scn[id].st == ENABLED
    ensures y.states[i + 1].scn[id].sel == y.states[i].scn[id].sel
    ensures AckPending(y.states[i].scn[id]) || TakesAck(y, id, i)
  {
    AlwaysFormed(y, i);
    AlwaysFormed(y, i + 1);
    assert y.Moves(i);
    var e := y.events[i];
    if e.Scanner? && e.id == id {
      GotAckStep(y.cfg, id, y.states[i].scn[id], e.step);
    }
  }

  lemma {:induction false} PendingWasAcked(y: SysRun, id: u16, i: nat) returns (k: nat)
    requires i <= |y.events| && id in y.states[i].scn && AckPending(y.states[i].scn[id])
    ensures AckedAt(y, id, k, i)
  {
    AckPendingAt(y, id, i - 1);
    if TakesAck(y, id, i - 1) {
      k := i - 1;
    } else {
      k := PendingWasAcked(y, id, i - 1);
    }
  }

  lemma LeavingWasPending(y: SysRun, id: u16, i: nat)
    requires i < |y.events| && id in y.states[i].scn && id in y.states[i + 1].scn
    requires y.states[i].scn[id].st == ENABLED && y.states[i + 1].scn[id].st == SLEEPING
    ensures AckPending(y.states[i].scn[id])
  {
    AlwaysFormed(y, i);
    assert y.Moves(i);
    LeavingEnabled(y.cfg, id, y.states[i].scn[id], y.events[i].step);
  }

  /** Delivery soundness. When a scanner goes from ENABLED to SLEEPING, then, in this order: it sent a response in
      slot l; the advertiser accepted that response there, so that the scanner owned l; at its next visit to that
      subevent the advertiser built a message while the scanner still owned l; and the scanner took that
      message, with l's number selected until now. */
  lemma DeliveryIsSound(y: SysRun, id: u16, i: nat)
      returns (l: Loc, sent: nat, taken: nat, built: nat, heard: nat)
    requires i < |y.events| && id in y.states[i].scn && id in y.states[i + 1].scn
    requires y.states[i].scn[id].st == ENABLED && y.states[i + 1].scn[id].st == SLEEPING
    ensures sent < taken < built < heard < i
    ensures SentAt(y, id, l, sent)
    ensures TakenAt(y, id, l, taken) && y.AdvEvents()[taken].counter == SentCounter(y, id, sent)
    ensures OwnsAcross(y, id, l, taken, built)
    ensures TakesAck(y, id, heard) && Builds(y, built, y.events[heard].n)
    ensures l == Loc(y.events[heard].step.sub, y.states[i].scn[id].sel.slot)
    // on a network that keeps messages on their subevent, l is the selected slot
    ensures y.events[heard].step.sub == y.states[heard].scn[id].sel.sub ==> l == y.states[i].scn[id].sel
  {
    AlwaysFormed(y, i);
    LeavingWasPending(y, id, i);
    heard := PendingWasAcked(y, id, i);
    l := SlotHeard(y, id, heard);
    built := HeardWasBuilt(y, id, heard);
    taken := AckedWasTaken(y, id, l, built);
    sent := TakenWasSent(y, id, l, taken);
  }

  // ---- setting out -----------------------------------------------------------------------

  /** In step h, while it scanned, scanner id heard an acceptable report, created a sync and stopped scanning; from
      then to state i it has waited to go on. If the report was an advertisement, it is on the air, and the
      selected slot is one that it offers. */
  ghost predicate SetOutBy(y: SysRun, id: u16, h: nat, i: nat)
    requires i <= |y.events|
  {
    && h < i && y.events[h].Scanner? && y.events[h].id == id && id in y.states[h].scn && id in y.states[i].scn
    && var e := y.events[h].step;
    && e.Hear? && e.created && e.stopped
    && y.states[h].scn[id].scanning && Acceptable(y.states[h].scn[id], e.report)
    && (forall m :: h <= m <= i ==>
      id in y.states[m].scn && y.states[m].scn[id].st == SYNCING && y.states[m].scn[id].phase == Wait)
    && (e.report.Bare? ==> y.states[i].scn[id].sel == y.states[h].scn[id].sel)
    && (e.report.Ad? ==>
      && y.events[h].n < |y.states[h].air|
      && y.states[h].air[y.events[h].n] == Advert(e.report.reg, e.report.counter)
      && y.states[i].scn[id].sel in e.report.reg)
  }

  lemma SetOutAt(y: SysRun, id: u16, i: nat)
    requires i < |y.events| && id in y.states[i + 1].scn && y.states[i + 1].scn[id].syncSem
    ensures id in y.states[i].scn && y.states[i].scn[id].st == SYNCING && y.states[i].scn[id].phase == Wait
    ensures y.states[i + 1].scn[id].st == SYNCING && y.states[i + 1].scn[id].phase == Wait
    ensures y.states[i].scn[id].syncSem ==> y.states[i + 1].scn[id].sel == y.states[i].scn[id].sel
    ensures !y.states[i].scn[id].syncSem ==> SetOutBy(y, id, i, i + 1)
  {
    AlwaysFormed(y, i);
    AlwaysFormed(y, i + 1);
    assert y.Moves(i);
    var e := y.events[i];
    if e.Scanner? && e.id == id {
      SyncStep(y.cfg, id, y.states[i].scn[id], e.step);
    }
  }

  lemma {:induction false} SyncWasHeard(y: SysRun, id: u16, i: nat) returns (h: nat)
    requires i <= |y.events| && id in y.states[i].scn && y.states[i].scn[id].syncSem
    ensures SetOutBy(y, id, h, i)
  {
    SetOutAt(y, id, i - 1);
    if y.states[i - 1].scn[id].syncSem {
      h := SyncWasHeard(y, id, i - 1);
    } else {
      h := i - 1;
    }
  }

  /** A scanner that goes from SYNCING to CONFIRMING has, since it began to scan, heard a report without data to
      check or an advertisement of the advertiser, and in the second case looks for a slot it offers. */
  lemma ConfirmingWasOffered(y: SysRun, id: u16, i: nat) returns (h: nat)
    requires i < |y.events| && id in y.states[i].scn && id in y.states[i + 1].scn
    requires y.states[i].scn[id].st == SYNCING && y.states[i + 1].scn[id].st == CONFIRMING
    ensures SetOutBy(y, id, h, i)
  {
    AlwaysFormed(y, i);
    assert y.Moves(i);
    h := SyncWasHeard(y, id, i);
  }
}
