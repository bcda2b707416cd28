// End to end: a scanner that believes it is registered is registered.
module Confirmation {
  import opened Words
  import opened Protocol
  import opened AdvertiserModel
  import opened SlotHistory
  import opened ScannerModel
  import opened ScannerInvariant
  import opened SystemModel
  import opened SystemInvariant
  import opened SystemHistory
  import opened Handshakes

  /** Step k confirmed scanner id's reservation, and it has kept waiting with the same slot selected from
      then to state i. */
  ghost predicate HeardAt(y: SysRun, id: u16, k: nat, i: nat)
    requires i <= |y.events|
  {
    && k < i && Hears(y, id, k)
    && (forall m :: k <= m <= i ==>
      id in y.states[m].scn && Confirming(y.states[m].scn[id]) && y.states[m].scn[id].sel == y.states[k].scn[id].sel)
  }

  lemma AwaitedAt(y: SysRun, id: u16, i: nat)
    requires i < |y.events| && id in y.states[i + 1].scn && Awaited(y.states[i + 1].scn[id])
    ensures id in y.states[i].scn && Confirming(y.states[i].scn[id]) && Confirming(y.states[i + 1].scn[id])
    ensures y.states[i + 1].scn[id].sel == y.states[i].scn[id].sel
    ensures Awaited(y.states[i].scn[id]) || Hears(y, id, i)
  {
    AlwaysFormed(y, i);
    AlwaysFormed(y, i + 1);
    assert y.Moves(i);
    var e := y.events[i];
    if e.Scanner? && e.id == id {
      NoFaultStep(y.cfg, id, y.states[i].scn[id], e.step);
    }
  }

  lemma {:induction false} AwaitedWasHeard(y: SysRun, id: u16, i: nat) returns (k: nat)
    requires i <= |y.events| && id in y.states[i].scn && Awaited(y.states[i].scn[id])
    ensures HeardAt(y, id, k, i)
  {
    AwaitedAt(y, id, i - 1);
    if Hears(y, id, i - 1) {
      k := i - 1;
    } else {
      k := AwaitedWasHeard(y, id, i - 1);
    }
  }

  lemma LeavingWasAwaited(y: SysRun, id: u16, i: nat)
    requires i < |y.events| && id in y.states[i].scn && id in y.states[i + 1].scn
    requires y.states[i].scn[id].st == CONFIRMING && y.states[i + 1].scn[id].st == SLEEPING
    ensures Awaited(y.states[i].scn[id])
  {
    AlwaysFormed(y, i);
    AlwaysFormed(y, i + 1);
    assert y.Moves(i);
    GeneratorStart(y.cfg, id, y.states[i].scn[id], y.events[i].step);
  }

  /** A message that acks a scanner was built by a visit to its subevent, which acked the scanner. */
  lemma HeardWasBuilt(y: SysRun, id: u16, k: nat) returns (j: nat)
    requires TakesAck(y, id, k)
    ensures j < k && Builds(y, j, y.events[k].n)
    ensures var l := SlotHeard(y, id, k);
      InGrid(y.cfg, l) && AcksAt(y, id, l, j)
  {
    AlwaysFormed(y, k);
    AirGrows(y, 0, k);
    assert y.Moves(k);
    j := Builder(y, k, y.events[k].n);
    BuiltShape(y, j, y.events[k].n);
  }

  /** Only a response that a scanner signed can be credited to a slot. */
  lemma CreditWasTaken(y: SysRun, id: u16, l: Loc, m: nat)
    requires m < |y.events| && BeatOf(y.states[m].adv, y.AdvEvents()[m], l) == Credited(id)
    ensures TakenAt(y, id, l, m)
  {
    assert y.Moves(m);
  }

  lemma AckedOwns(y: SysRun, id: u16, l: Loc, j: nat)
    requires j < |y.events| && InGrid(y.cfg, l) && id != 0 && AcksAt(y, id, l, j)
    ensures At(y.states[j].adv, l).dev == id && At(y.states[j + 1].adv, l).dev == id
    ensures Responded(History(AdvRun(y), l), j, id)
  {
    AckLedger(AdvRun(y), j, l, id);
  }

  /** Whoever is acked owned the slot, and a response of its was accepted there since the last visit. */
  lemma AckedWasTaken(y: SysRun, id: u16, l: Loc, j: nat) returns (m: nat)
    requires j < |y.events| && InGrid(y.cfg, l) && id != 0 && AcksAt(y, id, l, j)
    ensures m < j && TakenAt(y, id, l, m) && OwnsAcross(y, id, l, m, j)
  {
    var t := AdvRun(y);
    AckedOwns(y, id, l, j);
    var h := History(t, l);
    m :| 0 <= m < j && h[m] == Credited(id) && forall k :: m < k < j ==> !h[k].Visited? && !h[k].Cleared?;
    CreditWasTaken(y, id, l, m);
    forall k | m < k < j
      ensures y.AdvEvents()[k] != Visit(l.sub) && y.AdvEvents()[k] != Reboot
    {
      assert h[k] == BeatOf(t.states[k], t.events[k], l);
    }
  }

  /** What the advertiser accepts from a device, that device has sent, in that very slot. */
  lemma TakenWasSent(y: SysRun, id: u16, l: Loc, m: nat) returns (s: nat)
    requires TakenAt(y, id, l, m)
    ensures s < m && SentAt(y, id, l, s) && y.AdvEvents()[m].counter == SentCounter(y, id, s)
  {
    assert y.Moves(m);
    var n := y.events[m].n;
    s := Transmitter(y, m, n);
    TransmittedShape(y, s, n);
  }

  /** Confirmation soundness. When a scanner goes from CONFIRMING to SLEEPING, then, in this order: it
      sent a response in slot l; the advertiser accepted that response there, so that the scanner owned l;
      at its next visit to that subevent the advertiser built a message while the scanner still owned l;
      and the scanner took that message, with l's number selected until now. */
  lemma ConfirmationIsSound(y: SysRun, id: u16, i: nat)
      returns (l: Loc, sent: nat, taken: nat, built: nat, heard: nat)
    requires i < |y.events| && id in y.states[i].scn && id in y.states[i + 1].scn
    requires y.states[i].scn[id].st == CONFIRMING && y.states[i + 1].scn[id].st == SLEEPING
    ensures sent < taken < built < heard < i
    ensures SentAt(y, id, l, sent)
    ensures TakenAt(y, id, l, taken) && y.AdvEvents()[taken].counter == SentCounter(y, id, sent)
    ensures OwnsAcross(y, id, l, taken, built)
    ensures Hears(y, id, heard) && Builds(y, built, y.events[heard].n)
    ensures l == Loc(y.events[heard].step.sub, y.states[i].scn[id].sel.slot)
    // on a network that keeps messages on their subevent, l is the selected slot
    ensures y.events[heard].step.sub == y.states[heard].scn[id].sel.sub ==> l == y.states[i].scn[id].sel
  {
    AlwaysFormed(y, i);
    LeavingWasAwaited(y, id, i);
    heard := AwaitedWasHeard(y, id, i);
    l := SlotHeard(y, id, heard);
    built := HeardWasBuilt(y, id, heard);
    taken := AckedWasTaken(y, id, l, built);
    sent := TakenWasSent(y, id, l, taken);
  }
}
