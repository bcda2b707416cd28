// The four moments of a registration.
module Handshakes {
  import opened Words
  import opened Protocol
  import opened AdvertiserModel
  import opened ScannerModel
  import opened ScannerInvariant
  import opened SystemModel

  /** The confirmation event waits to be consumed. */
  predicate Awaited(s: Scn) {
    s.st == CONFIRMING && s.evtSem && s.fault == NoFault
  }

  /** Scanner id signs a response in slot l. */
  ghost predicate SentAt(y: SysRun, id: u16, l: Loc, s: nat) {
    && s < |y.events| && y.events[s].Scanner? && y.events[s].id == id && id in y.states[s].scn
    && Answer(y.cfg, id, y.states[s].scn[id], y.events[s].step).Some?
    && Answer(y.cfg, id, y.states[s].scn[id], y.events[s].step).value.loc == l
    && Answer(y.cfg, id, y.states[s].scn[id], y.events[s].step).value.sender == id
  }

  ghost function SentCounter(y: SysRun, id: u16, s: nat): nat
    requires s < |y.events| && y.events[s].Scanner? && id in y.states[s].scn
    requires Answer(y.cfg, id, y.states[s].scn[id], y.events[s].step).Some?
  {
    Answer(y.cfg, id, y.states[s].scn[id], y.events[s].step).value.counter
  }

  /** The advertiser accepts a response of device id in slot l, which that device owns or thereby gets. */
  ghost predicate TakenAt(y: SysRun, id: u16, l: Loc, m: nat) {
    && m < |y.events| && y.events[m].Arrives?
    && var a, e := y.states[m].adv, y.AdvEvents()[m];
    && e.Response? && e.loc == l && e.sender == id && Accepted(a, e)
    && (At(a, l).dev == 0 || At(a, l).dev == id)
  }

  /** At step j, the first visit to l's subevent after step m, device id owns slot l and keeps it. */
  ghost predicate OwnsAcross(y: SysRun, id: u16, l: Loc, m: nat, j: nat) {
    && j < |y.events| && y.AdvEvents()[j] == Visit(l.sub)
    && At(y.states[j].adv, l).dev == id && At(y.states[j + 1].adv, l).dev == id
    && (forall k :: m < k < j ==> y.AdvEvents()[k] != Visit(l.sub) && y.AdvEvents()[k] != Reboot)
  }

  /** The message built at step j acks device id in slot l. */
  ghost predicate AcksAt(y: SysRun, id: u16, l: Loc, j: nat) {
    && j < |y.events| && y.AdvEvents()[j] == Visit(l.sub)
    && WF(y.cfg, y.states[j].adv) && InRange(y.cfg, Visit(l.sub))
    && var sent := Emits(y.cfg, y.states[j].adv, Visit(l.sub));
    && |sent| > 0 && sent[|sent| - 1].Data? && l.slot < |sent[|sent| - 1].acks|
    && sent[|sent| - 1].acks[l.slot] == id
  }

  /** Scanner id takes a message that acks it in its slot. */
  ghost predicate TakesAck(y: SysRun, id: u16, k: nat) {
    && k < |y.events| && y.events[k].Scanner? && y.events[k].id == id && id in y.states[k].scn
    && y.events[k].step.Receive? && Verifies(y.states[k].scn[id], y.events[k].step.rx)
    && Acked(id, y.states[k].scn[id], y.events[k].step.rx)
  }

  /** Scanner id takes the message that confirms its reservation. */
  ghost predicate Hears(y: SysRun, id: u16, k: nat) {
    && k < |y.events| && y.events[k].Scanner? && y.events[k].id == id && id in y.states[k].scn
    && Confirms(id, y.states[k].scn[id], y.events[k].step)
  }

  ghost function SlotHeard(y: SysRun, id: u16, k: nat): Loc
    requires TakesAck(y, id, k)
  {
    Loc(y.events[k].step.sub, y.states[k].scn[id].sel.slot)
  }
}
