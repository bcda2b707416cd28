// How a scanner receives: assumptions on the order of deliveries, and what it last took.
module Reception {
  import opened Words
  import opened Protocol
  import opened AdvertiserModel
  import opened Clocks
  import opened ScannerModel
  import opened SystemModel

  /** Step k gives scanner id a message that the advertiser signed: message events[k].n. */
  ghost predicate Takes(y: SysRun, id: u16, k: nat) {
    && k < |y.events| && y.events[k].Scanner? && y.events[k].id == id
    && ((y.events[k].step.Receive? && y.events[k].step.rx.Signed?) ||
        (y.events[k].step.Hear? && y.events[k].step.report.Ad?))
  }

  /** From step k to step i messages reach the scanner in the order they were built; any of them may be
      lost, and an advertisement may be reported again. */
  ghost predicate InBuildOrder(y: SysRun, id: u16, k: nat, i: nat) {
    forall a: nat, b: nat :: Takes(y, id, a) && Takes(y, id, b) && k <= a < b <= i ==>
      y.events[a].n <= y.events[b].n && (y.events[b].step.Receive? ==> y.events[a].n < y.events[b].n)
  }

  /** From step k to step i the scanner hears the subevent it has subscribed to. */
  ghost predicate OnItsSubevent(y: SysRun, id: u16, k: nat, i: nat) {
    forall a: nat :: Takes(y, id, a) && k <= a <= i && y.events[a].step.Receive? && id in y.states[a].scn ==>
      y.events[a].step.sub == y.states[a].scn[id].sel.sub
  }

  /** From state p to state i the advertiser does not reboot, and visits its subevents in turn. */
  ghost predicate InTurn(y: SysRun, p: nat, i: nat)
    requires p <= i <= |y.events|
  {
    OneBoot(TicksOf(AdvRun(y)), p, i) && Cyclic(TicksOf(AdvRun(y)), y.cfg.subevents, p, i)
  }

  /** Message n was built after state p, or it is the current advertisement and the last message of state p,
      as every start-up leaves it. */
  ghost predicate BuiltSince(y: SysRun, p: nat, n: nat)
    requires p <= |y.events|
  {
    var s := y.states[p];
    |s.air| <= n || (n + 1 == |s.air| && s.air[n] == Advert(s.adv.reg, s.adv.c))
  }

  /** The scanner is not switched off in steps k, ..., i - 1. */
  ghost predicate StaysOn(y: SysRun, id: u16, k: nat, i: nat)
    requires i <= |y.events|
  {
    forall m :: k <= m < i ==> !(y.events[m].PowerCycle? && y.events[m].id == id)
  }

  /** Step k accepts an advertisement. */
  ghost predicate AcceptsAd(y: SysRun, id: u16, k: nat) {
    && Takes(y, id, k) && y.events[k].step.Hear? && id in y.states[k].scn
    && y.states[k].scn[id].counter <= y.events[k].step.report.counter
  }

  /** The counter a scanner holds is explained by the message it took at step b: exactly an
      advertisement's, or at most one above that of a message of the subevent it still listens to. */
  ghost predicate Explained(y: SysRun, id: u16, b: nat, i: nat) {
    && b < i <= |y.events| && Takes(y, id, b) && id in y.states[i].scn
    && y.events[b].n < |y.states[i].air|
    && y.states[i].scn[id].st != INITIALIZE
    && match y.states[i].air[y.events[b].n]
       case Advert(_, counter) => y.states[i].scn[id].counter == counter
       case Data(sub, _, counter) =>
         y.states[i].scn[id].counter <= counter + 1 && y.states[i].scn[id].sel.sub == sub
  }
}
