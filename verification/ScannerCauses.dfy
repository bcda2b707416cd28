// What moves a scanner from state to state, in terms of what it has received: no fault codes, no semaphores.
module ScannerCauses {
  import opened Words
  import opened Protocol
  import opened ScannerModel

  /** Something that wakes the FSM. */
  datatype Cause =
    | Nothing
    | Unverified             // a message that was not signed, or is too old
    | Confirmed              // while confirming, a message that acks this scanner in its slot
    | Delivered              // while sending, such a message
    | GaveUp(confirming: bool) // the last tick is used up without an ack
    | Ended(deleted: bool)   // the sync was terminated
    | Produced               // new data

  /** The message acks the scanner: it has the scanner's id in the place of the scanner's slot. */
  predicate AcksMe(id: u16, s: Scn, rx: Reception) {
    rx.Signed? && rx.acks.Some? && s.sel.slot < |rx.acks.value| && rx.acks.value[s.sel.slot] == id
  }

  /** The message was signed by the advertiser, and not before what the scanner has seen. */
  predicate Believed(s: Scn, rx: Reception) {
    rx.Signed? && rx.counter >= s.counter
  }

  /** A message is handled that does not ack the scanner. */
  predicate HandledInVain(id: u16, s: Scn, e: ScnEvent) {
    e.Receive? && s.recv != NoRecv && Believed(s, e.rx) && !AcksMe(id, s, e.rx)
  }

  function CauseOf(cfg: Cfg, id: u16, s: Scn, e: ScnEvent): Cause {
    match e
    case Receive(_, rx) =>
      if s.recv == NoRecv then Nothing
      else if !Believed(s, rx) then Unverified
      else if AcksMe(id, s, rx) then if s.recv == ConfirmRecv then Confirmed else Delivered
      else if (s.ticks + 1) % 256 >= cfg.maxTicks then GaveUp(s.recv == ConfirmRecv)
      else Nothing
    case Terminated(deleted) => Ended(deleted)
    case Generated(_) => Produced
    case _ => Nothing
  }

  /** Where the FSM goes from a state in which something has woken it. */
  function Target(st: State, cause: Cause): State {
    match st
    case CONFIRMING =>
      if cause == Confirmed then SLEEPING
      else if cause == Unverified || cause == GaveUp(true) || cause.Ended? then SYNCING
      else FAULT_HANDLING
    case SLEEPING =>
      if cause == Produced then ENABLED
      else if cause == Confirmed then SLEEPING
      else if cause == Unverified || cause == Ended(false) then SYNCING
      else FAULT_HANDLING
    case ENABLED =>
      if cause == Delivered then SLEEPING
      else if cause == Produced then ENABLED
      else if cause == Unverified || cause == GaveUp(false) || cause == Ended(false) then SYNCING
      else FAULT_HANDLING
    case _ => st
  }

  /** The last thing before state i that woke the FSM: what came before it is forgotten. */
  ghost function LastCause(t: ScnRun, i: nat): Cause
    requires i <= |t.events|
  {
    if i == 0 then Nothing
    else
      var c := CauseOf(t.cfg, t.id, t.states[i - 1], t.events[i - 1]);
      if c != Nothing then c else LastCause(t, i - 1)
  }

  // ---- delivery --------------------------------------------------------------------------

  /** Step k receives the ack of a response, and from then to state i the scanner has been in ENABLED with
      the same slot selected. */
  ghost predicate DeliveredBy(t: ScnRun, k: nat, i: nat)
    requires i <= |t.events|
  {
    && k < i && CauseOf(t.cfg, t.id, t.states[k], t.events[k]) == Delivered
    && (forall m :: k <= m <= i ==> t.states[m].st == ENABLED && t.states[m].sel == t.states[k].sel)
  }

  /** Messages handled in vain in steps a, ..., b - 1. */
  ghost function InVain(t: ScnRun, a: nat, b: nat): nat
    requires a <= b <= |t.events|
  {
    if a == b then 0
    else InVain(t, a, b - 1) + if HandledInVain(t.id, t.states[b - 1], t.events[b - 1]) then 1 else 0
  }

  /** From a, where the ticks were cleared, to b the scanner has been in ENABLED and listening for an ack, and no
      message it believed had one. */
  ghost predicate Unanswered(t: ScnRun, a: nat, b: nat)
    requires b <= |t.events|
  {
    && a <= b && t.states[a].ticks == 0
    && (forall m :: a <= m <= b ==> t.states[m].st == ENABLED && t.states[m].recv == AckRecv)
    && (forall m :: a <= m < b && t.events[m].Receive? && Believed(t.states[m], t.events[m].rx) ==>
      !AcksMe(t.id, t.states[m], t.events[m].rx))
  }

  /** In steps a, ..., k the scanner tried for all its ticks, then gave up, and it is still in ENABLED. */
  ghost predicate TriedInVain(t: ScnRun, a: nat, k: nat, i: nat)
    requires i <= |t.events|
  {
    && a <= k < i && Unanswered(t, a, k) && HandledInVain(t.id, t.states[k], t.events[k])
    && InVain(t, a, k + 1) >= t.cfg.maxTicks
    && (forall m :: a <= m <= i ==> t.states[m].st == ENABLED)
  }

  // ---- finding a train -------------------------------------------------------------------

  /** A report that lets the scanner go on: without data to check, or with data that it believes. */
  predicate Acceptable(s: Scn, report: Report) {
    report.Bare? || (report.Ad? && report.counter >= s.counter)
  }

  /** In step h, while it scanned, the scanner heard an acceptable report, created a sync and stopped scanning;
      from then to state i it has waited to go on, with a slot selected from the report if that offers any. */
  ghost predicate FoundBy(t: ScnRun, h: nat, i: nat)
    requires i <= |t.events|
  {
    && h < i && t.events[h].Hear? && t.events[h].created && t.events[h].stopped
    && Acceptable(t.states[h], t.events[h].report) && t.states[h].scanning
    && (forall m :: h <= m <= i ==> t.states[m].st == SYNCING && t.states[m].phase == Wait)
    && (t.events[h].report.Ad? ==> t.states[i].sel in t.events[h].report.reg)
    && (t.events[h].report.Bare? ==> t.states[i].sel == t.states[h].sel)
  }

  // ---- what a response says --------------------------------------------------------------

  /** How often the generator has fired before step i. */
  function Fired(events: seq<ScnEvent>, i: nat): nat
    requires i <= |events|
  {
    if i == 0 then 0 else Fired(events, i - 1) + if events[i - 1].Generated? then 1 else 0
  }

  /** What it produced last. */
  function LatestPayload(events: seq<ScnEvent>, i: nat): seq<u8>
    requires i <= |events|
  {
    if i == 0 then []
    else if events[i - 1].Generated? then events[i - 1].payload
    else LatestPayload(events, i - 1)
  }

  /** The slot picked from the advertisement the scanner accepted last. */
  ghost function LatestPick(t: ScnRun, i: nat): Loc
    requires i <= |t.events|
  {
    if i == 0 then Loc(0, 0)
    else
      var e := t.events[i - 1];
      if e.Hear? && e.report.Ad? && e.report.counter >= t.states[i - 1].counter && |e.report.reg| > 0
      then e.report.reg[e.pick % |e.report.reg|]
      else LatestPick(t, i - 1)
  }
}
