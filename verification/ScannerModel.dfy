// The scanner's callbacks and state functions as functions on its state, one atomic step at a time.
//
// A callback is one step. A state function is a step up to where it waits, and a step from its
// semaphore take to its return; `confirming` also sleeps before it installs its callback.
module ScannerModel {
  import opened Words
  import opened Protocol

  datatype State = INITIALIZE | FAULT_HANDLING | SYNCING | REGISTERING | CONFIRMING | SLEEPING | ENABLED

  /** `evt_t`. */
  datatype Fault =
    | NoFault | BleEnableFailed | ScanStartFailed | SyncTimeout | SyncDeleted
    | ConfirmationFailed | DidntReceiveAck | DataGenerated | GotAck | InvalidHash

  /** Where the FSM thread is in its current state function. */
  datatype Phase = Entry | Nap | Wait

  /** `sync_callbacks.recv`. */
  datatype Recv = NoRecv | ConfirmRecv | AckRecv

  /** `response`: what ENABLED answers with, zero until the generator first fires. */
  datatype Outgoing = Outgoing(sender: u16, reading: u32, payload: seq<u8>)

  datatype Scn = Scn(
    st: State,
    phase: Phase,
    counter: nat,      // counter.value
    fault: Fault,      // fault_reason, last writer wins
    evtSem: bool,      // synced_evt_sem
    syncSem: bool,     // synced_sem
    recv: Recv,
    sel: Loc,          // selected_slot
    ticks: u8,         // unconfirmed_ticks
    gen: bool,         // data generator running
    reading: u32,      // rsp_data_i.counter
    pending: Outgoing,
    scanning: bool)    // extended advertisements are being reported

  predicate WFS(cfg: Cfg, s: Scn) {
    cfg.Valid() && s.sel.slot < cfg.slots
  }

  /** A received subevent message: one that the advertiser signed, with its acks if it has room for them,
      or anything else. */
  datatype Reception = Garbage | Signed(counter: nat, acks: Option<seq<u16>>)

  /** A reported advertisement: no manufacturer data, data that the advertiser did not sign, or its own. */
  datatype Report = Bare | Forged | Ad(reg: seq<Loc>, counter: nat)

  datatype ScnEvent =
    | Receive(sub: u8, rx: Reception)                        // recv callback, non-empty buffer
    | Hear(report: Report, pick: u8, created: bool, stopped: bool) // scan_recv_cb, with the host's results
    | Terminated(deleted: bool)                              // term_cb
    | Generated(payload: seq<u8>)                            // data_generated_cb
    | Run(ok: bool)                                          // the FSM thread moves; host calls succeed or not

  predicate Offers(cfg: Cfg, reg: seq<Loc>) {
    |reg| > 0 && forall i :: 0 <= i < |reg| ==> reg[i].slot < cfg.slots
  }

  /** `verify_message` accepts the advertisement. */
  predicate Heeds(s: Scn, report: Report) {
    report.Ad? && s.counter <= report.counter
  }

  /** Shapes the decoder and the advertiser guarantee, and steps that can happen now. */
  predicate Possible(cfg: Cfg, s: Scn, e: ScnEvent) {
    match e
    case Receive(_, rx) => rx.Signed? && rx.acks.Some? ==> |rx.acks.value| == cfg.slots
    case Hear(report, _, _, _) => s.scanning && (Heeds(s, report) ==> Offers(cfg, report.reg))
    case Terminated(_) => true
    case Generated(_) => s.gen
    case Run(_) =>
      match s.st
      case FAULT_HANDLING => false
      case SYNCING => s.phase == Wait ==> s.syncSem
      case _ => s.phase == Wait ==> s.evtSem
  }

  /** `verify_message` accepts the reception. */
  predicate Verifies(s: Scn, rx: Reception) {
    rx.Signed? && s.counter <= rx.counter
  }

  /** The reception acks this scanner in its slot. */
  predicate Acked(id: u16, s: Scn, rx: Reception) {
    rx.Signed? && rx.acks.Some? && s.sel.slot < |rx.acks.value| && rx.acks.value[s.sel.slot] == id
  }

  function Raise(s: Scn, fault: Fault): Scn {
    s.(fault := fault, evtSem := true)
  }

  function ConfirmReceive(cfg: Cfg, id: u16, s: Scn, rx: Reception): Scn {
    if !Verifies(s, rx) then Raise(s, InvalidHash)
    else if Acked(id, s, rx) then Raise(s.(counter := rx.counter), NoFault)
    else
      var t := s.(counter := rx.counter + 1, ticks := Inc8(s.ticks));
      if t.ticks >= cfg.maxTicks then Raise(t, ConfirmationFailed) else t
  }

  function AckReceive(cfg: Cfg, id: u16, s: Scn, rx: Reception): Scn {
    if !Verifies(s, rx) then Raise(s, InvalidHash)
    else if Acked(id, s, rx) then Raise(s.(counter := rx.counter, recv := NoRecv), GotAck)
    else
      var t := s.(counter := rx.counter, ticks := Inc8(s.ticks));
      if t.ticks >= cfg.maxTicks then Raise(t, DidntReceiveAck) else t.(counter := rx.counter + 1)
  }

  /** The response a step transmits, if any. */
  function Answer(cfg: Cfg, id: u16, s: Scn, e: ScnEvent): Option<Rsp> {
    if !e.Receive? || s.recv == NoRecv || !Verifies(s, e.rx) || Acked(id, s, e.rx) then None
    else if s.recv == ConfirmRecv then
      Some(Rsp(Loc(e.sub, s.sel.slot), id, s.reading, [], e.rx.counter))
    else if Inc8(s.ticks) >= cfg.maxTicks then None
    else Some(Rsp(Loc(e.sub, s.sel.slot), s.pending.sender, s.pending.reading, s.pending.payload, e.rx.counter))
  }

  /** One of the slots on offer, chosen by a random byte. */
  function Pick(reg: seq<Loc>, pick: u8): (l: Loc)
    requires |reg| > 0
    ensures l in reg
  {
    reg[pick % |reg|]
  }

  /** `scan_recv_cb`: take the slot on offer, create the sync, stop scanning. */
  function HearReport(s: Scn, report: Report, pick: u8, created: bool, stopped: bool): Scn
    requires Heeds(s, report) ==> |report.reg| > 0
  {
    if report.Forged? || (report.Ad? && report.counter < s.counter) then s
    else
      var t := if report.Ad? then s.(counter := report.counter, sel := Pick(report.reg, pick)) else s;
      if created && stopped then t.(scanning := false, syncSem := true) else t
  }

  function Enter(s: Scn, st: State): Scn { s.(st := st, phase := Entry) }

  function RunSyncing(s: Scn, ok: bool): (t: Scn)
    ensures t.counter == s.counter && t.sel == s.sel && (t.st == INITIALIZE ==> s.st == INITIALIZE)
  {
    if s.phase == Wait then Enter(s.(syncSem := false), CONFIRMING)
    else if ok then s.(scanning := true, phase := Wait)
    else Enter(s.(fault := ScanStartFailed), FAULT_HANDLING)
  }

  function RunConfirming(s: Scn): (t: Scn)
    ensures t.counter == s.counter && t.sel == s.sel && (t.st == INITIALIZE ==> s.st == INITIALIZE)
  {
    match s.phase
    case Entry => s.(ticks := 0, phase := Nap)
    case Nap => s.(recv := ConfirmRecv, phase := Wait)
    case Wait =>
      var t := s.(evtSem := false);
      match s.fault
      case InvalidHash => Enter(t.(recv := NoRecv), SYNCING)
      case ConfirmationFailed => Enter(t.(recv := NoRecv), SYNCING)
      case SyncDeleted => Enter(t.(recv := NoRecv), SYNCING)
      case SyncTimeout => Enter(t.(recv := NoRecv), SYNCING)
      case NoFault => Enter(t.(gen := true), SLEEPING)
      case _ => Enter(t, FAULT_HANDLING)
  }

  function RunSleeping(s: Scn): (t: Scn)
    ensures t.counter == s.counter && t.sel == s.sel && (t.st == INITIALIZE ==> s.st == INITIALIZE)
  {
    if s.phase != Wait then s.(phase := Wait)
    else
      var t := s.(evtSem := false);
      match s.fault
      case NoFault => t
      case InvalidHash => Enter(t.(gen := false, recv := NoRecv), SYNCING)
      case SyncTimeout => Enter(t.(gen := false, recv := NoRecv), SYNCING)
      case DataGenerated => Enter(t.(recv := NoRecv), ENABLED)
      case _ => Enter(t.(gen := false, recv := NoRecv), FAULT_HANDLING)
  }

  function RunEnabled(s: Scn): (t: Scn)
    ensures t.counter == s.counter && t.sel == s.sel && (t.st == INITIALIZE ==> s.st == INITIALIZE)
  {
    if s.phase != Wait then s.(recv := AckRecv, ticks := 0, phase := Wait)
    else
      var t := s.(evtSem := false);
      match s.fault
      case GotAck => Enter(t, SLEEPING)
      case DidntReceiveAck => Enter(t.(gen := false), SYNCING)
      case InvalidHash => Enter(t.(gen := false), SYNCING)
      case SyncTimeout => Enter(t.(gen := false), SYNCING)
      case DataGenerated => Enter(t, ENABLED)
      case _ => Enter(t.(gen := false), FAULT_HANDLING)
  }

  function ScnStep(cfg: Cfg, id: u16, s: Scn, e: ScnEvent): (t: Scn)
    requires WFS(cfg, s) && Possible(cfg, s, e)
    ensures WFS(cfg, t)
  {
    match e
    case Receive(_, rx) =>
      (match s.recv
       case NoRecv => s
       case ConfirmRecv => ConfirmReceive(cfg, id, s, rx)
       case AckRecv => AckReceive(cfg, id, s, rx))
    case Hear(report, pick, created, stopped) => HearReport(s, report, pick, created, stopped)
    case Terminated(deleted) => Raise(s, if deleted then SyncDeleted else SyncTimeout)
    case Generated(payload) =>
      var n := Inc32(s.reading);
      Raise(s.(reading := n, pending := Outgoing(id, n, payload)), DataGenerated)
    case Run(ok) =>
      match s.st
      case INITIALIZE =>
        if ok then Enter(s.(sel := Loc(0, s.sel.slot)), SYNCING)
        else Enter(s.(fault := BleEnableFailed), FAULT_HANDLING)
      case SYNCING => RunSyncing(s, ok)
      case CONFIRMING => RunConfirming(s)
      case SLEEPING => RunSleeping(s)
      case ENABLED => RunEnabled(s)
      case _ => s
  }

  /** State at power-up with the stored counter read back. */
  function PowerUp(counter: nat): Scn {
    Scn(INITIALIZE, Entry, counter, NoFault, false, false, NoRecv, Loc(0, 0), 0, false, 0,
        Outgoing(0, 0, []), false)
  }

  // ---- runs ------------------------------------------------------------------------------

  /** states[i + 1] follows from states[i] by events[i]; the scanner's id is at least 1. */
  datatype ScnTrace = ScnTrace(cfg: Cfg, id: u16, states: seq<Scn>, events: seq<ScnEvent>) {

    ghost predicate Moves(i: nat) {
      && i < |events| < |states|
      && WFS(cfg, states[i])
      && Possible(cfg, states[i], events[i])
      && states[i + 1] == ScnStep(cfg, id, states[i], events[i])
    }

    ghost predicate IsRun() {
      && cfg.Valid()
      && id != 0
      && |states| == |events| + 1
      && states[0] == PowerUp(states[0].counter)
      && (forall i :: 0 <= i < |events| ==> Moves(i))
    }
  }

  /** A run of one scanner from power-up to its next reboot. */
  type ScnRun = t: ScnTrace | t.IsRun()
    ghost witness ScnTrace(Cfg(46, 103, 5, 20, 4), 1, [PowerUp(0)], [])
}
