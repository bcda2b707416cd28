// `scanner_fsm.c`: the scanner's state, changed in place by the callbacks and the state functions. Every
// method is proved against the step function of ScannerModel.
module Scanners {
  import opened Words
  import opened Protocol
  import opened ScannerModel
  import opened Wire
  import opened WireLaws
  import opened Frames
  import opened FrameLaws
  import opened SecureCounters
  import opened NetBuf
  import opened Transfer
  import opened Building

  /** Size of message_rsp_buf. */
  const RSP_BUF_SIZE := 251

  /** UNUSED_DATA_LEN: what 62 bytes leave for the payload. */
  const PAYLOAD_LEN := 15

  class Scanner {
    const cfg: Cfg
    const id: u16     // CONFIG_SCANNER_ID
    const mac: Mac
    const key: nat    // ADVERTISER_KEY_ID
    const ownKey: nat // MIN_SCANNER_KEY_ID: in its own store a scanner's key is the first one

    const counter: SecureCounter
    var state: State
    var phase: Phase
    var faultReason: Fault
    var syncedEvt: bool // synced_evt_sem
    var synced: bool    // synced_sem
    var recv: Recv      // sync_callbacks.recv
    var selected: Loc
    var unconfirmedTicks: u8
    var generating: bool
    var reading: u32    // rsp_data_i.counter
    var response: Outgoing
    var scanning: bool
    const rspBuf: Buf

    ghost function Model(): Scn
      reads this, counter
    {
      Scn(state, phase, counter.value, faultReason, syncedEvt, synced, recv, selected, unconfirmedTicks,
          generating, reading, response, scanning)
    }

    ghost predicate Valid()
      reads this, counter, rspBuf
    {
      && WFS(cfg, Model())
      && rspBuf.Valid() && rspBuf.store.Length == RSP_BUF_SIZE && |response.payload| <= PAYLOAD_LEN
    }

    constructor (cfg: Cfg, id: u16, mac: Mac, key: nat, ownKey: nat, flash: Flash, random: nat)
      requires cfg.Valid() && (flash.cell.Some? ==> |flash.cell.value| <= 8)
      modifies flash
      ensures this.cfg == cfg && this.id == id && this.mac == mac && this.key == key && this.ownKey == ownKey
      ensures Valid() && Model() == PowerUp(StartsAt(old(flash.cell), random))
      ensures fresh(counter) && fresh(rspBuf) && fresh(rspBuf.store)
    {
      this.cfg, this.id, this.mac, this.key, this.ownKey := cfg, id, mac, key, ownKey;
      counter := new SecureCounter();
      state, phase, faultReason, syncedEvt, synced, recv := INITIALIZE, Entry, NoFault, false, false, NoRecv;
      selected, unconfirmedTicks, generating, reading := Loc(0, 0), 0, false, 0;
      response, scanning := Outgoing(0, 0, []), false;
      rspBuf := new Buf(RSP_BUF_SIZE);
      new;
      counter.Init(flash, random);
    }

    /** Sets the fault, last writer wins, and wakes the FSM. */
    method Signal(fault: Fault)
      modifies this`faultReason, this`syncedEvt
      ensures Model() == Raise(old(Model()), fault)
    {
      faultReason, syncedEvt := fault, true;
    }

    // ---- receive callbacks ---------------------------------------------------------------

    /** Answers with the current counter in the selected slot, then moves the counter past it. */
    method SetRspData(sub: u8, what: Outgoing) returns (out: seq<Packet>)
      requires rspBuf.Valid() && rspBuf.store.Length == RSP_BUF_SIZE && |what.payload| <= PAYLOAD_LEN
      modifies counter, rspBuf, rspBuf.store
      ensures rspBuf.Valid() && Model() == old(Model()).(counter := old(Model()).counter + 1)
      ensures var r := Rsp(Loc(sub, selected.slot), what.sender, what.reading, what.payload, old(Model()).counter);
        Answers(mac, ownKey, Some(r), out)
    {
      var r := Rsp(Loc(sub, selected.slot), what.sender, what.reading, what.payload, counter.value);
      var m := BuildReply(mac, ownKey, r, rspBuf);
      out := [InSlot(r.loc, m)];
      counter.value := counter.value + 1;
    }

    /** What TakeMessage left of a reception rx in state s. */
    ghost predicate Taken(s: Scn, rx: Reception, verified: bool, acks: Option<array<u16>>)
      reads this, counter, if acks.Some? then {acks.value} else {}
    {
      && (verified <==> Verifies(s, rx))
      && Model() == (if verified then s.(counter := rx.counter) else s)
      && (verified ==> acks.Some? == rx.acks.Some?)
      && (verified && acks.Some? ==> acks.value[..] == rx.acks.value && acks.value.Length == cfg.slots)
    }

    /** Verifies a message and reads its acks. */
    method TakeMessage(buf: Buf) returns (verified: bool, acks: Option<array<u16>>)
      requires buf.Valid()
      modifies counter, buf`len
      ensures buf.Valid()
      ensures Taken(old(Model()), ReceptionOf(mac, key, cfg.slots, old(buf.Bytes())), verified, acks)
    {
      ghost var m := buf.Bytes();
      VerifiesIsVerify(mac, key, cfg.slots, m, Model());
      var err, c := VerifyMessage(mac, key, buf, counter.value);
      counter.value := c;
      verified, acks := err == NoError, None;
      if verified {
        var regs, ids := new Loc[0], new u16[cfg.slots];
        var failed := DeserializeSubevent(buf, 0, cfg.slots, regs, ids);
        assert ids[..cfg.slots] == ids[..];
        if failed == NoError {
          acks := Some(ids);
        }
      }
    }

    /** The reception acks this scanner in its slot. */
    method IsAcked(acks: Option<array<u16>>) returns (acked: bool)
      requires acks.Some? ==> acks.value.Length == cfg.slots
      requires selected.slot < cfg.slots
      ensures acked == (acks.Some? && acks.value[selected.slot] == id)
    {
      match acks
      case None => acked := false;
      case Some(ids) => acked := ids[selected.slot] == id;
    }

    /** `confirm_recv_cb` once the message is taken. */
    method Confirm(sub: u8, verified: bool, acks: Option<array<u16>>, ghost s: Scn, ghost rx: Reception)
      returns (out: seq<Packet>)
      requires Valid() && Taken(s, rx, verified, acks)
      modifies this`unconfirmedTicks, this`faultReason, this`syncedEvt, counter, rspBuf, rspBuf.store
      ensures Valid() && Model() == ConfirmReceive(cfg, id, s, rx)
      ensures s.recv == ConfirmRecv ==> Answers(mac, ownKey, Answer(cfg, id, s, Receive(sub, rx)), out)
    {
      out := [];
      if !verified {
        Signal(Fault.InvalidHash);
        return;
      }
      var acked := IsAcked(acks);
      assert acked == Acked(id, s, rx);
      if !acked {
        out := SetRspData(sub, Outgoing(id, reading, []));
        unconfirmedTicks := Inc8(unconfirmedTicks);
        if unconfirmedTicks >= cfg.maxTicks {
          Signal(ConfirmationFailed);
        }
        return;
      }
      Signal(NoFault);
    }

    /** `ack_recv_cb` once the message is taken. */
    method Acknowledge(sub: u8, verified: bool, acks: Option<array<u16>>, ghost s: Scn, ghost rx: Reception)
      returns (out: seq<Packet>)
      requires Valid() && Taken(s, rx, verified, acks)
      modifies this`recv, this`unconfirmedTicks, this`faultReason, this`syncedEvt, counter, rspBuf, rspBuf.store
      ensures Valid() && Model() == AckReceive(cfg, id, s, rx)
      ensures s.recv == AckRecv ==> Answers(mac, ownKey, Answer(cfg, id, s, Receive(sub, rx)), out)
    {
      out := [];
      if !verified {
        Signal(Fault.InvalidHash);
        return;
      }
      var acked := IsAcked(acks);
      assert acked == Acked(id, s, rx);
      if !acked {
        unconfirmedTicks := Inc8(unconfirmedTicks);
      } else {
        recv := NoRecv;
        Signal(GotAck);
        return;
      }
      if unconfirmedTicks >= cfg.maxTicks {
        Signal(DidntReceiveAck);
        return;
      }
      out := SetRspData(sub, response);
    }

    /** Runs the callback that is installed, if any. */
    method Dispatch(sub: u8, buf: Buf?) returns (out: seq<Packet>)
      requires Valid()
      requires buf != null ==> buf.Valid() && buf != rspBuf && buf.store != rspBuf.store
      modifies this`recv, this`unconfirmedTicks, this`faultReason, this`syncedEvt, counter, rspBuf, rspBuf.store
      modifies if buf == null then {} else {buf}
      ensures Valid() && Received(sub, old(Model()), if buf == null then [] else old(buf.Bytes()), out)
    {
      out := [];
      if buf == null || buf.len == 0 || recv == NoRecv {
        return;
      }
      ghost var s, rx := Model(), ReceptionOf(mac, key, cfg.slots, buf.Bytes());
      var verified, acks := TakeMessage(buf);
      if recv == ConfirmRecv {
        out := Confirm(sub, verified, acks, s, rx);
      } else {
        out := Acknowledge(sub, verified, acks, s, rx);
      }
    }

    /** The installed callback, on a subevent message that may be missing or empty. */
    method RecvCb(sub: u8, buf: Buf?) returns (out: seq<Packet>)
      requires Valid()
      requires buf != null ==> buf.Valid() && buf != rspBuf && buf.store != rspBuf.store
      modifies this`recv, this`unconfirmedTicks, this`faultReason, this`syncedEvt, counter, rspBuf, rspBuf.store
      modifies if buf == null then {} else {buf}
      ensures Valid() && Received(sub, old(Model()), if buf == null then [] else old(buf.Bytes()), out)
      // what it sends is for the selected slot of this subevent, and signed under the scanner's own key
      ensures |out| <= 1
      ensures |out| == 1 ==> out[0].InSlot? && out[0].loc == Loc(sub, old(selected).slot)
      ensures |out| == 1 ==>
        |out[0].bytes| >= HASH_LEN && Hashed(mac, ownKey, DropTail(out[0].bytes, HASH_LEN), out[0].bytes)
      // what does not verify under the advertiser's key is not answered, and moves no counter
      ensures buf != null && Verify(mac, key, old(buf.Bytes()), old(counter.value)).err != NoError ==>
        out == [] && counter.value == old(counter.value)
    {
      ghost var s, m := Model(), if buf == null then [] else buf.Bytes();
      out := Dispatch(sub, buf);
      if m != [] {
        AnswersAreSigned(mac, ownKey, Answer(cfg, id, s, Receive(sub, ReceptionOf(mac, key, cfg.slots, m))), out);
        if Verify(mac, key, m, s.counter).err != NoError {
          UnverifiedIsIgnored(mac, key, m, cfg, id, sub, s);
        }
      }
    }

    /** From state s, message m was received on a subevent by whatever callback is installed; nothing
        happens if it is empty. */
    ghost predicate Received(sub: u8, s: Scn, m: seq<u8>, out: seq<Packet>)
      requires cfg.Valid() && WFS(cfg, s)
      reads this, counter
    {
      if m == [] then Model() == s && out == []
      else
        var e := Receive(sub, ReceptionOf(mac, key, cfg.slots, m));
        Possible(cfg, s, e) && Model() == ScnStep(cfg, id, s, e) && Answers(mac, ownKey, Answer(cfg, id, s, e), out)
    }

    // ---- scanning ------------------------------------------------------------------------

    ghost function Heard(data: Option<seq<u8>>): (report: Report)
      ensures report.Bare? <==> data.None?
    {
      match data
      case None => Bare
      case Some(m) => ReportOf(mac, key, m)
    }

    /** Verifies manufacturer data and reads the slots it offers. */
    method TakeAdvert(data: seq<u8>, ghost report: Report) returns (ok: bool, reg: seq<Loc>)
      requires report == ReportOf(mac, key, data)
      modifies counter
      ensures ok <==> Heeds(old(Model()), report)
      ensures counter.value == if ok then report.counter else old(counter.value)
      ensures ok && report.reg != [] ==> reg == report.reg
    {
      var buf := new Buf(|data|);
      buf.AddMem(data);
      assert buf.Bytes() == data;
      ReportIsVerify(mac, key, data, counter.value);
      var err, c := VerifyMessage(mac, key, buf, counter.value);
      counter.value := c;
      if err != NoError {
        return false, [];
      }
      ok := true;
      var failed;
      failed, reg := DeserializeAdvert(buf);
    }

    /** `parse_adv_data` on manufacturer data; false if it does not verify. */
    method ParseAdvData(data: seq<u8>, pick: u8, ghost report: Report) returns (ok: bool)
      requires report == ReportOf(mac, key, data) && (Heeds(Model(), report) ==> |report.reg| > 0)
      modifies counter, this`selected
      ensures ok <==> Heeds(old(Model()), report)
      ensures var s := old(Model());
        Model() == if ok then s.(counter := report.counter, sel := Pick(report.reg, pick)) else s
    {
      var reg;
      ok, reg := TakeAdvert(data, report);
      if ok {
        var random := pick % |reg|;
        selected := reg[random];
      }
    }

    /** `scan_recv_cb` on an extended advertisement with sync information: its manufacturer data, if it has
        any, and what the host answers to creating a sync and to stopping the scan. */
    method ScanRecvCb(data: Option<seq<u8>>, pick: u8, created: bool, stopped: bool)
      requires Valid()
      requires Possible(cfg, Model(), Hear(Heard(data), pick, created, stopped))
      modifies this`selected, this`scanning, this`synced, counter
      ensures Valid() && Model() == ScnStep(cfg, id, old(Model()), Hear(Heard(data), pick, created, stopped))
      // data that does not verify under the advertiser's key changes nothing
      ensures data.Some? && Verify(mac, key, data.value, old(counter.value)).err != NoError ==> Model() == old(Model())
    {
      ghost var report := Heard(data);
      if data.Some? {
        var ok := ParseAdvData(data.value, pick, report);
        if !ok {
          return;
        }
      }
      if !created {
        return;
      }
      if !stopped {
        return;
      }
      scanning, synced := false, true;
    }

    // ---- other callbacks -----------------------------------------------------------------

    method TermCb(deleted: bool)
      requires Valid()
      modifies this`faultReason, this`syncedEvt
      ensures Valid() && Model() == ScnStep(cfg, id, old(Model()), Terminated(deleted))
    {
      Signal(if deleted then SyncDeleted else SyncTimeout);
    }

    /** The generator has filled its buffer. */
    method DataGeneratedCb(payload: seq<u8>)
      requires Valid() && generating && |payload| == PAYLOAD_LEN
      modifies this`reading, this`response, this`faultReason, this`syncedEvt
      ensures Valid() && Model() == ScnStep(cfg, id, old(Model()), Generated(payload))
    {
      reading := Inc32(reading);
      response := Outgoing(id, reading, payload);
      Signal(DataGenerated);
    }

    // ---- state functions -----------------------------------------------------------------

    method Enter(next: State)
      modifies this`state, this`phase
      ensures Model() == ScannerModel.Enter(old(Model()), next)
    {
      state, phase := next, Entry;
    }

    method Syncing(ok: bool)
      requires Valid() && state == SYNCING
      modifies this
      ensures Valid() && Model() == RunSyncing(old(Model()), ok)
    {
      if phase != Wait {
        if !ok {
          faultReason := ScanStartFailed;
          Enter(FAULT_HANDLING);
          return;
        }
        scanning, phase := true, Wait;
        return;
      }
      synced := false;
      Enter(CONFIRMING);
    }

    method Confirming()
      requires Valid() && state == CONFIRMING
      modifies this
      ensures Valid() && Model() == RunConfirming(old(Model()))
    {
      match phase
      case Entry =>
        unconfirmedTicks, phase := 0, Nap;
      case Nap =>
        recv, phase := ConfirmRecv, Wait;
      case Wait =>
        syncedEvt := false;
        match faultReason {
          case InvalidHash | ConfirmationFailed | SyncDeleted | SyncTimeout =>
            recv := NoRecv;
            Enter(SYNCING);
          case NoFault =>
            generating := true;
            Enter(SLEEPING);
          case _ =>
            Enter(FAULT_HANDLING);
        }
    }

    method Sleeping()
      requires Valid() && state == SLEEPING
      modifies this
      ensures Valid() && Model() == RunSleeping(old(Model()))
    {
      if phase != Wait {
        phase := Wait;
        return;
      }
      syncedEvt := false;
      match faultReason
      case NoFault =>
      case InvalidHash | SyncTimeout =>
        generating, recv := false, NoRecv;
        Enter(SYNCING);
      case DataGenerated =>
        recv := NoRecv;
        Enter(ENABLED);
      case _ =>
        generating, recv := false, NoRecv;
        Enter(FAULT_HANDLING);
    }

    method Enabled()
      requires Valid() && state == ENABLED
      modifies this
      ensures Valid() && Model() == RunEnabled(old(Model()))
    {
      if phase != Wait {
        recv, unconfirmedTicks, phase := AckRecv, 0, Wait;
        return;
      }
      syncedEvt := false;
      match faultReason
      case GotAck =>
        Enter(SLEEPING);
      case DidntReceiveAck | InvalidHash | SyncTimeout =>
        generating := false;
        Enter(SYNCING);
      case DataGenerated =>
        Enter(ENABLED);
      case _ =>
        generating := false;
        Enter(FAULT_HANDLING);
    }

    /** The FSM thread moves on, from entering a state to where it waits or from waiting to the next state. */
    method RunState(ok: bool)
      requires Valid() && Possible(cfg, Model(), Run(ok))
      modifies this
      ensures Valid() && Model() == ScnStep(cfg, id, old(Model()), Run(ok))
    {
      match state
      case INITIALIZE =>
        if ok {
          selected := Loc(0, selected.slot);
          Enter(SYNCING);
        } else {
          faultReason := BleEnableFailed;
          Enter(FAULT_HANDLING);
        }
      case SYNCING => Syncing(ok);
      case CONFIRMING => Confirming();
      case SLEEPING => Sleeping();
      case ENABLED => Enabled();
      case _ =>
    }
  }
}
