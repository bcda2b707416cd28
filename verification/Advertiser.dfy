// `advertiser_fsm.c`: the slot table, the advertised slots, the free list and the counters, changed in place
// by the callbacks. Every method is proved against the step functions of AdvertiserModel.
module Advertisers {
  import opened Words
  import opened Protocol
  import opened AdvertiserModel
  import opened RequestCalls
  import opened Wire
  import opened WireLaws
  import opened Frames
  import opened FrameLaws
  import opened FreeLists
  import opened SecureCounters
  import opened AdvertiserTables
  import opened NetBuf
  import opened Transfer
  import opened Building
  import opened AdvertiserParts
  import opened Serving
  import opened ServingLaws

  const TO_SEND_BUF_SIZE := 251

  class Advertiser {
    const cfg: Cfg
    const mac: Mac
    const key: nat    // ADVERTISER_KEY_ID
    const minKey: nat // MIN_SCANNER_KEY_ID
    const structSize: nat // sizeof(advertisement_data_t), which sizes the advertisement buffer

    const counter: SecureCounter
    var rollover: nat
    var lastUsed: Loc
    const registered: array<Loc> // register_subevent_data
    const freeList: FreeList
    const rspSlots: array2<Slot>
    const advData: Buf
    const subeventBuf: Buf // stands for the array bufs: a message leaves it before the next one is built
    ghost var leaked: set<Loc>

    ghost predicate Shaped()
      reads this, freeList
    {
      && cfg.Valid() && minKey > 0
      && registered.Length == cfg.reserved && registered != freeList.data
      && freeList.Valid() && freeList.data.Length == cfg.capacity
      && rspSlots.Length0 == cfg.subevents && rspSlots.Length1 == cfg.slots
    }

    /** The buffers are big enough for the messages built in them. */
    ghost predicate Buffered()
      reads this, advData, subeventBuf
    {
      && advData != subeventBuf && advData.store != subeventBuf.store
      && advData.Valid() && 2 * cfg.reserved + 41 <= advData.store.Length == structSize + HASH_LEN
      && subeventBuf.Valid() && 2 * cfg.slots + 40 <= subeventBuf.store.Length == TO_SEND_BUF_SIZE
    }

    ghost function Model(): Adv
      requires freeList.Valid()
      reads this, counter, registered, freeList, freeList.data, rspSlots
    {
      Adv(counter.value, rollover, lastUsed, registered[..], freeList.Contents(), Rows(rspSlots), leaked)
    }

    ghost predicate Valid()
      reads this, counter, registered, freeList, freeList.data, rspSlots, advData, subeventBuf
    {
      Shaped() && Buffered() && WF(cfg, Model())
    }

    /** Static initialisation: what the firmware has in memory when it starts. The advertisement buffer gets
        the size of advertisement_data_t and of a hash, so the messages fit their buffers exactly if that
        struct is at least 2k + 9 bytes long and there are at most 105 slots in a subevent. */
    constructor (cfg: Cfg, mac: Mac, key: nat, minKey: nat, structSize: nat)
      requires cfg.Valid() && minKey > 0
      ensures this.cfg == cfg && this.mac == mac && this.key == key && this.minKey == minKey
      ensures this.structSize == structSize
      ensures Shaped() && PoweredOn()
      ensures Buffered() <==> 2 * cfg.reserved + 9 <= structSize && 2 * cfg.slots + 40 <= TO_SEND_BUF_SIZE
      ensures fresh(counter) && fresh(registered) && fresh(freeList) && fresh(freeList.data) && fresh(rspSlots)
      ensures fresh(advData) && fresh(advData.store) && fresh(subeventBuf) && fresh(subeventBuf.store)
    {
      var table := EmptyTable(cfg.subevents, cfg.slots);
      var offered := EmptyList(cfg.reserved);
      this.cfg, this.mac, this.key, this.minKey, this.structSize := cfg, mac, key, minKey, structSize;
      counter := new SecureCounter();
      rollover := 0;
      lastUsed := Loc(0, cfg.reserved);
      freeList := new FreeList(cfg.capacity);
      registered := offered;
      rspSlots := table;
      advData := new Buf(structSize + HASH_LEN);
      subeventBuf := new Buf(TO_SEND_BUF_SIZE);
      leaked := {};
    }

    ghost predicate PoweredOn()
      requires Shaped()
      reads this, counter, registered, freeList, freeList.data, rspSlots
    {
      && (forall i :: 0 <= i < registered.Length ==> registered[i] == Loc(0, 0))
      && counter.value == 0 && rollover == 0 && lastUsed == Loc(0, cfg.reserved) && leaked == {}
      && freeList.Contents() == []
      && Rows(rspSlots) == NoOwners(cfg.subevents, cfg.slots)
    }

    // ---- slot allocation -----------------------------------------------------------------

    method ReserveSlot() returns (l: Loc)
      requires Shaped() && WF(cfg, Model())
      modifies this`lastUsed, freeList`size
      ensures Shaped() && (Model(), l) == Reserve(cfg, old(Model()))
    {
      ghost var was := freeList.Contents();
      var ret;
      ret, l := freeList.Pop();
      if ret == 0 {
        assert was[..|was| - 1] == freeList.Contents();
        return;
      }
      l := lastUsed;
      if lastUsed.slot + 1 == cfg.slots {
        lastUsed := Loc(Inc8(lastUsed.sub), 0);
      } else {
        lastUsed := Loc(lastUsed.sub, Inc8(lastUsed.slot));
      }
    }

    /** `free_list_append` as the callbacks use it: a slot that does not fit is lost. */
    method FreeSlot(l: Loc)
      requires Shaped()
      modifies this`leaked, freeList`size, freeList.data
      ensures Shaped() && Model() == Push(cfg, old(Model()), l)
    {
      var ret := freeList.Append(l);
      if ret != 0 {
        leaked := leaked + {l};
      } else {
        leaked := leaked - {l};
      }
    }

    /** Puts an entry of the slot table. */
    method SetSlot(l: Loc, s: Slot)
      requires Shaped() && WF(cfg, Model()) && InGrid(cfg, l)
      modifies rspSlots
      ensures Shaped() && Model() == Put(cfg, old(Model()), l, s)
    {
      WriteSlot(rspSlots, l, s);
    }

    // ---- request_cb ----------------------------------------------------------------------

    /** One iteration of the ageing loop. */
    method AgeEntry(l: Loc) returns (ack: u16)
      requires Shaped() && WF(cfg, Model()) && InGrid(cfg, l)
      modifies this`leaked, freeList`size, freeList.data, rspSlots
      ensures Shaped() && Model() == AgeSlot(cfg, old(Model()), l) && ack == AckOf(At(Model(), l))
    {
      var s := rspSlots[l.sub, l.slot];
      assert s == At(Model(), l);
      s := Slot(s.dev, Inc8(s.idle));
      if s.dev != 0 && s.idle > PATIENCE {
        s := Slot(0, 0);
        SetSlot(l, s);
        FreeSlot(l);
      } else {
        SetSlot(l, s);
      }
      ack := if s.idle == 1 && s.dev != 0 then s.dev else 0;
    }

    /** The loop has aged the first j slots of a subevent and settled their acks. */
    ghost predicate AgedUpTo(was: Adv, sub: nat, j: nat, acks: array<u16>)
      requires WF(cfg, was) && sub < cfg.subevents && j <= cfg.slots == acks.Length && Shaped()
      reads this, counter, registered, freeList, freeList.data, rspSlots, acks
    {
      && Model() == AgeUpTo(cfg, was, sub, j)
      && forall k :: 0 <= k < j ==> acks[k] == Acks(cfg, AgeUpTo(cfg, was, sub, cfg.slots), sub)[k]
    }

    method AgeNext(ghost was: Adv, sub: nat, j: nat, acks: array<u16>)
      requires WF(cfg, was) && sub < cfg.subevents && j < cfg.slots == acks.Length
      requires Shaped() && AgedUpTo(was, sub, j, acks)
      modifies this`leaked, freeList`size, freeList.data, rspSlots, acks
      ensures Shaped() && AgedUpTo(was, sub, j + 1, acks)
    {
      AckIsFinal(cfg, was, sub, j);
      var ack := AgeEntry(Loc(sub, j));
      acks[j] := ack;
    }

    /** The ageing loop over one subevent. */
    method AgeSubevent(sub: nat, acks: array<u16>)
      requires Shaped() && WF(cfg, Model()) && sub < cfg.subevents && acks.Length == cfg.slots
      modifies this`leaked, freeList`size, freeList.data, rspSlots, acks
      ensures Shaped() && Model() == AgeUpTo(cfg, old(Model()), sub, cfg.slots)
      ensures acks[..] == Acks(cfg, Model(), sub)
    {
      ghost var was := Model();
      for j := 0 to cfg.slots
        invariant Shaped() && AgedUpTo(was, sub, j, acks)
      {
        AgeNext(was, sub, j, acks);
      }
    }

    /** `set_adv_data`. */
    method SetAdvData() returns (out: seq<Packet>)
      requires Shaped() && Buffered()
      modifies advData, advData.store
      ensures Shaped() && Buffered() && Model() == old(Model())
      ensures Carry(mac, key, [Advert(Model().reg, Model().c)], out)
    {
      var m := BuildAdvert(mac, key, registered[..], counter.value, advData);
      CarryOne(mac, key, Advert(registered[..], counter.value), Advertising(m));
      out := [Advertising(m)];
    }

    /** On subevent 0 the rollover grows, and the advertisement is renewed with the counter as it is. */
    method BeginVisit(sub: nat) returns (out: seq<Packet>)
      requires Shaped() && Buffered()
      modifies this`rollover, advData, advData.store
      ensures Shaped() && Buffered() && Model() == Begun(old(Model()), sub)
      ensures Carry(mac, key, Renewed(old(Model()), sub), out)
    {
      out := [];
      if sub == 0 {
        rollover := rollover + 1;
        out := SetAdvData();
      }
    }

    /** The acks and the counter of a subevent are signed and handed over. */
    method SendAcks(sub: nat, acks: seq<u16>, total: nat) returns (out: seq<Packet>)
      requires Shaped() && Buffered() && |acks| == cfg.slots
      modifies subeventBuf, subeventBuf.store
      ensures Shaped() && Buffered() && Model() == old(Model())
      ensures Carry(mac, key, [Data(sub, acks, total)], out)
    {
      var m := BuildSubevent(mac, key, sub, acks, total, subeventBuf);
      CarryOne(mac, key, Data(sub, acks, total), OnSubevent(sub, m));
      out := [OnSubevent(sub, m)];
    }

    /** One iteration of the loop over subevents. */
    method VisitSubevent(sub: nat, acks: array<u16>) returns (out: seq<Packet>)
      requires Valid() && sub < cfg.subevents && acks.Length == cfg.slots
      modifies this`rollover, this`leaked, freeList`size, freeList.data, rspSlots, acks
      modifies advData, advData.store, subeventBuf, subeventBuf.store
      ensures Valid() && Model() == Step(cfg, old(Model()), Visit(sub))
      ensures Carry(mac, key, Emits(cfg, old(Model()), Visit(sub)), out)
    {
      ghost var was := Model();
      VisitIs(cfg, was, sub);
      out := BeginVisit(sub);
      AgeSubevent(sub, acks);
      var ids, total := acks[..], counter.value + rollover;
      assert [Data(sub, ids, total)] == [Data(sub, Acks(cfg, Model(), sub), Model().T())];
      var last := SendAcks(sub, ids, total);
      CarryMore(mac, key, Renewed(was, sub), out, [Data(sub, ids, total)], last);
      out := out + last;
    }

    /** A call from state `was` has made its Fold step and i visits, and handed over their messages. */
    ghost predicate Underway(was: Adv, start: u8, count: u8, i: nat, out: seq<Packet>)
      requires WF(cfg, was) && i <= Iterations(cfg, count)
      reads this, counter, registered, freeList, freeList.data, rspSlots, advData, subeventBuf
    {
      var done := RequestEvents(cfg, start, count)[..i + 1];
      && Valid() && AllInRange(cfg, done)
      && Model() == Exec(cfg, was, done) && Carry(mac, key, Sent(cfg, was, done), out)
    }

    method VisitNext(ghost was: Adv, start: u8, count: u8, i: nat, acks: array<u16>, before: seq<Packet>)
      returns (out: seq<Packet>)
      requires WF(cfg, was) && i < Iterations(cfg, count) && acks.Length == cfg.slots
      requires Underway(was, start, count, i, before)
      modifies this`rollover, this`leaked, freeList`size, freeList.data, rspSlots, acks
      modifies advData, advData.store, subeventBuf, subeventBuf.store
      ensures Underway(was, start, count, i + 1, out)
    {
      ghost var done, now := RequestEvents(cfg, start, count)[..i + 1], Model();
      NextStep(cfg, was, start, count, i);
      var more := VisitSubevent(Visited(cfg, start, i), acks);
      CarryMore(mac, key, Sent(cfg, was, done), before, Emits(cfg, now, Visit(Visited(cfg, start, i))), more);
      out := before + more;
    }

    /** The loop over the subevents asked for. */
    method VisitAll(ghost was: Adv, start: u8, count: u8, before: seq<Packet>) returns (out: seq<Packet>)
      requires WF(cfg, was) && Underway(was, start, count, 0, before)
      modifies this`rollover, this`leaked, freeList`size, freeList.data, rspSlots
      modifies advData, advData.store, subeventBuf, subeventBuf.store
      ensures Valid() && Model() == Exec(cfg, was, RequestEvents(cfg, start, count))
      ensures Carry(mac, key, Sent(cfg, was, RequestEvents(cfg, start, count)), out)
    {
      var acks := new u16[cfg.slots];
      out := before;
      for i := 0 to Iterations(cfg, count)
        invariant Underway(was, start, count, i, out)
      {
        out := VisitNext(was, start, count, i, acks, out);
      }
      ghost var es := RequestEvents(cfg, start, count);
      assert es[..|es|] == es;
    }

    method RequestCb(start: u8, count: u8) returns (out: seq<Packet>)
      requires Valid()
      modifies this`rollover, this`leaked, counter, freeList`size, freeList.data, rspSlots
      modifies advData, advData.store, subeventBuf, subeventBuf.store
      ensures Valid() && Model() == Exec(cfg, old(Model()), RequestEvents(cfg, start, count))
      ensures Carry(mac, key, Sent(cfg, old(Model()), RequestEvents(cfg, start, count)), out)
      ensures Serves(cfg, start, count, Served(out))
    {
      ghost var was := Model();
      if rollover > 0 {
        counter.value := counter.value + rollover;
        rollover := 0;
      }
      FirstStep(cfg, was, start, count);
      out := VisitAll(was, start, count, []);
      PacketsServe(mac, key, cfg, was, start, count, out);
    }

    // ---- response_cb ---------------------------------------------------------------------

    /** Finds the first advertised entry equal to l and puts a newly reserved slot in its place. */
    method Replace(l: Loc)
      requires Shaped() && WF(cfg, Model())
      modifies this`lastUsed, registered, freeList`size
      ensures Shaped() && Model() == Readvertise(cfg, old(Model()), l)
    {
      ghost var was := Model();
      for i := 0 to cfg.reserved
        invariant Shaped() && Model() == was && l !in was.reg[..i]
      {
        if l == registered[i] {
          FirstIndexIs(was.reg, l, i);
          var next := ReserveSlot();
          registered[i] := next;
          return;
        }
        assert was.reg[..i + 1] == was.reg[..i] + [was.reg[i]];
      }
      assert was.reg[..cfg.reserved] == was.reg;
      assert FirstIndex(was.reg, l) == None;
    }

    /** A verified response in a slot without an owner. */
    method Register(l: Loc, sender: u16)
      requires Shaped() && WF(cfg, Model()) && InGrid(cfg, l)
      modifies this`lastUsed, this`leaked, registered, freeList`size, rspSlots
      ensures Shaped() && Model() == Registered(cfg, old(Model()), l, sender)
    {
      SetSlot(l, Slot(sender, 0));
      leaked := leaked - {l};
      Replace(l);
    }

    /** A response that fails verification. */
    method RejectAt(l: Loc)
      requires Shaped() && WF(cfg, Model()) && InGrid(cfg, l)
      modifies this`leaked, freeList`size, freeList.data, rspSlots
      ensures Shaped() && Model() == Reject(cfg, old(Model()), l)
    {
      ghost var was := Model();
      var s := rspSlots[l.sub, l.slot];
      assert s == At(was, l);
      SetSlot(l, Slot(0, s.idle));
      ghost var lost := leaked;
      FreeSlot(l);
      if s.dev == 0 && |was.free| == cfg.capacity {
        leaked := lost;
        PutSame(cfg, was, l);
      }
    }

    /** Reads the sender of a response and puts the buffer back as it was; nothing if the message is too
        short, and then the buffer stays as far as it was read. */
    method PeekSender(buf: Buf) returns (sender: Option<u16>)
      requires buf.Valid()
      modifies buf`off, buf`len
      ensures buf.Valid() && sender.Some? == Peek(old(buf.Bytes())).Some?
      ensures sender.Some? ==> buf.Bytes() == old(buf.Bytes()) && sender.value == Peek(buf.Bytes()).value.sender
    {
      ghost var m := buf.Bytes();
      var state := buf.Save();
      if buf.len < HASH_LEN + COUNTER_LEN {
        return None;
      }
      var bs := buf.RemoveMem(HASH_LEN + COUNTER_LEN);
      assert buf.Bytes() == DropTail(m, HASH_LEN + COUNTER_LEN);
      var err, id, reading, payload := DeserializeReply(buf);
      if err != NoError {
        return None;
      }
      buf.Restore(state);
      sender := Some(id);
    }

    /** A response that was verified; the counter has moved already. */
    method AcceptAt(l: Loc, sender: u16) returns (out: seq<Packet>)
      requires Valid() && InGrid(cfg, l)
      modifies this`lastUsed, this`leaked, registered, freeList`size, rspSlots, advData, advData.store
      ensures Valid() && Model() == Credited(cfg, old(Model()), l, sender)
      ensures Carry(mac, key, Announced(cfg, old(Model()), l, sender), out)
    {
      ghost var was := Model();
      out := SetAdvData();
      var s := rspSlots[l.sub, l.slot];
      assert s == At(was, l);
      if s.dev == 0 {
        Register(l, sender);
        var more := SetAdvData();
        CarryMore(mac, key, [Advert(was.reg, was.c)], out, [Advert(Model().reg, Model().c)], more);
        out := out + more;
      } else if s.dev == sender {
        SetSlot(l, Slot(s.dev, 0));
      }
    }

    /** Verification under the key of the sender that was read: the counter moves if the response is
        accepted. */
    method CheckResponse(l: Loc, sender: u16, buf: Buf) returns (ok: bool)
      requires Valid() && buf.Valid() && Peek(buf.Bytes()).Some? && sender == Peek(buf.Bytes()).value.sender
      modifies counter, buf`len
      ensures ok <==> Accepted(old(Model()), EventOf(mac, minKey, l, old(buf.Bytes())))
      ensures Model() == if ok then old(Model()).(c := Peek(old(buf.Bytes())).value.counter) else old(Model())
    {
      AcceptedIsVerify(mac, minKey, l, buf.Bytes(), Model());
      var err, c := VerifyMessage(mac, KeyOf(minKey, sender), buf, counter.value);
      counter.value := c;
      ok := err == NoError;
    }

    method ResponseCb(l: Loc, buf: Buf?) returns (out: seq<Packet>)
      requires Valid() && InGrid(cfg, l)
      requires buf != null ==> buf.Valid() && buf !in {advData, subeventBuf}
                               && buf.store !in {advData.store, subeventBuf.store}
      modifies this`lastUsed, this`leaked, counter, registered, freeList`size, freeList.data, rspSlots
      modifies advData, advData.store, if buf == null then {} else {buf}
      ensures Valid()
      ensures var e := if buf == null then Noop else EventOf(mac, minKey, l, old(buf.Bytes()));
        Model() == Step(cfg, old(Model()), e) && Carry(mac, key, Emits(cfg, old(Model()), e), out)
    {
      ghost var was := Model();
      out := [];
      if buf == null {
        return;
      }
      ghost var m := buf.Bytes();
      var sender := PeekSender(buf);
      if sender == None {
        return;
      }
      ResponseIs(cfg, was, EventOf(mac, minKey, l, m));
      var ok := CheckResponse(l, sender.value, buf);
      if !ok {
        RejectAt(l);
        return;
      }
      out := AcceptAt(l, sender.value);
    }

    // ---- start-up and reboot -------------------------------------------------------------

    method InitBufs()
      requires Shaped() && PoweredOn()
      modifies this`lastUsed, registered, freeList`size
      ensures Shaped() && Model() == Boot(cfg, 0)
    {
      for i := 0 to cfg.reserved
        invariant Shaped() && Model() == Booting(cfg, i)
      {
        BootingIsWF(cfg, i);
        var l := ReserveSlot();
        registered[i] := l;
        BootingNext(cfg, i);
      }
      BootingIsWF(cfg, cfg.reserved);
    }

    /** The part of `init` that the model covers. */
    method Init(flash: Flash, random: nat) returns (out: seq<Packet>)
      requires Shaped() && Buffered() && PoweredOn()
      requires flash.cell.Some? ==> |flash.cell.value| <= 8
      modifies this`lastUsed, counter, registered, freeList`size, advData, advData.store, flash
      ensures Valid() && Model() == Boot(cfg, StartsAt(old(flash.cell), random))
      ensures Carry(mac, key, [Advert(Model().reg, Model().c)], out)
    {
      InitBufs();
      counter.Init(flash, random);
      out := SetAdvData();
    }

    method SoftReboot(flash: Flash)
      requires Valid()
      modifies flash
      ensures Valid() && Model() == old(Model()) && flash.cell == Some(Le(STORED_LEN, Model().c))
    {
      counter.Commit(flash);
    }
  }

  /** The button: commit, cold start, initialise. It is the Reboot step. */
  method Restart(before: Advertiser, flash: Flash, random: nat) returns (after: Advertiser, out: seq<Packet>)
    requires before.Valid()
    modifies flash
    ensures fresh(after) && after.cfg == before.cfg && after.Valid()
    ensures after.Model() == Step(before.cfg, before.Model(), Reboot)
    ensures Carry(before.mac, before.key, Emits(before.cfg, before.Model(), Reboot), out)
  {
    before.SoftReboot(flash);
    after := new Advertiser(before.cfg, before.mac, before.key, before.minKey, before.structSize);
    CommitThenInit(before.counter.value);
    out := after.Init(flash, random);
  }
}
