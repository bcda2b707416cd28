// Building one message from scratch in a buffer.
module Building {
  import opened Words
  import opened Protocol
  import opened Wire
  import opened Frames
  import opened NetBuf
  import opened Transfer

  /** The message part of `set_adv_data`. */
  method BuildAdvert(mac: Mac, key: nat, reg: seq<Loc>, counter: nat, buf: Buf) returns (m: seq<u8>)
    requires |reg| < 256 && buf.Valid() && buf.store.Length >= 2 * |reg| + 41
    modifies buf, buf.store
    ensures buf.Valid() && TxFrame(mac, key, Advert(reg, counter), m)
  {
    buf.Reset();
    SerializeAdvert(reg, counter, buf);
    assert buf.Bytes() == WithCounter(EncAdvert(reg), counter);
    var err := SignMessage(mac, key, buf);
    m := buf.store[buf.off..buf.off + buf.len];
  }

  /** The message part of `request_cb`; no register entries are ever sent there. */
  method BuildSubevent(mac: Mac, key: nat, sub: nat, acks: seq<u16>, counter: nat, buf: Buf) returns (m: seq<u8>)
    requires buf.Valid() && buf.store.Length >= 2 * |acks| + 40
    modifies buf, buf.store
    ensures buf.Valid() && TxFrame(mac, key, Data(sub, acks, counter), m)
  {
    buf.Reset();
    SerializeSubevent([], acks, counter, buf);
    assert buf.Bytes() == WithCounter(EncSubevent([], acks), counter);
    var err := SignMessage(mac, key, buf);
    m := buf.store[buf.off..buf.off + buf.len];
  }

  /** The message part of `set_rsp_data`. */
  method BuildReply(mac: Mac, key: nat, r: Rsp, buf: Buf) returns (m: seq<u8>)
    requires |r.payload| < 256 && buf.Valid() && buf.store.Length >= |r.payload| + 47
    modifies buf, buf.store
    ensures buf.Valid() && RspFrame(mac, key, r, m)
  {
    buf.Reset();
    SerializeReply(ReplyOf(r), buf);
    assert buf.Bytes() == WithCounter(EncReply(ReplyOf(r)), r.counter);
    var err := SignMessage(mac, key, buf);
    m := buf.store[buf.off..buf.off + buf.len];
  }
}
