// The wire format: what each message looks like as bytes, and what decoding a byte string gives.
module Wire {
  import opened Words
  import opened Protocol

  const HASH_LEN := 32
  const COUNTER_LEN := 8

  /** `transfer_error_t`. */
  datatype Err = NoError | CouldntComputeMac | MessageTooShort | InvalidHash | CounterDidntMatch

  /** HMAC-SHA256 as a device computes it: any deterministic function of key id and message, with 32-byte
      results; None when the device has no such key. */
  type Mac = f: (nat, seq<u8>) -> Option<seq<u8>> |
    forall k, m :: f(k, m).Some? ==> |f(k, m).value| == HASH_LEN
    ghost witness (k, m) => None

  /** `response_data_t`. */
  datatype Reply = Reply(sender: u16, reading: u32, payload: seq<u8>, counter: nat)

  // ---- encoding --------------------------------------------------------------------------

  function EncLocs(ls: seq<Loc>): (bs: seq<u8>)
    ensures |bs| == 2 * |ls|
  {
    if |ls| == 0 then [] else EncLocs(ls[..|ls| - 1]) + [ls[|ls| - 1].sub, ls[|ls| - 1].slot]
  }

  function EncIds(ids: seq<u16>): (bs: seq<u8>)
    ensures |bs| == 2 * |ids|
  {
    if |ids| == 0 then [] else EncIds(ids[..|ids| - 1]) + Le(2, ids[|ids| - 1])
  }

  /** Body of an extended advertisement. */
  function EncAdvert(reg: seq<Loc>): seq<u8>
    requires |reg| < 256
  {
    EncLocs(reg) + [|reg|]
  }

  /** Body of a subevent message. */
  function EncSubevent(reg: seq<Loc>, acks: seq<u16>): seq<u8> {
    EncLocs(reg) + EncIds(acks)
  }

  /** Body of a response. */
  function EncReply(q: Reply): seq<u8>
    requires |q.payload| < 256
  {
    Le(2, q.sender) + Le(4, q.reading) + q.payload + [|q.payload|]
  }

  /** A body with its counter: what is signed. */
  function WithCounter(body: seq<u8>, counter: nat): seq<u8> {
    body + Le(COUNTER_LEN, counter)
  }

  /** A body as it is sent, when the key is there. */
  function Sealed(mac: Mac, key: nat, body: seq<u8>, counter: nat): seq<u8>
    requires mac(key, WithCounter(body, counter)).Some?
  {
    WithCounter(body, counter) + mac(key, WithCounter(body, counter)).value
  }

  // ---- verification and decoding ---------------------------------------------------------

  /** The last byte, a length. */
  function LastByte(m: seq<u8>): nat
    requires |m| > 0
  {
    m[|m| - 1]
  }

  function Tail(m: seq<u8>, n: nat): seq<u8>
    requires n <= |m|
  {
    m[|m| - n..]
  }

  function DropTail(m: seq<u8>, n: nat): seq<u8>
    requires n <= |m|
  {
    m[..|m| - n]
  }

  /** Outcome of `verify_message`: the error, what is left of the message, and the receiver's counter. */
  datatype Verdict = Verdict(err: Err, rest: seq<u8>, counter: nat)

  function Verify(mac: Mac, key: nat, m: seq<u8>, counter: nat): Verdict {
    if |m| < HASH_LEN then Verdict(MessageTooShort, m, counter)
    else
      var body := DropTail(m, HASH_LEN);
      match mac(key, body)
      case None => Verdict(CouldntComputeMac, body, counter)
      case Some(tag) =>
        if tag != Tail(m, HASH_LEN) then Verdict(InvalidHash, body, counter)
        else if |body| < COUNTER_LEN then Verdict(MessageTooShort, body, counter)
        else
          var remote := FromLe(Tail(body, COUNTER_LEN));
          var rest := DropTail(body, COUNTER_LEN);
          if remote < counter then Verdict(CounterDidntMatch, rest, counter) else Verdict(NoError, rest, remote)
  }

  function ReadLocs(bs: seq<u8>): (ls: seq<Loc>)
    ensures |ls| == |bs| / 2
  {
    if |bs| < 2 then [] else ReadLocs(DropTail(bs, 2)) + [Loc(bs[|bs| - 2], bs[|bs| - 1])]
  }

  /** Two bytes as a little-endian number. */
  function Num16(bs: seq<u8>): u16
    requires |bs| == 2
  {
    bs[0] + 0x100 * bs[1] as int
  }

  function Num32(bs: seq<u8>): u32
    requires |bs| == 4
  {
    bs[0] + 0x100 * bs[1] as int + 0x1_0000 * bs[2] as int + 0x100_0000 * bs[3] as int
  }

  function ReadIds(bs: seq<u8>): (ids: seq<u16>)
    ensures |ids| == |bs| / 2
  {
    if |bs| < 2 then [] else ReadIds(DropTail(bs, 2)) + [Num16(Tail(bs, 2))]
  }

  /** Outcome of a deserializer: a value unless there is an error, and what is left of the message. */
  datatype Decoded<T> = Decoded(err: Err, value: Option<T>, rest: seq<u8>)

  datatype Subevent = Subevent(reg: seq<Loc>, acks: seq<u16>)

  function DecAdvert(m: seq<u8>): Decoded<seq<Loc>> {
    if |m| < 1 then Decoded(MessageTooShort, None, m)
    else
      var k := LastByte(m);
      var m1 := DropTail(m, 1);
      if |m1| < 2 * k then Decoded(MessageTooShort, None, m1)
      else Decoded(NoError, Some(ReadLocs(m1[..2 * k])), m1[2 * k..])
  }

  /** `subevent_data_with_reg_deserialize` asked for r register entries and n acks. */
  function DecSubevent(m: seq<u8>, r: nat, n: nat): Decoded<Subevent> {
    if |m| < 2 * n then Decoded(MessageTooShort, None, m)
    else
      var m1 := DropTail(m, 2 * n);
      if |m1| < 2 * r then Decoded(MessageTooShort, None, m1[..|m1| % 2])
      else Decoded(NoError, Some(Subevent(ReadLocs(Tail(m1, 2 * r)), ReadIds(Tail(m, 2 * n)))), DropTail(m1, 2 * r))
  }

  /** The decoder does not see the counter, which verification has taken off; it is passed in. */
  function DecReply(m: seq<u8>, counter: nat): Decoded<Reply> {
    if |m| < 1 then Decoded(MessageTooShort, None, m)
    else
      var n := LastByte(m);
      var m1 := DropTail(m, 1);
      if |m1| < n + 6 then Decoded(MessageTooShort, None, m1)
      else
        var m2 := DropTail(m1, n);
        Decoded(NoError, Some(Reply(Num16(Tail(DropTail(m2, 4), 2)), Num32(Tail(m2, 4)), Tail(m1, n), counter)),
          DropTail(m2, 6))
  }
}
