// `lib/transfer`: signing, verifying, and the serializers and deserializers, on buffers.
module Transfer {
  import opened Words
  import opened Protocol
  import opened Wire
  import opened WireLaws
  import opened NetBuf

  // ---- signing and verifying -------------------------------------------------------------

  /** Appends the hash of the buffer's content under a key. Without that key the space for the hash is
      claimed all the same. */
  method SignMessage(mac: Mac, key: nat, buf: Buf) returns (err: Err)
    requires buf.Valid() && buf.Room() >= HASH_LEN
    modifies buf`len, buf.store
    ensures buf.Valid() && buf.Room() == old(buf.Room()) - HASH_LEN
    ensures err == if mac(key, old(buf.Bytes())).Some? then NoError else CouldntComputeMac
    ensures |buf.Bytes()| == |old(buf.Bytes())| + HASH_LEN && DropTail(buf.Bytes(), HASH_LEN) == old(buf.Bytes())
    ensures err == NoError ==> Tail(buf.Bytes(), HASH_LEN) == mac(key, old(buf.Bytes())).value
  {
    ghost var was := buf.Bytes();
    var hashable := buf.store[buf.off..buf.off + buf.len];
    var at := buf.Add(HASH_LEN);
    match mac(key, hashable)
    case None =>
      err := CouldntComputeMac;
    case Some(tag) =>
      forall i | 0 <= i < HASH_LEN {
        buf.store[at + i] := tag[i];
      }
      assert buf.store[at..at + HASH_LEN] == tag;
      assert DropTail(buf.Bytes(), HASH_LEN) == was;
      err := NoError;
  }

  method VerifyMessage(mac: Mac, key: nat, buf: Buf, counter: nat) returns (err: Err, counter': nat)
    requires buf.Valid()
    modifies buf`len
    ensures buf.Valid()
    ensures Verdict(err, buf.Bytes(), counter') == Verify(mac, key, old(buf.Bytes()), counter)
  {
    counter' := counter;
    ghost var m := buf.Bytes();
    if buf.len < HASH_LEN {
      return MessageTooShort, counter;
    }
    var hash := buf.RemoveMem(HASH_LEN);
    assert buf.Bytes() == DropTail(m, HASH_LEN) && hash == Tail(m, HASH_LEN);
    match mac(key, buf.store[buf.off..buf.off + buf.len])
    case None =>
      err := CouldntComputeMac;
    case Some(tag) =>
      if tag != hash {
        return InvalidHash, counter;
      }
      ghost var body := buf.Bytes();
      if buf.len < COUNTER_LEN {
        return MessageTooShort, counter;
      }
      var bs := buf.RemoveMem(COUNTER_LEN);
      assert buf.Bytes() == DropTail(body, COUNTER_LEN) && bs == Tail(body, COUNTER_LEN);
      var remote := FromLe(bs);
      if remote < counter {
        return CounterDidntMatch, counter;
      }
      if remote > counter {
        counter' := remote;
      }
      err := NoError;
  }

  lemma RegroupThree(was: seq<u8>, a: seq<u8>, b: seq<u8>, c: seq<u8>)
    ensures was + a + b + c == was + (a + b + c)
  {
  }

  lemma RegroupFive(was: seq<u8>, a: seq<u8>, b: seq<u8>, c: seq<u8>, d: seq<u8>, e: seq<u8>)
    ensures was + a + b + c + d + e == was + (a + b + c + d + e)
  {
  }

  // ---- serializers -----------------------------------------------------------------------

  method SerializeLoc(l: Loc, buf: Buf)
    requires buf.Valid() && buf.Room() >= 2
    modifies buf`len, buf.store
    ensures buf.Valid() && buf.Room() == old(buf.Room()) - 2
    ensures buf.Bytes() == old(buf.Bytes()) + [l.sub, l.slot]
  {
    buf.AddU8(l.sub);
    buf.AddU8(l.slot);
  }

  method SerializeLocs(reg: seq<Loc>, buf: Buf)
    requires buf.Valid() && buf.Room() >= 2 * |reg|
    modifies buf`len, buf.store
    ensures buf.Valid() && buf.Room() == old(buf.Room()) - 2 * |reg|
    ensures buf.Bytes() == old(buf.Bytes()) + EncLocs(reg)
  {
    for i := 0 to |reg|
      invariant buf.Valid() && buf.Room() == old(buf.Room()) - 2 * i
      invariant buf.Bytes() == old(buf.Bytes()) + EncLocs(reg[..i])
    {
      SerializeLoc(reg[i], buf);
      assert reg[..i + 1][..i] == reg[..i];
    }
    assert reg[..|reg|] == reg;
  }

  /** `advertisement_data_serialize`. */
  method SerializeAdvert(reg: seq<Loc>, counter: nat, buf: Buf)
    requires |reg| < 256 && buf.Valid() && buf.Room() >= 2 * |reg| + 9
    modifies buf`len, buf.store
    ensures buf.Valid() && buf.Room() == old(buf.Room()) - (2 * |reg| + 9)
    ensures buf.Bytes() == old(buf.Bytes()) + WithCounter(EncAdvert(reg), counter)
  {
    ghost var was := buf.Bytes();
    SerializeLocs(reg, buf);
    buf.AddU8(|reg|);
    buf.AddLe(COUNTER_LEN, counter);
    RegroupThree(was, EncLocs(reg), [|reg|], Le(COUNTER_LEN, counter));
  }

  method SerializeIds(acks: seq<u16>, buf: Buf)
    requires buf.Valid() && buf.Room() >= 2 * |acks|
    modifies buf`len, buf.store
    ensures buf.Valid() && buf.Room() == old(buf.Room()) - 2 * |acks|
    ensures buf.Bytes() == old(buf.Bytes()) + EncIds(acks)
  {
    for i := 0 to |acks|
      invariant buf.Valid() && buf.Room() == old(buf.Room()) - 2 * i
      invariant buf.Bytes() == old(buf.Bytes()) + EncIds(acks[..i])
    {
      buf.AddLe(2, acks[i]);
      assert acks[..i + 1][..i] == acks[..i];
    }
    assert acks[..|acks|] == acks;
  }

  /** `subevent_data_with_reg_serialize`. */
  method SerializeSubevent(reg: seq<Loc>, acks: seq<u16>, counter: nat, buf: Buf)
    requires buf.Valid() && buf.Room() >= 2 * |reg| + 2 * |acks| + 8
    modifies buf`len, buf.store
    ensures buf.Valid() && buf.Room() == old(buf.Room()) - (2 * |reg| + 2 * |acks| + 8)
    ensures buf.Bytes() == old(buf.Bytes()) + WithCounter(EncSubevent(reg, acks), counter)
  {
    ghost var was := buf.Bytes();
    SerializeLocs(reg, buf);
    SerializeIds(acks, buf);
    buf.AddLe(COUNTER_LEN, counter);
    RegroupThree(was, EncLocs(reg), EncIds(acks), Le(COUNTER_LEN, counter));
  }

  /** `response_data_serialize`. */
  method SerializeReply(q: Reply, buf: Buf)
    requires |q.payload| < 256 && buf.Valid() && buf.Room() >= |q.payload| + 15
    modifies buf`len, buf.store
    ensures buf.Valid() && buf.Room() == old(buf.Room()) - (|q.payload| + 15)
    ensures buf.Bytes() == old(buf.Bytes()) + WithCounter(EncReply(q), q.counter)
  {
    ghost var was := buf.Bytes();
    buf.AddLe(2, q.sender);
    buf.AddLe(4, q.reading);
    buf.AddMem(q.payload);
    buf.AddU8(|q.payload|);
    buf.AddLe(COUNTER_LEN, q.counter);
    RegroupFive(was, Le(2, q.sender), Le(4, q.reading), q.payload, [|q.payload|], Le(COUNTER_LEN, q.counter));
  }

  // ---- deserializers ---------------------------------------------------------------------

  /** `advertisement_data_deserialize`; the entries stay where they are in the buffer. */
  method DeserializeAdvert(buf: Buf) returns (err: Err, reg: seq<Loc>)
    requires buf.Valid()
    modifies buf`off, buf`len
    ensures buf.Valid()
    ensures Decoded(err, if err == NoError then Some(reg) else None, buf.Bytes()) == DecAdvert(old(buf.Bytes()))
  {
    ghost var m := buf.Bytes();
    reg := [];
    if buf.len < 1 {
      return MessageTooShort, [];
    }
    var k := buf.RemoveU8();
    ghost var m1 := buf.Bytes();
    assert m1 == DropTail(m, 1) && k == LastByte(m);
    if buf.len < 2 * k as int {
      return MessageTooShort, [];
    }
    var entries := buf.PullMem(2 * k as int);
    assert entries == m1[..2 * k as int] && buf.Bytes() == m1[2 * k as int..];
    err, reg := NoError, ReadLocs(entries);
  }

  /** `net_buf_simple_remove_le16`. */
  method RemoveLe16(buf: Buf) returns (x: u16)
    requires buf.Valid() && buf.len >= 2
    modifies buf`len
    ensures buf.Valid() && buf.Bytes() == DropTail(old(buf.Bytes()), 2) && x == Num16(Tail(old(buf.Bytes()), 2))
  {
    ghost var m := buf.Bytes();
    var bs := buf.RemoveMem(2);
    assert buf.Bytes() == DropTail(m, 2) && bs == Tail(m, 2);
    x := Num16(bs);
  }

  method RemoveLe32(buf: Buf) returns (x: u32)
    requires buf.Valid() && buf.len >= 4
    modifies buf`len
    ensures buf.Valid() && buf.Bytes() == DropTail(old(buf.Bytes()), 4) && x == Num32(Tail(old(buf.Bytes()), 4))
  {
    ghost var m := buf.Bytes();
    var bs := buf.RemoveMem(4);
    assert buf.Bytes() == DropTail(m, 4) && bs == Tail(m, 4);
    x := Num32(bs);
  }

  /** `register_data_deserialize`: the slot number comes off first. */
  method DeserializeLoc(buf: Buf) returns (err: Err, l: Loc)
    requires buf.Valid()
    modifies buf`len
    ensures buf.Valid()
    ensures err == if |old(buf.Bytes())| >= 2 then NoError else MessageTooShort
    ensures err == NoError ==>
      buf.Bytes() == DropTail(old(buf.Bytes()), 2) && [l.sub, l.slot] == Tail(old(buf.Bytes()), 2)
    ensures err != NoError ==> buf.Bytes() == old(buf.Bytes())
  {
    if buf.len < 2 {
      return MessageTooShort, Loc(0, 0);
    }
    ghost var m := buf.Bytes();
    var slot := buf.RemoveU8();
    var sub := buf.RemoveU8();
    assert m == buf.Bytes() + [sub] + [slot];
    assert buf.Bytes() == DropTail(m, 2) && [sub, slot] == Tail(m, 2);
    err, l := NoError, Loc(sub, slot);
  }

  /** Reads n ids off the end of the buffer into the first n elements of an array, last one first. */
  method ReadIdsBack(buf: Buf, n: nat, ids: array<u16>)
    requires buf.Valid() && buf.len >= 2 * n && n <= ids.Length
    modifies buf`len, ids
    ensures buf.Valid() && buf.Bytes() == DropTail(old(buf.Bytes()), 2 * n)
    ensures ids[..n] == ReadIds(Tail(old(buf.Bytes()), 2 * n))
  {
    ghost var m := buf.Bytes();
    ghost var low := |m| - 2 * n;
    var i := n;
    while i > 0
      invariant 0 <= i <= n && buf.Valid() && buf.Bytes() == m[..low + 2 * i]
      invariant forall k :: i <= k < n ==> ids[k] == Num16(m[low + 2 * k..low + 2 * k + 2])
    {
      i := i - 1;
      ids[i] := RemoveLe16(buf);
    }
    ghost var tail := Tail(m, 2 * n);
    forall k | 0 <= k < n
      ensures ids[..n][k] == Num16(tail[2 * k..2 * k + 2])
    {
      assert tail[2 * k..2 * k + 2] == m[low + 2 * k..low + 2 * k + 2];
    }
    IdsAre(tail, ids[..n]);
  }

  /** Reads register entries off the end of the buffer, last one first, until r are read or the buffer has
      fewer than two bytes. */
  method ReadLocsBack(buf: Buf, r: nat, regs: array<Loc>) returns (err: Err)
    requires buf.Valid() && r <= regs.Length
    modifies buf`len, regs
    ensures buf.Valid() && err == if |old(buf.Bytes())| >= 2 * r then NoError else MessageTooShort
    ensures err != NoError ==> buf.Bytes() == old(buf.Bytes())[..|old(buf.Bytes())| % 2]
    ensures err == NoError ==> buf.Bytes() == DropTail(old(buf.Bytes()), 2 * r)
    ensures err == NoError ==> var tail := Tail(old(buf.Bytes()), 2 * r);
      forall k :: 0 <= k < r ==> regs[k] == Loc(tail[2 * k], tail[2 * k + 1])
  {
    ghost var m := buf.Bytes();
    ghost var low := |m| - 2 * r;
    var i := r;
    while i > 0
      invariant 0 <= i <= r && 0 <= low + 2 * i && buf.Valid() && buf.Bytes() == m[..low + 2 * i]
      invariant forall k :: i <= k < r ==> regs[k] == Loc(m[low + 2 * k], m[low + 2 * k + 1])
    {
      var l;
      err, l := DeserializeLoc(buf);
      if err != NoError {
        assert |m| % 2 == low + 2 * i;
        return;
      }
      i := i - 1;
      assert [l.sub, l.slot] == Tail(m[..low + 2 * i + 2], 2);
      regs[i] := l;
    }
    err := NoError;
  }

  /** `subevent_data_with_reg_deserialize`, with the counts the caller has set. */
  method DeserializeSubevent(buf: Buf, r: nat, n: nat, regs: array<Loc>, acks: array<u16>) returns (err: Err)
    requires buf.Valid() && r <= regs.Length && n <= acks.Length
    modifies buf`len, regs, acks
    ensures buf.Valid()
    ensures Decoded(err, if err == NoError then Some(Subevent(regs[..r], acks[..n])) else None, buf.Bytes())
      == DecSubevent(old(buf.Bytes()), r, n)
  {
    if buf.len < 2 * n {
      return MessageTooShort;
    }
    ReadIdsBack(buf, n, acks);
    ghost var ids, m1 := acks[..n], buf.Bytes();
    err := ReadLocsBack(buf, r, regs);
    assert acks[..n] == ids;
    if err == NoError {
      LocsAre(Tail(m1, 2 * r), regs[..r]);
    }
  }

  /** `response_data_deserialize`; the counter field is not its business. */
  method DeserializeReply(buf: Buf) returns (err: Err, sender: u16, reading: u32, payload: seq<u8>)
    requires buf.Valid()
    modifies buf`len
    ensures buf.Valid()
    ensures forall counter ::
      Decoded(err, if err == NoError then Some(Reply(sender, reading, payload, counter)) else None, buf.Bytes())
      == DecReply(old(buf.Bytes()), counter)
  {
    ghost var m := buf.Bytes();
    sender, reading, payload := 0, 0, [];
    if buf.len < 1 {
      return MessageTooShort, 0, 0, [];
    }
    var n: nat := buf.RemoveU8();
    ghost var m1 := buf.Bytes();
    assert m1 == DropTail(m, 1) && n == LastByte(m);
    if buf.len < n + 2 + 4 {
      return MessageTooShort, 0, 0, [];
    }
    payload := buf.RemoveMem(n);
    ghost var m2 := buf.Bytes();
    assert m2 == DropTail(m1, n) && payload == Tail(m1, n);
    reading := RemoveLe32(buf);
    sender := RemoveLe16(buf);
    assert buf.Bytes() == DropTail(m2, 6);
    err := NoError;
  }
}
