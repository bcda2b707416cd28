// Encoding and decoding are inverse, and verification authenticates what was decoded.
module WireLaws {
  import opened Words
  import opened Protocol
  import opened Wire

  lemma SplitTail(a: seq<u8>, b: seq<u8>)
    ensures DropTail(a + b, |b|) == a && Tail(a + b, |b|) == b
  {
  }

  lemma Rejoin(m: seq<u8>, k: nat)
    requires k <= |m|
    ensures m == DropTail(m, k) + Tail(m, k)
  {
  }

  lemma Regroup(a: seq<u8>, b: seq<u8>, c: seq<u8>)
    ensures (a + b) + c == a + (b + c)
  {
  }

  lemma NumsAreLittleEndian(bs: seq<u8>)
    ensures |bs| == 2 ==> Num16(bs) == FromLe(bs)
    ensures |bs| == 4 ==> Num32(bs) == FromLe(bs)
  {
    if |bs| == 2 {
      assert FromLe(bs[1..]) == bs[1];
    } else if |bs| == 4 {
      var b1 := bs[1..];
      var b2 := b1[1..];
      assert FromLe(b2) == bs[2] + 256 * bs[3] as int by {
        assert FromLe(b2[1..]) == bs[3];
      }
      assert FromLe(b1) == bs[1] + 256 * FromLe(b2);
    }
  }

  lemma Num16OfLe(x: u16)
    ensures Num16(Le(2, x)) == x
  {
    NumsAreLittleEndian(Le(2, x));
    FromLeOfLe(2, x);
    Pow256Values();
  }

  lemma Num32OfLe(x: u32)
    ensures Num32(Le(4, x)) == x
  {
    NumsAreLittleEndian(Le(4, x));
    FromLeOfLe(4, x);
    Pow256Values();
  }

  lemma LeOfNums(bs: seq<u8>)
    ensures |bs| == 2 ==> Le(2, Num16(bs)) == bs
    ensures |bs| == 4 ==> Le(4, Num32(bs)) == bs
  {
    NumsAreLittleEndian(bs);
    LeOfFromLe(bs);
  }

  // ---- lists -----------------------------------------------------------------------------

  lemma {:induction false} ReadLocsSnoc(bs: seq<u8>, l: Loc)
    ensures ReadLocs(bs + [l.sub, l.slot]) == ReadLocs(bs) + [l]
  {
    SplitTail(bs, [l.sub, l.slot]);
  }

  lemma {:induction false} EncLocsSnoc(ls: seq<Loc>, l: Loc)
    ensures EncLocs(ls + [l]) == EncLocs(ls) + [l.sub, l.slot]
  {
    assert (ls + [l])[..|ls|] == ls;
  }

  lemma {:induction false} LocsRoundTrip(ls: seq<Loc>)
    ensures ReadLocs(EncLocs(ls)) == ls
  {
    if |ls| > 0 {
      var init, last := ls[..|ls| - 1], ls[|ls| - 1];
      assert ls == init + [last];
      LocsRoundTrip(init);
      EncLocsSnoc(init, last);
      ReadLocsSnoc(EncLocs(init), last);
    }
  }

  lemma {:induction false} LocsParse(bs: seq<u8>, n: nat)
    requires |bs| == 2 * n
    ensures EncLocs(ReadLocs(bs)) == bs
  {
    if n > 0 {
      var init, last := DropTail(bs, 2), Loc(bs[|bs| - 2], bs[|bs| - 1]);
      assert bs == init + [last.sub, last.slot];
      LocsParse(init, n - 1);
      ReadLocsSnoc(init, last);
      EncLocsSnoc(ReadLocs(init), last);
    }
  }

  lemma {:induction false} ReadIdsSnoc(bs: seq<u8>, id: seq<u8>)
    requires |id| == 2
    ensures ReadIds(bs + id) == ReadIds(bs) + [Num16(id)]
  {
    SplitTail(bs, id);
  }

  lemma {:induction false} EncIdsSnoc(ids: seq<u16>, id: u16)
    ensures EncIds(ids + [id]) == EncIds(ids) + Le(2, id)
  {
    assert (ids + [id])[..|ids|] == ids;
  }

  lemma {:induction false} IdsRoundTrip(ids: seq<u16>)
    ensures ReadIds(EncIds(ids)) == ids
  {
    if |ids| > 0 {
      var init, last := ids[..|ids| - 1], ids[|ids| - 1];
      assert ids == init + [last];
      IdsRoundTrip(init);
      EncIdsSnoc(init, last);
      ReadIdsSnoc(EncIds(init), Le(2, last));
      Num16OfLe(last);
    }
  }

  lemma {:induction false} IdsParse(bs: seq<u8>, n: nat)
    requires |bs| == 2 * n
    ensures EncIds(ReadIds(bs)) == bs
  {
    if n > 0 {
      var init, last := DropTail(bs, 2), Tail(bs, 2);
      Rejoin(bs, 2);
      IdsParse(init, n - 1);
      ReadIdsSnoc(init, last);
      EncIdsSnoc(ReadIds(init), Num16(last));
      LeOfNums(last);
    }
  }

  /** The k-th entry of a list is where its bytes stand. */
  lemma {:induction false} ReadLocsAt(bs: seq<u8>, k: nat)
    requires 2 * k + 1 < |bs| && |bs| % 2 == 0
    ensures ReadLocs(bs)[k] == Loc(bs[2 * k], bs[2 * k + 1])
  {
    if 2 * k + 2 < |bs| {
      ReadLocsAt(DropTail(bs, 2), k);
    }
  }

  lemma {:induction false} ReadIdsAt(bs: seq<u8>, k: nat)
    requires 2 * k + 1 < |bs| && |bs| % 2 == 0
    ensures ReadIds(bs)[k] == Num16(bs[2 * k..2 * k + 2])
  {
    if 2 * k + 2 < |bs| {
      ReadIdsAt(DropTail(bs, 2), k);
      assert DropTail(bs, 2)[2 * k..2 * k + 2] == bs[2 * k..2 * k + 2];
    }
  }

  /** A list is known by its entries. */
  lemma LocsAre(bs: seq<u8>, ls: seq<Loc>)
    requires |bs| == 2 * |ls|
    requires forall k :: 0 <= k < |ls| ==> ls[k] == Loc(bs[2 * k], bs[2 * k + 1])
    ensures ls == ReadLocs(bs)
  {
    forall k | 0 <= k < |ls|
      ensures ls[k] == ReadLocs(bs)[k]
    {
      ReadLocsAt(bs, k);
    }
  }

  lemma IdsAre(bs: seq<u8>, ids: seq<u16>)
    requires |bs| == 2 * |ids|
    requires forall k :: 0 <= k < |ids| ==> ids[k] == Num16(bs[2 * k..2 * k + 2])
    ensures ids == ReadIds(bs)
  {
    forall k | 0 <= k < |ids|
      ensures ids[k] == ReadIds(bs)[k]
    {
      ReadIdsAt(bs, k);
    }
  }

  // ---- sealed messages -------------------------------------------------------------------

  /** Whatever body is sealed under a key, verification under that key gives it back and moves the
      receiver's counter to the sent one, if and only if the receiver's counter is not above it. */
  lemma SealedVerifies(mac: Mac, key: nat, body: seq<u8>, sent: nat, counter: nat)
    requires mac(key, WithCounter(body, sent)).Some? && sent < 0x1_0000_0000_0000_0000
    ensures Verify(mac, key, Sealed(mac, key, body, sent), counter) ==
      if counter <= sent then Verdict(NoError, body, sent) else Verdict(CounterDidntMatch, body, counter)
  {
    var tag := mac(key, WithCounter(body, sent)).value;
    assert DropTail(Sealed(mac, key, body, sent), HASH_LEN) == WithCounter(body, sent)
        && Tail(Sealed(mac, key, body, sent), HASH_LEN) == tag by {
      SplitTail(WithCounter(body, sent), tag);
    }
    assert DropTail(WithCounter(body, sent), COUNTER_LEN) == body
        && Tail(WithCounter(body, sent), COUNTER_LEN) == Le(COUNTER_LEN, sent) by {
      SplitTail(body, Le(COUNTER_LEN, sent));
    }
    assert FromLe(Le(COUNTER_LEN, sent)) == sent by {
      FromLeOfLe(COUNTER_LEN, sent);
      Pow256Values();
    }
  }

  /** Verification succeeds exactly on messages with a matching hash and a counter not below the
      receiver's. Whatever happens, only bytes at the end are consumed, and a failure leaves the
      receiver's counter alone. */
  lemma VerifyOutcome(mac: Mac, key: nat, m: seq<u8>, counter: nat)
    ensures var v := Verify(mac, key, m, counter);
      && |v.rest| <= |m| && v.rest == m[..|v.rest|]
      && (v.err != NoError ==> v.counter == counter)
      && (v.err == NoError <==>
          && |m| >= HASH_LEN + COUNTER_LEN
          && mac(key, DropTail(m, HASH_LEN)) == Some(Tail(m, HASH_LEN))
          && counter <= FromLe(Tail(DropTail(m, HASH_LEN), COUNTER_LEN)))
  {
  }

  /** A message that verifies is what is left of it, sealed with the counter that was taken. */
  lemma VerifiedIsSealed(mac: Mac, key: nat, m: seq<u8>, counter: nat)
    requires Verify(mac, key, m, counter).err == NoError
    ensures var v := Verify(mac, key, m, counter);
      && mac(key, WithCounter(v.rest, v.counter)).Some?
      && m == Sealed(mac, key, v.rest, v.counter) && counter <= v.counter
  {
    var body := DropTail(m, HASH_LEN);
    Rejoin(m, HASH_LEN);
    Rejoin(body, COUNTER_LEN);
    LeOfFromLe(Tail(body, COUNTER_LEN));
  }

  // ---- round trips -----------------------------------------------------------------------

  /** Subevent messages, of 2R + 2A + 40 bytes. */
  lemma SubeventRoundTrip(mac: Mac, key: nat, reg: seq<Loc>, acks: seq<u16>, sent: nat, counter: nat)
    requires mac(key, WithCounter(EncSubevent(reg, acks), sent)).Some?
    requires counter <= sent < 0x1_0000_0000_0000_0000
    ensures var m := Sealed(mac, key, EncSubevent(reg, acks), sent);
      && |m| == 2 * |reg| + 2 * |acks| + 40
      && var v := Verify(mac, key, m, counter);
      && v.err == NoError && v.counter == sent
      && DecSubevent(v.rest, |reg|, |acks|) == Decoded(NoError, Some(Subevent(reg, acks)), [])
  {
    SealedVerifies(mac, key, EncSubevent(reg, acks), sent, counter);
    SplitTail(EncLocs(reg), EncIds(acks));
    SplitTail([], EncLocs(reg));
    LocsRoundTrip(reg);
    IdsRoundTrip(acks);
    assert [] + EncLocs(reg) == EncLocs(reg);
  }

  /** Advertisements, of 2k + 41 bytes. */
  lemma AdvertRoundTrip(mac: Mac, key: nat, reg: seq<Loc>, sent: nat, counter: nat)
    requires |reg| < 256 && mac(key, WithCounter(EncAdvert(reg), sent)).Some?
    requires counter <= sent < 0x1_0000_0000_0000_0000
    ensures var m := Sealed(mac, key, EncAdvert(reg), sent);
      && |m| == 2 * |reg| + 41
      && var v := Verify(mac, key, m, counter);
      && v.err == NoError && v.counter == sent && DecAdvert(v.rest) == Decoded(NoError, Some(reg), [])
  {
    SealedVerifies(mac, key, EncAdvert(reg), sent, counter);
    SplitTail(EncLocs(reg), [|reg|]);
    LocsRoundTrip(reg);
    assert EncLocs(reg)[..2 * |reg|] == EncLocs(reg);
  }

  lemma ReplyParts(m1: seq<u8>, id: seq<u8>, num: seq<u8>, payload: seq<u8>)
    requires |id| == 2 && |num| == 4 && m1 == id + num + payload
    ensures var m2 := DropTail(m1, |payload|);
      Tail(m1, |payload|) == payload && Tail(m2, 4) == num && Tail(DropTail(m2, 4), 2) == id && DropTail(m2, 6) == []
  {
    SplitTail(id + num, payload);
    SplitTail(id, num);
  }

  /** Responses, of data_len + 47 bytes. */
  lemma ReplyRoundTrip(mac: Mac, key: nat, q: Reply, counter: nat)
    requires |q.payload| < 256 && mac(key, WithCounter(EncReply(q), q.counter)).Some?
    requires counter <= q.counter < 0x1_0000_0000_0000_0000
    ensures var m := Sealed(mac, key, EncReply(q), q.counter);
      && |m| == |q.payload| + 47
      && var v := Verify(mac, key, m, counter);
      && v.err == NoError && v.counter == q.counter && DecReply(v.rest, v.counter) == Decoded(NoError, Some(q), [])
  {
    SealedVerifies(mac, key, EncReply(q), q.counter, counter);
    ReplyDecodes(q);
  }

  lemma ReplyDecodes(q: Reply)
    requires |q.payload| < 256
    ensures DecReply(EncReply(q), q.counter) == Decoded(NoError, Some(q), [])
  {
    var m1 := Le(2, q.sender) + Le(4, q.reading) + q.payload;
    SplitTail(m1, [|q.payload|]);
    ReplyParts(m1, Le(2, q.sender), Le(4, q.reading), q.payload);
    Num16OfLe(q.sender);
    Num32OfLe(q.reading);
  }

  // ---- print after parse -----------------------------------------------------------------

  lemma RegroupReply(rest: seq<u8>, id: seq<u8>, num: seq<u8>, payload: seq<u8>, n: seq<u8>)
    ensures rest + id + num + payload + n == rest + (id + num + payload + n)
  {
  }

  lemma ReplyRejoins(m: seq<u8>, n: nat)
    requires |m| >= n + 7
    ensures var m1 := DropTail(m, 1);
      var m2 := DropTail(m1, n);
      m == DropTail(m2, 6) + (Tail(DropTail(m2, 4), 2) + Tail(m2, 4) + Tail(m1, n) + Tail(m, 1))
  {
    var m1 := DropTail(m, 1);
    var m2 := DropTail(m1, n);
    Rejoin(m, 1);
    Rejoin(m1, n);
    Rejoin(m2, 4);
    Rejoin(DropTail(m2, 4), 2);
    assert DropTail(DropTail(m2, 4), 2) == DropTail(m2, 6);
    RegroupReply(DropTail(m2, 6), Tail(DropTail(m2, 4), 2), Tail(m2, 4), Tail(m1, n), Tail(m, 1));
  }

  /** A decoded response re-encodes to exactly the bytes that were consumed; decoding fails exactly when
      there are fewer bytes than the last one announces. */
  lemma ReplyParse(m: seq<u8>, counter: nat)
    ensures var d := DecReply(m, counter);
      && (d.err == NoError <==> d.value.Some?)
      && (d.err == NoError <==> |m| >= 1 && |m| >= LastByte(m) + 7)
      && (d.err == NoError ==> |d.value.value.payload| < 256 && m == d.rest + EncReply(d.value.value))
  {
    if |m| >= 1 && |m| >= LastByte(m) + 7 {
      var n := LastByte(m);
      var m2 := DropTail(DropTail(m, 1), n);
      LeOfNums(Tail(m2, 4));
      LeOfNums(Tail(DropTail(m2, 4), 2));
      ReplyRejoins(m, n);
      assert Tail(m, 1) == [n];
    }
  }

  /** A decoded subevent body re-encodes to exactly the bytes that were consumed; decoding fails exactly
      when there are fewer bytes than the entries asked for. */
  lemma SubeventParse(m: seq<u8>, r: nat, n: nat)
    ensures var d := DecSubevent(m, r, n);
      && (d.err == NoError <==> d.value.Some?)
      && (d.err == NoError <==> |m| >= 2 * r + 2 * n)
      && (d.err == NoError ==>
          && |d.value.value.reg| == r && |d.value.value.acks| == n
          && m == d.rest + EncSubevent(d.value.value.reg, d.value.value.acks))
  {
    if |m| >= 2 * r + 2 * n {
      var m1 := DropTail(m, 2 * n);
      LocsParse(Tail(m1, 2 * r), r);
      IdsParse(Tail(m, 2 * n), n);
      Rejoin(m, 2 * n);
      Rejoin(m1, 2 * r);
      Regroup(DropTail(m1, 2 * r), Tail(m1, 2 * r), Tail(m, 2 * n));
    }
  }

  lemma AdvertParts(m: seq<u8>, k: nat)
    requires |m| >= 2 * k + 1 && k == LastByte(m)
    ensures var m1 := DropTail(m, 1);
      m == EncLocs(ReadLocs(m1[..2 * k])) + m1[2 * k..] + [LastByte(m)]
  {
    var m1 := DropTail(m, 1);
    LocsParse(m1[..2 * k], k);
    assert m1 == m1[..2 * k] + m1[2 * k..];
    assert m == m1 + [m[|m| - 1]];
  }

  /** Advertisements are read from the front, so they re-encode to the message exactly when nothing is
      left over. */
  lemma AdvertParse(m: seq<u8>)
    ensures var d := DecAdvert(m);
      && (d.err == NoError <==> d.value.Some?)
      && (d.err == NoError <==> |m| >= 1 && |m| >= 2 * LastByte(m) + 1)
      && (d.err == NoError ==>
          && |d.value.value| == LastByte(m) && m == EncLocs(d.value.value) + d.rest + [LastByte(m)]
          && (m == EncAdvert(d.value.value) <==> |m| == 2 * LastByte(m) + 1))
  {
    if |m| >= 1 && |m| >= 2 * LastByte(m) + 1 {
      var d := DecAdvert(m);
      AdvertParts(m, LastByte(m));
      if |m| == 2 * LastByte(m) + 1 {
        assert EncLocs(d.value.value) + d.rest == EncLocs(d.value.value);
      }
    }
  }

  // ---- peeking ---------------------------------------------------------------------------

  /** What `response_cb` reads before it knows whose key to use: the message without counter and hash. */
  function Peek(m: seq<u8>): Option<Reply> {
    if |m| < HASH_LEN + COUNTER_LEN then None
    else DecReply(DropTail(m, HASH_LEN + COUNTER_LEN), FromLe(Tail(DropTail(m, HASH_LEN), COUNTER_LEN))).value
  }

  /** If the message then verifies under the key of the peeked sender, the peeked reply is exactly what was
      sealed under that key, possibly after some leading bytes, and the counter moves to its counter. */
  lemma PeekIsAuthentic(mac: Mac, keyOf: u16 -> nat, m: seq<u8>, counter: nat)
    requires Peek(m).Some?
    ensures var q := Peek(m).value;
      var v := Verify(mac, keyOf(q.sender), m, counter);
      && |q.payload| < 256
      && (v.err == NoError ==>
          && v.counter == q.counter
          && exists lead ::
            && mac(keyOf(q.sender), WithCounter(lead + EncReply(q), q.counter)).Some?
            && m == Sealed(mac, keyOf(q.sender), lead + EncReply(q), q.counter))
  {
    var q := Peek(m).value;
    var v := Verify(mac, keyOf(q.sender), m, counter);
    var body := DropTail(m, HASH_LEN + COUNTER_LEN);
    ReplyParse(body, q.counter);
    if v.err == NoError {
      VerifiedIsSealed(mac, keyOf(q.sender), m, counter);
      assert v.rest == body == DecReply(body, q.counter).rest + EncReply(q);
    }
  }

  /** If what a message's hash covers is the encoding of reply q, peeking gives q. So under the ideal rule,
      that only what a key's holder signed verifies under it, an accepted response is one its sender
      signed. */
  lemma PeekOfSigned(m: seq<u8>, q: Reply)
    requires |q.payload| < 256 && q.counter < 0x1_0000_0000_0000_0000
    requires |m| >= HASH_LEN && DropTail(m, HASH_LEN) == WithCounter(EncReply(q), q.counter)
    ensures Peek(m) == Some(q)
  {
    SplitTail(EncReply(q), Le(COUNTER_LEN, q.counter));
    FromLeOfLe(COUNTER_LEN, q.counter);
    Pow256Values();
    ReplyDecodes(q);
    assert DropTail(m, HASH_LEN + COUNTER_LEN) == EncReply(q);
  }

  /** Peeking succeeds exactly on messages with room for hash, counter, length byte, as much payload as that
      byte says, and the two numbers. */
  lemma PeekNeeds(m: seq<u8>)
    ensures Peek(m).Some? <==> |m| >= 47 && |m| - 47 >= m[|m| - 41]
  {
    if |m| >= 41 {
      assert LastByte(DropTail(m, 40)) == m[|m| - 41];
    }
  }
}

// Where each field stands in a message.
module WireLayout {
  import opened Words
  import opened Protocol
  import opened Wire

  lemma {:induction false} LocBytes(ls: seq<Loc>, i: nat)
    requires i < |ls|
    ensures EncLocs(ls)[2 * i] == ls[i].sub && EncLocs(ls)[2 * i + 1] == ls[i].slot
  {
    if i < |ls| - 1 {
      LocBytes(ls[..|ls| - 1], i);
    }
  }

  lemma {:induction false} IdBytes(ids: seq<u16>, i: nat)
    requires i < |ids|
    ensures EncIds(ids)[2 * i] == ids[i] % 256 && EncIds(ids)[2 * i + 1] == ids[i] / 256
  {
    if i < |ids| - 1 {
      IdBytes(ids[..|ids| - 1], i);
    } else {
      TwoBytes(ids[i]);
    }
  }

  lemma TwoBytes(x: u16)
    ensures Le(2, x) == [x % 256, x / 256]
  {
    assert Le(1, x / 256) == [(x / 256) % 256] + Le(0, x / 256 / 256);
  }

  /** The j-th byte of a little-endian number counts units of 256 to the power j. */
  lemma {:induction false} NumberBytes(n: nat, v: nat, j: nat)
    requires j < n
    ensures j == 0 ==> Le(n, v)[j] == v % 256
    ensures j > 0 ==> Le(n, v)[j] == Le(n - 1, v / 256)[j - 1]
  {
  }

  /** A subevent message without register entries: two bytes for each ack, low byte first, then the counter. */
  lemma SubeventLayout(acks: seq<u16>, counter: nat, i: nat)
    requires i < |acks|
    ensures var m := WithCounter(EncSubevent([], acks), counter);
      && |m| == 2 * |acks| + 8 && m[2 * |acks|..] == Le(8, counter)
      && m[2 * i] == acks[i] % 256 && m[2 * i + 1] == acks[i] / 256
  {
    IdBytes(acks, i);
  }

  /** An advertisement: subevent and slot of each entry, the number of entries, the counter. */
  lemma AdvertLayout(reg: seq<Loc>, counter: nat, i: nat)
    requires i < |reg| < 256
    ensures var m := WithCounter(EncAdvert(reg), counter);
      && |m| == 2 * |reg| + 9 && m[2 * |reg|] == |reg| && m[2 * |reg| + 1..] == Le(8, counter)
      && m[2 * i] == reg[i].sub && m[2 * i + 1] == reg[i].slot
  {
    LocBytes(reg, i);
  }

  /** A response: id, reading, payload, length of the payload, counter. */
  lemma ReplyLayout(q: Reply)
    requires |q.payload| < 256
    ensures var m, n := WithCounter(EncReply(q), q.counter), |q.payload|;
      && |m| == n + 15
      && m[0] == q.sender % 256 && m[1] == q.sender / 256 && m[2..6] == Le(4, q.reading)
      && m[6..6 + n] == q.payload && m[6 + n] == n && m[7 + n..] == Le(8, q.counter)
  {
    TwoBytes(q.sender);
  }
}
