// Lists related element by element.
module Pairing {

  ghost predicate Paired<A(!new), B(!new)>(r: (A, B) -> bool, xs: seq<A>, ys: seq<B>) {
    |xs| == |ys| && forall i :: 0 <= i < |xs| ==> r(xs[i], ys[i])
  }

  lemma PairedAppend<A(!new), B(!new)>(r: (A, B) -> bool, xs: seq<A>, ys: seq<B>, xs': seq<A>, ys': seq<B>)
    requires Paired(r, xs, ys) && Paired(r, xs', ys')
    ensures Paired(r, xs + xs', ys + ys')
  {
  }
}

// Messages as bytes: what a device puts on the air for each message, and what it makes of a byte string.
module Frames {
  import opened Pairing
  import opened Words
  import opened Protocol
  import opened AdvertiserModel
  import opened ScannerModel
  import opened Wire
  import opened WireLaws

  /** m is a message followed by its hash; if the device lacks the key, by 32 bytes of anything. */
  predicate Hashed(mac: Mac, key: nat, message: seq<u8>, m: seq<u8>) {
    && |m| == |message| + HASH_LEN
    && DropTail(m, HASH_LEN) == message
    && (mac(key, message).Some? ==> Tail(m, HASH_LEN) == mac(key, message).value)
  }

  function TxMessage(tx: Tx): seq<u8>
    requires tx.Advert? ==> |tx.reg| < 256
  {
    match tx
    case Advert(reg, counter) => WithCounter(EncAdvert(reg), counter)
    case Data(_, acks, counter) => WithCounter(EncSubevent([], acks), counter)
  }

  predicate TxFrame(mac: Mac, key: nat, tx: Tx, m: seq<u8>) {
    (tx.Advert? ==> |tx.reg| < 256) && Hashed(mac, key, TxMessage(tx), m)
  }

  /** What a device hands to its host: advertising data, the data of a subevent, or a response. */
  datatype Packet =
    | Advertising(bytes: seq<u8>)
    | OnSubevent(sub: nat, bytes: seq<u8>)
    | InSlot(loc: Loc, bytes: seq<u8>)

  predicate Carries(mac: Mac, key: nat, tx: Tx, p: Packet) {
    && TxFrame(mac, key, tx, p.bytes)
    && (tx.Advert? ==> p.Advertising?)
    && (tx.Data? ==> p.OnSubevent? && p.sub == tx.sub)
  }

  function Carrier(mac: Mac, key: nat): (Tx, Packet) -> bool {
    (tx, p) => Carries(mac, key, tx, p)
  }

  /** The packets of a callback, one for each message. */
  ghost predicate Carry(mac: Mac, key: nat, txs: seq<Tx>, out: seq<Packet>) {
    Paired(Carrier(mac, key), txs, out)
  }

  function ReplyOf(r: Rsp): Reply { Reply(r.sender, r.reading, r.payload, r.counter) }

  predicate RspFrame(mac: Mac, key: nat, r: Rsp, m: seq<u8>) {
    |r.payload| < 256 && Hashed(mac, key, WithCounter(EncReply(ReplyOf(r)), r.counter), m)
  }

  /** A scanner hands over its answer, if there is one, for the slot it is meant for. */
  predicate Answers(mac: Mac, key: nat, answer: Option<Rsp>, out: seq<Packet>) {
    match answer
    case None => out == []
    case Some(r) => |out| == 1 && RspFrame(mac, key, r, out[0].bytes) && out[0] == InSlot(r.loc, out[0].bytes)
  }

  /** Key of the scanner with a given id in the advertiser's store: MIN_SCANNER_KEY_ID and up. */
  function KeyOf(minKey: nat, sender: u16): nat
    requires minKey > 0
  {
    minKey + sender - 1
  }

  /** What `response_cb` makes of a byte string that arrives in a slot. */
  function EventOf(mac: Mac, minKey: nat, l: Loc, m: seq<u8>): Event
    requires minKey > 0
  {
    match Peek(m)
    case None => Noop
    case Some(q) =>
      Response(l, q.sender, mac(KeyOf(minKey, q.sender), DropTail(m, HASH_LEN)) == Some(Tail(m, HASH_LEN)), q.counter)
  }

  /** The subevents that packets are meant for, in order. */
  function Served(out: seq<Packet>): seq<nat> {
    if |out| == 0 then []
    else Served(out[..|out| - 1]) + if out[|out| - 1].OnSubevent? then [out[|out| - 1].sub] else []
  }

  function DataSubs(txs: seq<Tx>): seq<nat> {
    if |txs| == 0 then []
    else DataSubs(txs[..|txs| - 1]) + if txs[|txs| - 1].Data? then [txs[|txs| - 1].sub] else []
  }

  /** The acks of a verified message, if it has room for them. */
  function AcksIn(rest: seq<u8>, slots: nat): Option<seq<u16>> {
    match DecSubevent(rest, 0, slots).value
    case None => None
    case Some(d) => Some(d.acks)
  }

  /** What a receive callback makes of a byte string. */
  function ReceptionOf(mac: Mac, key: nat, slots: nat, m: seq<u8>): Reception {
    var v := Verify(mac, key, m, 0);
    if v.err != NoError then Garbage
    else Signed(v.counter, AcksIn(v.rest, slots))
  }

  /** What `parse_adv_data` makes of manufacturer data. */
  function ReportOf(mac: Mac, key: nat, m: seq<u8>): (r: Report)
    ensures !r.Bare?
  {
    var v := Verify(mac, key, m, 0);
    if v.err != NoError then Forged
    else match DecAdvert(v.rest).value
      case None => Ad([], v.counter)
      case Some(reg) => Ad(reg, v.counter)
  }
}

// The bytes one device sends are to the other device the message that was meant.
module FrameLaws {
  import opened Pairing
  import opened Words
  import opened Protocol
  import opened AdvertiserModel
  import opened ScannerModel
  import opened Wire
  import opened WireLaws
  import opened Frames

  lemma HashedIsSealed(mac: Mac, key: nat, body: seq<u8>, counter: nat, m: seq<u8>)
    requires Hashed(mac, key, WithCounter(body, counter), m) && mac(key, WithCounter(body, counter)).Some?
    ensures m == Sealed(mac, key, body, counter)
  {
    Rejoin(m, HASH_LEN);
  }

  /** A signed advertisement fits a buffer of a struct and a hash exactly if the struct is at least 2k + 9
      bytes long: for the firmware's 16 bytes, with at most 3 slots on offer. */
  lemma AdvertFits(mac: Mac, key: nat, reg: seq<Loc>, counter: nat, m: seq<u8>, structSize: nat)
    requires TxFrame(mac, key, Advert(reg, counter), m)
    ensures |m| <= structSize + HASH_LEN <==> 2 * |reg| + 9 <= structSize
    ensures |m| <= 16 + HASH_LEN <==> |reg| <= 3
  {
    assert |m| == |TxMessage(Advert(reg, counter))| + HASH_LEN == 2 * |reg| + 1 + COUNTER_LEN + HASH_LEN;
  }

  lemma CarryOne(mac: Mac, key: nat, tx: Tx, p: Packet)
    requires Carries(mac, key, tx, p)
    ensures Carry(mac, key, [tx], [p])
  {
    assert Carrier(mac, key)(tx, p);
  }

  lemma CarryMore(mac: Mac, key: nat, txs: seq<Tx>, out: seq<Packet>, txs': seq<Tx>, out': seq<Packet>)
    requires Carry(mac, key, txs, out) && Carry(mac, key, txs', out')
    ensures Carry(mac, key, txs + txs', out + out')
  {
    PairedAppend(Carrier(mac, key), txs, out, txs', out');
  }

  /** Packets are handed over for the subevents their messages were built for. */
  lemma {:induction false} CarriedToSubevents(mac: Mac, key: nat, txs: seq<Tx>, out: seq<Packet>)
    requires Carry(mac, key, txs, out)
    ensures Served(out) == DataSubs(txs)
  {
    if |out| > 0 {
      var n := |out| - 1;
      assert Paired(Carrier(mac, key), txs[..n], out[..n]);
      CarriedToSubevents(mac, key, txs[..n], out[..n]);
      assert Carrier(mac, key)(txs[n], out[n]);
    }
  }

  lemma {:induction false} DataSubsAppend(xs: seq<Tx>, ys: seq<Tx>)
    ensures DataSubs(xs + ys) == DataSubs(xs) + DataSubs(ys)
  {
    if |ys| == 0 {
      assert xs + ys == xs;
    } else {
      DataSubsAppend(xs, ys[..|ys| - 1]);
      assert (xs + ys)[..|xs| + |ys| - 1] == xs + ys[..|ys| - 1];
    }
  }

  lemma EventOfPeeked(mac: Mac, minKey: nat, l: Loc, m: seq<u8>, q: Reply)
    requires minKey > 0 && Peek(m) == Some(q)
    ensures |m| >= HASH_LEN
    ensures EventOf(mac, minKey, l, m) ==
      Response(l, q.sender, mac(minKey + q.sender - 1, DropTail(m, HASH_LEN)) == Some(Tail(m, HASH_LEN)), q.counter)
  {
  }

  /** A scanner's response, signed under the key the advertiser keeps for its id, is to the advertiser an
      authentic response of that scanner with that counter, in the slot it arrives in. */
  lemma ResponseArrives(adv: Mac, minKey: nat, scanner: Mac, key: nat, r: Rsp, m: seq<u8>)
    requires minKey > 0 && r.counter < 0x1_0000_0000_0000_0000
    requires RspFrame(scanner, key, r, m)
    requires var signed := WithCounter(EncReply(ReplyOf(r)), r.counter);
      scanner(key, signed).Some? && adv(minKey + r.sender - 1, signed) == scanner(key, signed)
    ensures EventOf(adv, minKey, r.loc, m) == Response(r.loc, r.sender, true, r.counter)
  {
    PeekOfSigned(m, ReplyOf(r));
    EventOfPeeked(adv, minKey, r.loc, m, ReplyOf(r));
  }

  /** A subevent message that was signed under the advertiser's key is to a scanner the acks and the
      counter that were sent. */
  lemma DataArrives(adv: Mac, scanner: Mac, key: nat, tx: Tx, m: seq<u8>)
    requires tx.Data? && tx.counter < 0x1_0000_0000_0000_0000 && TxFrame(adv, key, tx, m)
    requires adv(key, TxMessage(tx)).Some? && scanner(key, TxMessage(tx)) == adv(key, TxMessage(tx))
    ensures ReceptionOf(scanner, key, |tx.acks|, m) == Signed(tx.counter, Some(tx.acks))
  {
    HashedIsSealed(scanner, key, EncSubevent([], tx.acks), tx.counter, m);
    SubeventRoundTrip(scanner, key, [], tx.acks, tx.counter, 0);
  }

  /** Likewise an advertisement and the slots it offers. */
  lemma AdvertArrives(adv: Mac, scanner: Mac, key: nat, tx: Tx, m: seq<u8>)
    requires tx.Advert? && tx.counter < 0x1_0000_0000_0000_0000 && TxFrame(adv, key, tx, m)
    requires adv(key, TxMessage(tx)).Some? && scanner(key, TxMessage(tx)) == adv(key, TxMessage(tx))
    ensures ReportOf(scanner, key, m) == Ad(tx.reg, tx.counter)
  {
    HashedIsSealed(scanner, key, EncAdvert(tx.reg), tx.counter, m);
    AdvertRoundTrip(scanner, key, tx.reg, tx.counter, 0);
  }

  /** The counter check does not depend on where the hash check is made: a message verifies at a scanner
      exactly when it is signed and its counter is not below the scanner's, and the counter it moves to is
      the message's. */
  lemma VerifiesIsVerify(mac: Mac, key: nat, slots: nat, m: seq<u8>, s: Scn)
    ensures var v, rx := Verify(mac, key, m, s.counter), ReceptionOf(mac, key, slots, m);
      && (v.err == NoError <==> Verifies(s, rx))
      && v.counter == (if v.err == NoError then rx.counter else s.counter)
      && (v.err == NoError ==> rx.acks == AcksIn(v.rest, slots))
  {
  }

  lemma ReportIsVerify(mac: Mac, key: nat, m: seq<u8>, counter: nat)
    ensures var v, report := Verify(mac, key, m, counter), ReportOf(mac, key, m);
      && (v.err == NoError <==> report.Ad? && counter <= report.counter)
      && v.counter == (if v.err == NoError then report.counter else counter)
      && (v.err == NoError && report.reg != [] ==> DecAdvert(v.rest).value == Some(report.reg))
  {
  }

  /** Each scanner has a key of its own: scanner 1 the first one, and no two scanners the same. */
  lemma KeysAreApart(minKey: nat, s: u16, t: u16)
    requires minKey > 0 && s != 0 && t != 0
    ensures KeyOf(minKey, 1) == minKey && minKey <= KeyOf(minKey, s)
    ensures KeyOf(minKey, s) == KeyOf(minKey, t) <==> s == t
  {
  }

  lemma AnswersAreSigned(mac: Mac, key: nat, answer: Option<Rsp>, out: seq<Packet>)
    requires Answers(mac, key, answer, out)
    ensures |out| == (if answer.Some? then 1 else 0)
    ensures answer.Some? ==> out[0].InSlot? && out[0].loc == answer.value.loc
    ensures answer.Some? ==>
      |out[0].bytes| >= HASH_LEN && Hashed(mac, key, DropTail(out[0].bytes, HASH_LEN), out[0].bytes)
  {
  }

  lemma UnverifiedIsIgnored(mac: Mac, key: nat, m: seq<u8>, cfg: Cfg, id: u16, sub: u8, s: Scn)
    requires WFS(cfg, s) && Possible(cfg, s, Receive(sub, ReceptionOf(mac, key, cfg.slots, m)))
    requires Verify(mac, key, m, s.counter).err != NoError
    ensures var e := Receive(sub, ReceptionOf(mac, key, cfg.slots, m));
      Answer(cfg, id, s, e) == None && ScnStep(cfg, id, s, e).counter == s.counter
  {
    VerifiesIsVerify(mac, key, cfg.slots, m, s);
  }

  /** The two ways of looking at a response agree: it is accepted exactly when `verify_message` succeeds
      under the key of the sender peeked at. */
  lemma AcceptedIsVerify(mac: Mac, minKey: nat, l: Loc, m: seq<u8>, a: Adv)
    requires minKey > 0 && Peek(m).Some?
    ensures var v := Verify(mac, minKey + Peek(m).value.sender - 1, m, a.c);
      && (v.err == NoError <==> Accepted(a, EventOf(mac, minKey, l, m)))
      && (v.err == NoError ==> v.counter == Peek(m).value.counter)
      && (v.err != NoError ==> v.counter == a.c)
  {
    PeekIsAuthentic(mac, s => KeyOf(minKey, s), m, a.c);
    VerifyOutcome(mac, KeyOf(minKey, Peek(m).value.sender), m, a.c);
  }
}
