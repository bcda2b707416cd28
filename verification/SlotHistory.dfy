// What the owner and silence fields of a slot mean in terms of everything that happened to it.
// Nothing here asks a run to be clean.
module SlotHistory {
  import opened Words
  import opened Protocol
  import opened AdvertiserModel

  /** What a step of the advertiser does to one slot. */
  datatype Beat =
    | Visited            // its subevent is visited
    | Credited(dev: u16) // a response is accepted there from its owner, or from the device that thereby owns it
    | Refused            // a response there fails verification
    | Cleared            // reboot
    | Elsewhere          // anything else

  function BeatOf(a: Adv, e: Event, l: Loc): Beat {
    match e
    case Visit(sub) => if sub == l.sub then Visited else Elsewhere
    case Response(at, sender, _, _) =>
      if at != l then Elsewhere
      else if Rejected(a, e) then Refused
      else if At(a, l).dev == 0 || At(a, l).dev == sender then Credited(sender)
      else Elsewhere
    case Reboot => Cleared
    case _ => Elsewhere
  }

  function After(s: Slot, b: Beat): Slot {
    match b
    case Visited => Age(s)
    case Credited(d) => Slot(d, 0)
    case Refused => Slot(0, s.idle)
    case Cleared => Slot(0, 0)
    case Elsewhere => s
  }

  /** A slot's table entry changes by its beats alone. */
  lemma SlotFollowsBeat(cfg: Cfg, a: Adv, e: Event, l: Loc)
    requires WF(cfg, a) && InRange(cfg, e) && InGrid(cfg, l)
    ensures At(Step(cfg, a, e), l) == After(At(a, l), BeatOf(a, e, l))
  {
  }

  ghost function History(t: Run, l: Loc): (h: seq<Beat>)
    ensures |h| == |t.events|
    ensures forall i :: 0 <= i < |h| ==> h[i] == BeatOf(t.states[i], t.events[i], l)
  {
    seq(|t.events|, i requires 0 <= i < |t.events| => BeatOf(t.states[i], t.events[i], l))
  }

  /** The successive table entries of slot l. */
  ghost function Track(t: Run, l: Loc): (s: seq<Slot>)
    ensures |s| == |t.states|
    ensures forall i :: 0 <= i < |s| ==> s[i] == At(t.states[i], l)
  {
    seq(|t.states|, i requires 0 <= i < |t.states| => At(t.states[i], l))
  }

  ghost predicate Follows(s: seq<Slot>, h: seq<Beat>) {
    && |s| == |h| + 1
    && s[0] == Slot(0, 0)
    && (forall i {:trigger h[i]} :: 0 <= i < |h| ==> s[i + 1] == After(s[i], h[i]))
    && (forall i :: 0 <= i < |h| && h[i].Credited? ==> s[i].dev == 0 || s[i].dev == h[i].dev)
  }

  lemma TrackFollows(t: Run, l: Loc)
    requires InGrid(t.cfg, l)
    ensures Follows(Track(t, l), History(t, l))
  {
    forall i | 0 <= i < |t.events|
      ensures Track(t, l)[i + 1] == After(Track(t, l)[i], History(t, l)[i])
    {
      assert t.Moves(i);
      SlotFollowsBeat(t.cfg, t.states[i], t.events[i], l);
    }
  }

  // ---- silence and acks ------------------------------------------------------------------

  /** Visits among the first i beats since the last accepted response. */
  function Silence(h: seq<Beat>, i: nat): nat
    requires i <= |h|
  {
    if i == 0 || h[i - 1].Credited? || h[i - 1].Cleared? then 0
    else Silence(h, i - 1) + if h[i - 1].Visited? then 1 else 0
  }

  /** Some beat among the first i credited a response of device d, and no visit came since. */
  ghost predicate Responded(h: seq<Beat>, i: nat, d: u16)
    requires i <= |h|
  {
    exists m :: 0 <= m < i && h[m] == Credited(d) &&
      forall k :: m < k < i ==> !h[k].Visited? && !h[k].Cleared?
  }

  lemma RespondedStep(h: seq<Beat>, i: nat, d: u16)
    requires i < |h|
    ensures Responded(h, i + 1, d) <==>
      h[i] == Credited(d) || (Responded(h, i, d) && !h[i].Visited? && !h[i].Cleared?)
  {
    if h[i] == Credited(d) {
      assert Responded(h, i + 1, d);
    } else if Responded(h, i + 1, d) {
      var m :| 0 <= m < i + 1 && h[m] == Credited(d) &&
        forall k :: m < k < i + 1 ==> !h[k].Visited? && !h[k].Cleared?;
      assert m < i;
    }
  }

  /** The silence count of an occupied slot is the number of visits since its last accepted response,
      and stays at most 9; it is 0 exactly while an accepted response waits to be acked. */
  lemma {:induction false} IdleIsSilence(s: seq<Slot>, h: seq<Beat>, i: nat)
    requires Follows(s, h) && i <= |h|
    ensures s[i].dev != 0 ==> s[i].idle == Silence(h, i) <= 9
    ensures s[i].dev != 0 && s[i].idle == 0 ==> Responded(h, i, s[i].dev)
    ensures forall d :: Responded(h, i, d) ==> s[i].idle == 0
  {
    if i > 0 {
      IdleIsSilence(s, h, i - 1);
      assert s[i] == After(s[i - 1], h[i - 1]);
      forall d: u16
        ensures Responded(h, i, d) ==> s[i].idle == 0
      {
        RespondedStep(h, i - 1, d);
      }
      RespondedStep(h, i - 1, s[i].dev);
    }
  }

  /** A visit acks device d exactly when d owns the slot and has responded since the previous visit. */
  lemma AckMeansResponded(s: seq<Slot>, h: seq<Beat>, i: nat, d: u16)
    requires Follows(s, h) && i < |h| && h[i].Visited? && d != 0
    ensures AckOf(Age(s[i])) == d <==> s[i].dev == d && Responded(h, i, d)
    ensures AckOf(Age(s[i])) == d ==> s[i + 1].dev == d
  {
    IdleIsSilence(s, h, i);
  }

  /** The ack for a slot reads its entry after ageing. */
  lemma AckReadsSlot(cfg: Cfg, a: Adv, l: Loc)
    requires WF(cfg, a) && InGrid(cfg, l)
    ensures var sent := Emits(cfg, a, Visit(l.sub));
      && |sent| > 0 && sent[|sent| - 1].Data? && |sent[|sent| - 1].acks| == cfg.slots
      && sent[|sent| - 1].acks[l.slot] == AckOf(Age(At(a, l)))
  {
    var b := Step(cfg, a, Visit(l.sub));
    assert At(b, l) == Age(At(a, l));
    assert Acks(cfg, b, l.sub)[l.slot] == AckOf(At(b, l));
  }

  /** The ack ledger: a subevent message acks device d in a slot exactly when d owned the slot as the
      message was built and had a response accepted there since the previous visit. */
  lemma AckLedger(t: Run, i: nat, l: Loc, d: u16)
    requires i < |t.events| && InGrid(t.cfg, l)
    requires t.events[i] == Visit(l.sub) && d != 0
    ensures t.Moves(i)
    ensures var sent := Emits(t.cfg, t.states[i], t.events[i]);
      && |sent| > 0 && sent[|sent| - 1].Data? && |sent[|sent| - 1].acks| == t.cfg.slots
      && (sent[|sent| - 1].acks[l.slot] == d <==>
          Track(t, l)[i].dev == d && Responded(History(t, l), i, d))
      && (sent[|sent| - 1].acks[l.slot] == d ==> Track(t, l)[i + 1].dev == d)
  {
    TrackFollows(t, l);
    AckMeansResponded(Track(t, l), History(t, l), i, d);
    RunWF(t, i);
    AckReadsSlot(t.cfg, t.states[i], l);
  }

  // ---- ownership -------------------------------------------------------------------------

  /** Beat i takes the slot from whoever owns it: a failed verification in that slot, the tenth visit in
      a row without an accepted response, or a reboot. */
  predicate Releases(h: seq<Beat>, i: nat)
    requires i < |h|
  {
    h[i].Refused? || (h[i].Visited? && Silence(h, i) == 9) || h[i].Cleared?
  }

  /** The next owner of a slot: nobody after a release, the sender of a credited response, or else the
      same device as before. */
  lemma OwnerAfter(s: seq<Slot>, h: seq<Beat>, i: nat)
    requires Follows(s, h) && i < |h|
    ensures s[i + 1].dev ==
      if Releases(h, i) then 0 else if h[i].Credited? then h[i].dev else s[i].dev
  {
    IdleIsSilence(s, h, i);
  }

  lemma {:induction false} ReleaseBetween(s: seq<Slot>, h: seq<Beat>, i: nat, j: nat)
    requires Follows(s, h) && i <= j <= |h|
    requires s[i].dev != 0 && s[i].dev != s[j].dev
    ensures exists m :: i <= m < j && Releases(h, m)
  {
    OwnerAfter(s, h, j - 1);
    if s[i].dev != s[j - 1].dev {
      ReleaseBetween(s, h, i, j - 1);
    } else {
      assert Releases(h, j - 1);
    }
  }

  /** A slot passes from one device to another only through a release. */
  lemma OwnersAreSeparated(t: Run, i: nat, j: nat, l: Loc)
    requires i <= j <= |t.events| && InGrid(t.cfg, l)
    requires Track(t, l)[i].dev != 0 && Track(t, l)[i].dev != Track(t, l)[j].dev
    ensures exists m :: i <= m < j && Releases(History(t, l), m)
  {
    TrackFollows(t, l);
    ReleaseBetween(Track(t, l), History(t, l), i, j);
  }
}
