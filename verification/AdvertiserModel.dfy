// The advertiser's callbacks as functions on its state, at the granularity of one atomic step.
//
// `request_cb` is one Fold, then one Visit for each subevent asked for; RequestCalls puts them together.
module AdvertiserModel {
  import opened Words
  import opened Protocol

  /** `slot_data_t`: who owns a response slot (0: nobody) and how long it has been silent. */
  datatype Slot = Slot(dev: u16, idle: u8)

  /** Silent visits an owner survives: 3 * EVENTS_PER_BLOCK. */
  const PATIENCE := 9

  datatype Adv = Adv(
    c: nat,                 // counter.value
    r: nat,                 // rollover
    last: Loc,              // last_used
    reg: seq<Loc>,          // register_subevent_data
    free: seq<Loc>,         // free_list, top of the stack last
    slots: seq<seq<Slot>>,  // rsp_slots
    leaked: set<Loc>)       // history only: released while the free list was full, and not seen since
  {
    /** The counter a subevent message carries. */
    function T(): nat { c + r }
  }

  predicate WF(cfg: Cfg, a: Adv) {
    && cfg.Valid()
    && |a.reg| == cfg.reserved
    && |a.free| <= cfg.capacity
    && |a.slots| == cfg.subevents
    && (forall s :: 0 <= s < |a.slots| ==> |a.slots[s]| == cfg.slots)
    && a.last.slot < cfg.slots
    && (forall i :: 0 <= i < |a.free| ==> InGrid(cfg, a.free[i]))
    && (forall i :: 0 <= i < |a.reg| ==> a.reg[i].slot < cfg.slots)
  }

  /** The table entry of a slot of the grid. */
  function At(a: Adv, l: Loc): Slot {
    if l.sub < |a.slots| && l.slot < |a.slots[l.sub]| then a.slots[l.sub][l.slot] else Slot(0, 0)
  }

  predicate Occupied(a: Adv, l: Loc) {
    At(a, l).dev != 0
  }

  function Put(cfg: Cfg, a: Adv, l: Loc, s: Slot): Adv
    requires WF(cfg, a) && InGrid(cfg, l)
  {
    a.(slots := a.slots[l.sub := a.slots[l.sub][l.slot := s]])
  }

  // ---- slot allocation -------------------------------------------------------------------

  /** Row-major successor in two bytes. */
  function Bump(cfg: Cfg, l: Loc): Loc {
    if l.slot + 1 == cfg.slots then Loc(Inc8(l.sub), 0) else Loc(l.sub, Inc8(l.slot))
  }

  /** `reserve_slot`: the newest freed slot if there is one, otherwise the bump pointer. */
  function Reserve(cfg: Cfg, a: Adv): (Adv, Loc) {
    if |a.free| > 0 then (a.(free := a.free[..|a.free| - 1]), a.free[|a.free| - 1])
    else (a.(last := Bump(cfg, a.last)), a.last)
  }

  /** `free_list_append`; a slot that does not fit is lost until it is next freed or registered. */
  function Push(cfg: Cfg, a: Adv, l: Loc): Adv {
    if |a.free| == cfg.capacity then a.(leaked := a.leaked + {l})
    else a.(free := a.free + [l], leaked := a.leaked - {l})
  }

  /** Position of the first advertised entry equal to l. */
  function FirstIndex(reg: seq<Loc>, l: Loc): (i: Option<nat>)
    ensures i.Some? ==> i.value < |reg| && reg[i.value] == l && l !in reg[..i.value]
    ensures i.None? ==> l !in reg
  {
    if |reg| == 0 then None
    else if reg[0] == l then Some(0)
    else match FirstIndex(reg[1..], l)
      case None => None
      case Some(i) => Some(i + 1)
  }

  // ---- steps -----------------------------------------------------------------------------

  /** Whether the next visit takes the slot from its owner. */
  predicate Expires(s: Slot) {
    s.dev != 0 && Inc8(s.idle) > PATIENCE
  }

  function Age(s: Slot): Slot {
    if Expires(s) then Slot(0, 0) else Slot(s.dev, Inc8(s.idle))
  }

  function AgeSlot(cfg: Cfg, a: Adv, l: Loc): Adv
    requires WF(cfg, a) && InGrid(cfg, l)
  {
    var s := At(a, l);
    var aged := Put(cfg, a, l, Age(s));
    if Expires(s) then Push(cfg, aged, l) else aged
  }

  /** The ageing loop of `request_cb` over the first n slots of a subevent. */
  function AgeUpTo(cfg: Cfg, a: Adv, sub: nat, n: nat): (b: Adv)
    requires WF(cfg, a) && sub < cfg.subevents && n <= cfg.slots
    ensures WF(cfg, b)
    ensures b.c == a.c && b.r == a.r && b.reg == a.reg && b.last == a.last
    ensures forall l :: InGrid(cfg, l) ==>
      At(b, l) == if l.sub == sub && l.slot < n then Age(At(a, l)) else At(a, l)
  {
    if n == 0 then a else AgeSlot(cfg, AgeUpTo(cfg, a, sub, n - 1), Loc(sub, n - 1))
  }

  /** The id a slot's ack carries after ageing. */
  function AckOf(s: Slot): u16 {
    if s.idle == 1 && s.dev != 0 then s.dev else 0
  }

  function Acks(cfg: Cfg, a: Adv, sub: nat): (acks: seq<u16>)
    requires WF(cfg, a) && sub < cfg.subevents
    ensures |acks| == cfg.slots
  {
    seq(cfg.slots, j requires 0 <= j < cfg.slots => AckOf(a.slots[sub][j]))
  }

  /** What one atomic step of the advertiser sees. */
  datatype Event =
    | Fold                                  // head of request_cb
    | Visit(visited: nat)                   // one iteration of its loop
    | Response(loc: Loc, sender: u16, authentic: bool, counter: nat) // response_cb, body decoded
    | Noop                                  // response_cb on a message too short to decode, or nothing at all
    | Reboot                                // button: commit the counter, cold reboot

  predicate InRange(cfg: Cfg, e: Event) {
    match e
    case Visit(sub) => sub < cfg.subevents
    case Response(l, _, _, _) => InGrid(cfg, l)
    case _ => true
  }

  predicate Accepted(a: Adv, e: Event) {
    e.Response? && e.authentic && a.c <= e.counter
  }

  predicate Rejected(a: Adv, e: Event) {
    e.Response? && !Accepted(a, e)
  }

  /** `response_cb` after a failed verification. */
  function Reject(cfg: Cfg, a: Adv, l: Loc): Adv
    requires WF(cfg, a) && InGrid(cfg, l)
  {
    var s := At(a, l);
    if s.dev == 0 && |a.free| == cfg.capacity then a
    else Push(cfg, Put(cfg, a, l, Slot(0, s.idle)), l)
  }

  /** The advertised entry that was just taken is replaced by a newly reserved slot. */
  function Readvertise(cfg: Cfg, a: Adv, l: Loc): Adv {
    match FirstIndex(a.reg, l)
    case None => a
    case Some(i) => var (b, next) := Reserve(cfg, a); b.(reg := b.reg[i := next])
  }

  /** `response_cb` after a successful verification. */
  function Accept(cfg: Cfg, a: Adv, l: Loc, sender: u16, counter: nat): Adv
    requires WF(cfg, a) && InGrid(cfg, l)
  {
    var b := a.(c := if counter > a.c then counter else a.c);
    var s := At(a, l);
    if s.dev == 0 then Readvertise(cfg, Put(cfg, b, l, Slot(sender, 0)).(leaked := b.leaked - {l}), l)
    else if s.dev == sender then Put(cfg, b, l, Slot(s.dev, 0))
    else b
  }

  /** The n-th slot the bump pointer hands out. */
  function NthFresh(cfg: Cfg, n: nat): (l: Loc)
    requires cfg.Valid()
    ensures l.slot < cfg.slots
  {
    if n == 0 then Loc(0, cfg.reserved) else Bump(cfg, NthFresh(cfg, n - 1))
  }

  /** State after start-up with counter c: the k slots after the reserved ones are advertised. */
  function Boot(cfg: Cfg, c: nat): (a: Adv)
    requires cfg.Valid()
    ensures WF(cfg, a)
  {
    Adv(c, 0, NthFresh(cfg, cfg.reserved), seq(cfg.reserved, i requires 0 <= i => NthFresh(cfg, i)), [],
        seq(cfg.subevents, s => seq(cfg.slots, j => Slot(0, 0))), {})
  }

  /** What the counter is after it is committed and read back: four bytes are stored. */
  function Stored(c: nat): nat { c % 0x1_0000_0000 }

  function Step(cfg: Cfg, a: Adv, e: Event): (b: Adv)
    requires WF(cfg, a) && InRange(cfg, e)
    ensures WF(cfg, b)
  {
    match e
    case Fold => a.(c := a.c + a.r, r := 0)
    case Visit(sub) => AgeUpTo(cfg, if sub == 0 then a.(r := a.r + 1) else a, sub, cfg.slots)
    case Response(l, sender, _, counter) =>
      if Accepted(a, e) then Accept(cfg, a, l, sender, counter) else Reject(cfg, a, l)
    case Noop => a
    case Reboot => Boot(cfg, Stored(a.c))
  }

  /** What the step puts on the air, in order. */
  function Emits(cfg: Cfg, a: Adv, e: Event): seq<Tx>
    requires WF(cfg, a) && InRange(cfg, e)
  {
    var b := Step(cfg, a, e);
    match e
    case Visit(sub) =>
      (if sub == 0 then [Advert(a.reg, a.c)] else []) + [Data(sub, Acks(cfg, b, sub), b.T())]
    case Response(l, _, _, _) =>
      if !Accepted(a, e) then []
      else if At(a, l).dev == 0 then [Advert(a.reg, b.c), Advert(b.reg, b.c)]
      else [Advert(a.reg, b.c)]
    case Reboot => [Advert(b.reg, b.c)]
    case _ => []
  }

  // ---- runs ------------------------------------------------------------------------------

  /** A step that can happen in this state: one call of `request_cb` folds first and visits subevent 0 at
      most once, and no scanner key exists for the advertiser's own id 0. */
  predicate Legal(cfg: Cfg, a: Adv, e: Event) {
    && InRange(cfg, e)
    && (e == Visit(0) ==> a.r == 0)
    && (e.Response? && e.authentic ==> e.sender != 0)
  }

  /** Event i belongs to a call of `request_cb`: only its Fold and Visits came before. */
  predicate InRequest(events: seq<Event>, i: nat)
    requires i <= |events|
  {
    i > 0 && (events[i - 1].Fold? || ((events[i - 1].Visit? || events[i - 1].Noop?) && InRequest(events, i - 1)))
  }

  datatype Trace = Trace(cfg: Cfg, states: seq<Adv>, events: seq<Event>) {

    /** events[i] can happen in states[i], and leads to states[i + 1]. */
    ghost predicate Moves(i: nat) {
      && i < |events| < |states|
      && WF(cfg, states[i])
      && Legal(cfg, states[i], events[i])
      && (events[i].Visit? ==> InRequest(events, i))
      && states[i + 1] == Step(cfg, states[i], events[i])
    }

    ghost predicate IsRun() {
      && cfg.Valid()
      && |states| == |events| + 1
      && states[0] == Boot(cfg, states[0].c)
      && (forall i :: 0 <= i < |events| ==> Moves(i))
    }
  }

  const FIRMWARE := Cfg(46, 103, 5, 20, 4)

  /** A run of the advertiser from start-up, through any number of reboots. */
  type Run = t: Trace | t.IsRun() ghost witness Trace(FIRMWARE, [Boot(FIRMWARE, 0)], [])

  lemma RunWF(t: Run, i: nat)
    requires i <= |t.events|
    ensures WF(t.cfg, t.states[i])
    ensures i < |t.events| ==> t.Moves(i)
  {
    if i > 0 {
      assert t.Moves(i - 1);
    }
  }
}
