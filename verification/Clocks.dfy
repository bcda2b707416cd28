// The advertiser's counter and rollover on their own: what each step does to them.
module Clocks {
  import opened Words
  import opened Protocol
  import opened AdvertiserModel

  datatype Clock = Clock(c: nat, r: nat) {
    /** The counter a subevent message would carry now. */
    function T(): nat { c + r }
  }

  datatype Tick =
    | Roll            // the rollover is added to the counter
    | Tour(sub: nat)  // a subevent is visited
    | Raise(to: nat)  // a verified response carries this counter
    | Restart         // button reboot
    | Still

  function ClockOf(a: Adv): Clock { Clock(a.c, a.r) }

  function TickOf(a: Adv, e: Event): Tick {
    match e
    case Fold => Roll
    case Visit(sub) => Tour(sub)
    case Response(_, _, _, counter) => if Accepted(a, e) then Raise(counter) else Still
    case Noop => Still
    case Reboot => Restart
  }

  function Advance(k: Clock, t: Tick): Clock {
    match t
    case Roll => Clock(k.c + k.r, 0)
    case Tour(sub) => if sub == 0 then Clock(k.c, k.r + 1) else k
    case Raise(to) => Clock(to, k.r)
    case Restart => Clock(Stored(k.c), 0)
    case Still => k
  }

  /** A tick that can happen. */
  predicate Allowed(k: Clock, t: Tick) {
    (t == Tour(0) ==> k.r == 0) && (t.Raise? ==> k.c <= t.to)
  }

  /** Every step of the advertiser moves its clock by its tick. */
  lemma ClockFollowsTick(cfg: Cfg, a: Adv, e: Event)
    requires WF(cfg, a) && Legal(cfg, a, e)
    ensures Allowed(ClockOf(a), TickOf(a, e))
    ensures ClockOf(Step(cfg, a, e)) == Advance(ClockOf(a), TickOf(a, e))
  {
  }

  /** Only visits came since the rollover was last added. */
  predicate InBatch(ticks: seq<Tick>, i: nat)
    requires i <= |ticks|
  {
    i > 0 && (ticks[i - 1].Roll? || ((ticks[i - 1].Tour? || ticks[i - 1].Still?) && InBatch(ticks, i - 1)))
  }

  predicate TourInBatch(ticks: seq<Tick>, i: nat)
    requires i < |ticks|
  {
    ticks[i].Tour? ==> InBatch(ticks, i)
  }

  /** A clock along a sequence of ticks: ticks[i] leads from clocks[i] to clocks[i + 1]. */
  ghost predicate Ticking(clocks: seq<Clock>, ticks: seq<Tick>) {
    && |clocks| == |ticks| + 1
    && clocks[0].r == 0
    && (forall i {:trigger ticks[i]} :: 0 <= i < |ticks| ==>
      Allowed(clocks[i], ticks[i]) && clocks[i + 1] == Advance(clocks[i], ticks[i]))
    && (forall i :: 0 <= i < |ticks| ==> TourInBatch(ticks, i))
  }

  ghost function ClocksOf(t: Run): (s: seq<Clock>)
    ensures |s| == |t.states|
    ensures forall i :: 0 <= i < |s| ==> s[i] == ClockOf(t.states[i])
  {
    seq(|t.states|, i requires 0 <= i < |t.states| => ClockOf(t.states[i]))
  }

  ghost function TicksOf(t: Run): (s: seq<Tick>)
    ensures |s| == |t.events|
    ensures forall i :: 0 <= i < |s| ==> s[i] == TickOf(t.states[i], t.events[i])
  {
    seq(|t.events|, i requires 0 <= i < |t.events| => TickOf(t.states[i], t.events[i]))
  }

  lemma {:induction false} RequestIsBatch(t: Run, i: nat)
    requires i <= |t.events| && InRequest(t.events, i)
    ensures InBatch(TicksOf(t), i)
  {
    if !t.events[i - 1].Fold? {
      RequestIsBatch(t, i - 1);
    }
  }

  lemma RunTicks(t: Run)
    ensures Ticking(ClocksOf(t), TicksOf(t))
  {
    var cs, ts := ClocksOf(t), TicksOf(t);
    forall i | 0 <= i < |ts|
      ensures Allowed(cs[i], ts[i]) && cs[i + 1] == Advance(cs[i], ts[i]) && TourInBatch(ts, i)
    {
      RunWF(t, i);
      ClockFollowsTick(t.cfg, t.states[i], t.events[i]);
      if t.events[i].Visit? {
        RequestIsBatch(t, i);
      }
    }
  }

  // ---- vocabulary of the theorems --------------------------------------------------------

  predicate OneBoot(ticks: seq<Tick>, i: nat, j: nat)
    requires i <= j <= |ticks|
  {
    forall k :: i <= k < j ==> !ticks[k].Restart?
  }

  /** Visits to subevent 0 among ticks i, ..., j - 1. */
  function Sweeps(ticks: seq<Tick>, i: nat, j: nat): nat
    requires i <= j <= |ticks|
  {
    if i == j then 0 else Sweeps(ticks, i, j - 1) + if ticks[j - 1] == Tour(0) then 1 else 0
  }

  /** The largest counter among `floor` and the subevent messages built by ticks p, ..., i - 1. */
  function HighestSent(clocks: seq<Clock>, ticks: seq<Tick>, floor: nat, p: nat, i: nat): nat
    requires p <= i <= |ticks| < |clocks|
  {
    if i == p then floor else
    var m := HighestSent(clocks, ticks, floor, p, i - 1);
    if ticks[i - 1].Tour? && clocks[i].T() > m then clocks[i].T() else m
  }

  /** If tick i is a response, its counter is at most `floor` or was sent since p. */
  predicate Echoes(clocks: seq<Clock>, ticks: seq<Tick>, floor: nat, p: nat, i: nat)
    requires p <= i < |ticks| < |clocks|
  {
    ticks[i].Raise? ==> ticks[i].to <= HighestSent(clocks, ticks, floor, p, i)
  }

  ghost predicate Echoing(clocks: seq<Clock>, ticks: seq<Tick>, floor: nat, p: nat, q: nat)
    requires p <= q <= |ticks| < |clocks|
  {
    forall i :: p <= i < q ==> Echoes(clocks, ticks, floor, p, i)
  }

  /** Before the first visit to subevent 0 since p, and before the rollover of p is folded if there is one, a
      response is accepted whose counter is one above that of p. */
  predicate RaisedEarly(clocks: seq<Clock>, ticks: seq<Tick>, p: nat, k: nat)
    requires p <= k < |ticks| < |clocks|
  {
    ticks[k] == Raise(clocks[p].c + 1) && Sweeps(ticks, p, k) == 0 && clocks[k].r == clocks[p].r
  }

  ghost predicate NoneEarly(clocks: seq<Clock>, ticks: seq<Tick>, p: nat, i: nat)
    requires p <= i <= |ticks| < |clocks|
  {
    forall k :: p <= k < i ==> !RaisedEarly(clocks, ticks, p, k)
  }

  predicate TwoAtMost(clocks: seq<Clock>, ticks: seq<Tick>, p: nat, j: nat)
    requires p <= j <= |ticks| < |clocks|
  {
    clocks[j].T() <= clocks[p].T() + 2 * Sweeps(ticks, p, j)
  }

  /** T has stayed within two per visit to subevent 0 from p to i. */
  ghost predicate WithinTwo(clocks: seq<Clock>, ticks: seq<Tick>, p: nat, i: nat)
    requires p <= i <= |ticks| < |clocks|
  {
    forall j :: p <= j <= i ==> TwoAtMost(clocks, ticks, p, j)
  }

  function NextSubevent(sub: nat, subevents: nat): nat {
    if sub + 1 == subevents then 0 else sub + 1
  }

  /** The subevent due next when subevents are visited in turn from p on. */
  function Due(ticks: seq<Tick>, subevents: nat, p: nat, i: nat): Option<nat>
    requires p <= i <= |ticks|
  {
    if i == p then None
    else if ticks[i - 1].Tour? then Some(NextSubevent(ticks[i - 1].sub, subevents))
    else Due(ticks, subevents, p, i - 1)
  }

  /** If tick i is a visit, it is to the subevent that is due. */
  predicate VisitsDue(ticks: seq<Tick>, subevents: nat, p: nat, i: nat)
    requires p <= i < |ticks|
  {
    ticks[i].Tour? ==>
      && ticks[i].sub < subevents
      && (Due(ticks, subevents, p, i).None? || Due(ticks, subevents, p, i) == Some(ticks[i].sub))
  }

  /** In ticks p, ..., q - 1 subevents are visited in cyclic order, wherever the first visit starts. */
  ghost predicate Cyclic(ticks: seq<Tick>, subevents: nat, p: nat, q: nat)
    requires p <= q <= |ticks|
  {
    forall i :: p <= i < q ==> VisitsDue(ticks, subevents, p, i)
  }
}
