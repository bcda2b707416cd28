// One advertiser, any number of scanners, and the network between them.
//
// The network may lose, delay and repeat whatever was sent, and may deliver anything else too; but only
// what a device sent verifies under that device's key, and a response arrives in the slot it was sent in.
module SystemModel {
  import opened Words
  import opened Protocol
  import opened AdvertiserModel
  import opened ScannerModel

  datatype Sys = Sys(
    adv: Adv,
    air: seq<Tx>,          // everything the advertiser has signed, in build order
    scn: map<u16, Scn>,    // scanners by id
    rsps: seq<Rsp>)        // everything the scanners have signed

  datatype SysEvent =
    | Own(e: Event)                            // the advertiser folds, visits a subevent, or reboots
    | Arrives(n: nat)                          // response n reaches the advertiser
    | Noise(loc: Loc, sender: u16, counter: nat) // something that does not verify reaches the advertiser
    | Scanner(id: u16, step: ScnEvent, n: nat) // a scanner takes a step; if it takes a message, message n
    | PowerCycle(id: u16, stored: nat)         // a scanner restarts with the counter it has stored

  /** What the advertiser sees of a step of the system. */
  function AdvEventOf(s: Sys, e: SysEvent): Event {
    match e
    case Own(own) => own
    case Arrives(n) =>
      if n < |s.rsps| then Response(s.rsps[n].loc, s.rsps[n].sender, true, s.rsps[n].counter) else Noop
    case Noise(l, sender, counter) => Response(l, sender, false, counter)
    case _ => Noop
  }

  /** A scanner step that takes a signed message takes message n of the air. */
  predicate Genuine(air: seq<Tx>, e: ScnEvent, n: nat) {
    && (e.Receive? && e.rx.Signed? ==>
      n < |air| && e.rx.acks.Some? && air[n] == Data(e.sub, e.rx.acks.value, e.rx.counter))
    && (e.Hear? && e.report.Ad? ==> n < |air| && air[n] == Advert(e.report.reg, e.report.counter))
  }

  predicate Enabled(cfg: Cfg, floor: nat, s: Sys, e: SysEvent) {
    && WF(cfg, s.adv)
    && Legal(cfg, s.adv, AdvEventOf(s, e))
    && match e
       case Own(own) => !own.Response?
       case Arrives(n) => n < |s.rsps|
       case Noise(_, _, _) => true
       case Scanner(id, step, n) =>
         id in s.scn && WFS(cfg, s.scn[id]) && Possible(cfg, s.scn[id], step) && Genuine(s.air, step, n)
       case PowerCycle(id, stored) => id in s.scn && stored <= floor
  }

  function SysStep(cfg: Cfg, floor: nat, s: Sys, e: SysEvent): Sys
    requires Enabled(cfg, floor, s, e)
  {
    var ae := AdvEventOf(s, e);
    var t := s.(adv := Step(cfg, s.adv, ae), air := s.air + Emits(cfg, s.adv, ae));
    match e
    case Scanner(id, step, _) =>
      var answer := Answer(cfg, id, s.scn[id], step);
      t.(scn := s.scn[id := ScnStep(cfg, id, s.scn[id], step)],
         rsps := if answer.Some? then s.rsps + [answer.value] else s.rsps)
    case PowerCycle(id, stored) => t.(scn := s.scn[id := PowerUp(stored)])
    case _ => t
  }

  /** Everything just switched on; no scanner has stored a counter above the advertiser's. */
  predicate Initial(cfg: Cfg, floor: nat, s: Sys) {
    && cfg.Valid()
    && s.adv == Boot(cfg, s.adv.c)
    && floor <= s.adv.c
    && s.air == [Advert(s.adv.reg, s.adv.c)]
    && s.rsps == []
    && (forall id :: id in s.scn ==>
      id != 0 && s.scn[id] == PowerUp(s.scn[id].counter) && s.scn[id].counter <= floor)
  }

  datatype SysTrace = SysTrace(cfg: Cfg, floor: nat, states: seq<Sys>, events: seq<SysEvent>) {

    ghost function AdvEvents(): (es: seq<Event>)
      requires |events| < |states|
      ensures |es| == |events|
      ensures forall i :: 0 <= i < |es| ==> es[i] == AdvEventOf(states[i], events[i])
    {
      seq(|events|, i requires 0 <= i < |events| => AdvEventOf(states[i], events[i]))
    }

    ghost predicate Moves(i: nat) {
      && i < |events| < |states|
      && Enabled(cfg, floor, states[i], events[i])
      && (AdvEvents()[i].Visit? ==> InRequest(AdvEvents(), i))
      && states[i + 1] == SysStep(cfg, floor, states[i], events[i])
    }

    ghost predicate IsRun() {
      && |states| == |events| + 1
      && Initial(cfg, floor, states[0])
      && (forall i :: 0 <= i < |events| ==> Moves(i))
    }
  }

  /** A run of the whole system. */
  type SysRun = y: SysTrace | y.IsRun()
    ghost witness SysTrace(FIRMWARE, 0,
      [Sys(Boot(FIRMWARE, 0), [Advert(Boot(FIRMWARE, 0).reg, 0)], map[], [])], [])

  /** The advertiser's part of a run of the system. */
  ghost function AdvRun(y: SysRun): (t: Run)
    ensures t.cfg == y.cfg && t.events == y.AdvEvents()
    ensures |t.states| == |y.states| && forall i :: 0 <= i < |t.states| ==> t.states[i] == y.states[i].adv
  {
    var t := Trace(y.cfg, seq(|y.states|, i requires 0 <= i < |y.states| => y.states[i].adv), y.AdvEvents());
    assert t.IsRun() by {
      forall i | 0 <= i < |t.events|
        ensures t.Moves(i)
      {
        assert y.Moves(i);
      }
    }
    t
  }
}
