// Vocabulary for what happened along a scanner's run.
module ScannerHistory {
  import opened Words
  import opened Protocol
  import opened ScannerModel
  import opened ScannerInvariant

  /** Step j ends a successful CONFIRMING, and from then to state i the scanner only sleeps or sends. */
  ghost predicate ConfirmedSince(t: ScnRun, j: nat, i: nat)
    requires i <= |t.events|
  {
    && j < i
    && t.states[j].st == CONFIRMING && t.states[j].evtSem && t.states[j].fault == NoFault
    && (forall k :: j < k <= i ==> t.states[k].st == SLEEPING || t.states[k].st == ENABLED)
  }

  /** Step k is the reception that confirmed the reservation, and the scanner has waited in CONFIRMING
      with the same slot selected from then to state i. */
  ghost predicate ConfirmedBy(t: ScnRun, k: nat, i: nat)
    requires i <= |t.events|
  {
    && k < i
    && Confirms(t.id, t.states[k], t.events[k])
    && (forall m :: k <= m <= i ==> Confirming(t.states[m]) && t.states[m].sel == t.states[k].sel)
  }

  /** The response step i transmits. */
  ghost function AnswerAt(t: ScnRun, i: nat): Option<Rsp>
    requires i < |t.events|
  {
    Answer(t.cfg, t.id, t.states[i], t.events[i])
  }

  // ---- visits ----------------------------------------------------------------------------

  /** States a, ..., b lie in one visit to `st` after its tick counter was cleared at a. */
  ghost predicate OneVisit(t: ScnRun, st: State, a: nat, b: nat)
    requires a <= b <= |t.events|
  {
    && t.states[a].ticks == 0
    && (forall k :: a <= k <= b ==> t.states[k].st == st && t.states[k].phase != Entry)
  }

  /** Between a and b the FSM thread consumes each event before the next message comes in. */
  ghost predicate Attentive(t: ScnRun, a: nat, b: nat)
    requires a <= b <= |t.events|
  {
    forall k :: a <= k < b && t.events[k].Receive? ==> !t.states[k].evtSem
  }

  /** Messages the installed callback handles in steps a, ..., b - 1. */
  ghost function Handled(t: ScnRun, a: nat, b: nat): nat
    requires a <= b <= |t.events|
  {
    if a == b then 0
    else Handled(t, a, b - 1) + if t.events[b - 1].Receive? && t.states[b - 1].recv != NoRecv then 1 else 0
  }

  /** Responses transmitted in steps a, ..., b - 1. */
  ghost function Answered(t: ScnRun, a: nat, b: nat): nat
    requires a <= b <= |t.events|
  {
    if a == b then 0 else Answered(t, a, b - 1) + if AnswerAt(t, b - 1).Some? then 1 else 0
  }
}
