// Where the messages of a system run come from.
module SystemHistory {
  import opened Words
  import opened Protocol
  import opened AdvertiserModel
  import opened Clocks
  import opened ScannerModel
  import opened SystemModel
  import opened SystemInvariant

  lemma {:induction false} AlwaysFormed(y: SysRun, i: nat)
    requires i <= |y.events|
    ensures Formed(y.cfg, y.states[i])
  {
    if i > 0 {
      AlwaysFormed(y, i - 1);
      assert y.Moves(i - 1);
      FormedStep(y.cfg, y.floor, y.states[i - 1], y.events[i - 1]);
    } else {
      InitiallyFormed(y.cfg, y.floor, y.states[0]);
    }
  }

  lemma InitiallyFormed(cfg: Cfg, floor: nat, s: Sys)
    requires Initial(cfg, floor, s)
    ensures Formed(cfg, s) && Bounded(floor, s)
  {
  }

  lemma StepGrows(y: SysRun, i: nat)
    requires i < |y.events|
    ensures y.states[i].air <= y.states[i + 1].air && y.states[i].rsps <= y.states[i + 1].rsps
  {
    assert y.Moves(i);
  }

  /** Nothing is ever taken off the air. */
  lemma {:induction false} AirGrows(y: SysRun, i: nat, j: nat)
    requires i <= j <= |y.events|
    ensures y.states[i].air <= y.states[j].air && y.states[i].rsps <= y.states[j].rsps
  {
    if i < j {
      AirGrows(y, i, j - 1);
      StepGrows(y, j - 1);
    }
  }

  /** Step j put message n on the air. */
  ghost predicate Builds(y: SysRun, j: nat, n: nat) {
    j < |y.events| && |y.states[j].air| <= n < |y.states[j + 1].air|
  }

  /** Step m put response n on the air. */
  ghost predicate Transmits(y: SysRun, m: nat, n: nat) {
    m < |y.events| && |y.states[m].rsps| <= n < |y.states[m + 1].rsps|
  }

  /** Every message but the start-up advertisement was built by one step. */
  lemma {:induction false} Builder(y: SysRun, i: nat, n: nat) returns (j: nat)
    requires i <= |y.events| && 0 < n < |y.states[i].air|
    ensures j < i && Builds(y, j, n) && y.states[j + 1].air[n] == y.states[i].air[n]
  {
    AirGrows(y, i - 1, i);
    if n < |y.states[i - 1].air| {
      j := Builder(y, i - 1, n);
    } else {
      j := i - 1;
    }
  }

  lemma {:induction false} Transmitter(y: SysRun, i: nat, n: nat) returns (m: nat)
    requires i <= |y.events| && n < |y.states[i].rsps|
    ensures m < i && Transmits(y, m, n) && y.states[m + 1].rsps[n] == y.states[i].rsps[n]
  {
    AirGrows(y, i - 1, i);
    if n < |y.states[i - 1].rsps| {
      m := Transmitter(y, i - 1, n);
    } else {
      m := i - 1;
    }
  }

  /** Messages are built in index order, and one step builds at most one subevent message, its last. */
  lemma BuildOrder(y: SysRun, i: nat, j: nat, m: nat, n: nat)
    requires Builds(y, i, m) && Builds(y, j, n) && m < n
    ensures i <= j
  {
    if j < i {
      AirGrows(y, j + 1, i);
    }
  }

  lemma BuiltShape(y: SysRun, j: nat, n: nat)
    requires Builds(y, j, n)
    ensures var tx, a, e := y.states[j + 1].air[n], y.states[j].adv, y.AdvEvents()[j];
      && WF(y.cfg, a) && InRange(y.cfg, e)
      && (tx.Advert? ==> tx.counter == y.states[j + 1].adv.c)
      && (tx.Data? ==>
          && e == Visit(tx.sub) && tx.counter == y.states[j + 1].adv.T()
          && n == |y.states[j + 1].air| - 1
          && |Emits(y.cfg, a, e)| > 0 && tx == Emits(y.cfg, a, e)[|Emits(y.cfg, a, e)| - 1])
  {
    assert y.Moves(j);
    var k := n - |y.states[j].air|;
    EmitShape(y.cfg, y.states[j].adv, y.AdvEvents()[j], k);
    assert y.states[j + 1].air[n] == Emits(y.cfg, y.states[j].adv, y.AdvEvents()[j])[k];
  }

  /** A response on the air was signed by its sender as an answer to message `k` of the air. */
  lemma TransmittedShape(y: SysRun, m: nat, n: nat)
    requires Transmits(y, m, n)
    ensures var e, s := y.events[m], y.states[m];
      && e.Scanner? && e.id == y.states[m + 1].rsps[n].sender && e.id in s.scn
      && Answer(y.cfg, e.id, s.scn[e.id], e.step) == Some(y.states[m + 1].rsps[n])
      && e.n < |s.air| && y.states[m + 1].rsps[n].counter == s.air[e.n].counter
      && s.air[e.n].Data? && s.air[e.n].sub == y.states[m + 1].rsps[n].loc.sub
  {
    assert y.Moves(m);
    AlwaysFormed(y, m);
    var e, s := y.events[m], y.states[m];
    AnswerShape(y.cfg, e.id, s, e.step, e.n);
  }

  /** A message's counter, in terms of the clock after the step that built it. */
  lemma CounterWhenBuilt(y: SysRun, j: nat, n: nat)
    requires Builds(y, j, n)
    ensures var tx, k := y.states[j + 1].air[n], ClocksOf(AdvRun(y))[j + 1];
      && (tx.Advert? ==> tx.counter == k.c)
      && (tx.Data? ==> tx.counter == k.T() && TicksOf(AdvRun(y))[j] == Tour(tx.sub))
      && (tx.Data? ==> n == |y.states[j + 1].air| - 1)
  {
    BuiltShape(y, j, n);
  }
}
