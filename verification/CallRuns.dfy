// Every sequence of callback calls is a run: the theorems about runs hold of the Advertiser class.
module CallRuns {
  import opened Words
  import opened Protocol
  import opened AdvertiserModel
  import opened RequestCalls

  ghost function Last(t: Run): Adv {
    t.states[|t.events|]
  }

  ghost function Extended(t: Run, e: Event): Trace
    requires WF(t.cfg, Last(t)) && InRange(t.cfg, e)
  {
    Trace(t.cfg, t.states + [Step(t.cfg, Last(t), e)], t.events + [e])
  }

  lemma {:induction false} InRequestPrefix(a: seq<Event>, b: seq<Event>, i: nat)
    requires i <= |a| && i <= |b| && a[..i] == b[..i]
    ensures InRequest(a, i) <==> InRequest(b, i)
  {
    if i > 0 {
      assert a[i - 1] == a[..i][i - 1] == b[i - 1];
      assert a[..i - 1] == a[..i][..i - 1] == b[..i - 1];
      InRequestPrefix(a, b, i - 1);
    }
  }

  lemma MovesStay(t: Run, e: Event, i: nat)
    requires WF(t.cfg, Last(t)) && InRange(t.cfg, e) && i < |t.events|
    ensures Extended(t, e).Moves(i)
  {
    assert t.Moves(i);
    InRequestPrefix(t.events, t.events + [e], i);
  }

  /** A run goes on with any step that can happen. */
  lemma StepExtendsRun(t: Run, e: Event) returns (u: Run)
    requires Legal(t.cfg, Last(t), e) && (e.Visit? ==> InRequest(t.events, |t.events|))
    ensures u.cfg == t.cfg && t.states <= u.states && u.events == t.events + [e]
    ensures WF(t.cfg, Last(t)) && Last(u) == Step(t.cfg, Last(t), e) && u == Extended(t, e)
  {
    RunWF(t, |t.events|);
    var x := Extended(t, e);
    forall i | 0 <= i < |x.events|
      ensures x.Moves(i)
    {
      if i < |t.events| {
        MovesStay(t, e, i);
      } else {
        InRequestPrefix(t.events, x.events, |t.events|);
      }
    }
    u := x;
  }

  /** Run u is run t followed by the steps es of one call of `request_cb`. */
  ghost predicate Requested(t: Run, es: seq<Event>, u: Run)
    requires WF(t.cfg, Last(t))
  {
    && u.cfg == t.cfg && t.states <= u.states && u.events == t.events + es
    && AllInRange(t.cfg, es) && Last(u) == Exec(t.cfg, Last(t), es)
    && (es != [] ==> InRequest(u.events, |u.events|))
  }
}

module CallRunLaws {
  import opened Words
  import opened Protocol
  import opened AdvertiserModel
  import opened RequestCalls
  import opened CallRuns

  lemma InRequestGrows(vs: seq<Event>, e: Event)
    requires e.Fold? || (e.Visit? && InRequest(vs, |vs|))
    ensures InRequest(vs + [e], |vs| + 1)
  {
    InRequestPrefix(vs, vs + [e], |vs|);
  }

  lemma Associate(a: seq<Event>, b: seq<Event>, c: seq<Event>)
    ensures a + b + c == a + (b + c)
  {
  }

  lemma StillPrefix(a: seq<Adv>, b: seq<Adv>, c: seq<Adv>)
    requires a <= b <= c
    ensures a <= c
  {
  }

  lemma NextInCall(cfg: Cfg, a: Adv, start: u8, count: u8, i: nat) returns (done: seq<Event>, e: Event)
    requires WF(cfg, a) && i < |RequestEvents(cfg, start, count)|
    ensures var es := RequestEvents(cfg, start, count); done == es[..i] && done + [e] == es[..i + 1]
    ensures AllInRange(cfg, done) && Legal(cfg, Exec(cfg, a, done), e) && (e.Fold? || (e.Visit? && done != []))
  {
    var es := RequestEvents(cfg, start, count);
    RequestIsLegal(cfg, a, start, count, i);
    done, e := es[..i], es[i];
    assert es[..i + 1] == done + [e];
  }

  lemma RequestGoesOn(t: Run, es: seq<Event>, e: Event, v: Run) returns (u: Run)
    requires WF(t.cfg, Last(t)) && Requested(t, es, v)
    requires Legal(t.cfg, Exec(t.cfg, Last(t), es), e) && (e.Fold? || (e.Visit? && es != []))
    ensures Requested(t, es + [e], u)
  {
    InRequestGrows(v.events, e);
    ExecSnoc(t.cfg, Last(t), es, e);
    u := StepExtendsRun(v, e);
    Associate(t.events, es, [e]);
    StillPrefix(t.states, v.states, u.states);
  }

  /** A run goes on with a whole call of `request_cb`, whatever the host asks for. */
  lemma {:induction false} RequestExtendsRun(t: Run, start: u8, count: u8, i: nat) returns (u: Run)
    requires i <= |RequestEvents(t.cfg, start, count)|
    ensures WF(t.cfg, Last(t)) && Requested(t, RequestEvents(t.cfg, start, count)[..i], u)
  {
    RunWF(t, |t.events|);
    if i == 0 {
      u := t;
      assert t.events + [] == t.events;
    } else {
      var v := RequestExtendsRun(t, start, count, i - 1);
      var done, e := NextInCall(t.cfg, Last(t), start, count, i - 1);
      u := RequestGoesOn(t, done, e, v);
    }
  }
}

// The same for a scanner: whatever its callbacks and state functions do is a run.
module ScannerCallRuns {
  import opened Words
  import opened Protocol
  import opened ScannerModel

  ghost function Latest(t: ScnRun): Scn {
    t.states[|t.events|]
  }

  lemma {:induction false} ScnRunWF(t: ScnRun, i: nat)
    requires i <= |t.events|
    ensures WFS(t.cfg, t.states[i])
  {
    if i > 0 {
      assert t.Moves(i - 1);
    }
  }

  /** A run of a scanner goes on with any step that can happen: any reception, report or termination, the
      generator while it runs, and the FSM thread whenever it does not wait in vain. */
  lemma CallExtendsScannerRun(t: ScnRun, e: ScnEvent) returns (u: ScnRun)
    requires Possible(t.cfg, Latest(t), e)
    ensures WFS(t.cfg, Latest(t))
    ensures u.cfg == t.cfg && u.id == t.id && u.events == t.events + [e]
    ensures u.states == t.states + [ScnStep(t.cfg, t.id, Latest(t), e)]
  {
    ScnRunWF(t, |t.events|);
    var x := ScnTrace(t.cfg, t.id, t.states + [ScnStep(t.cfg, t.id, Latest(t), e)], t.events + [e]);
    forall i | 0 <= i < |x.events|
      ensures x.Moves(i)
    {
      if i < |t.events| {
        assert t.Moves(i);
      }
    }
    u := x;
  }
}
