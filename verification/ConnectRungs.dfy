/** Which rungs of the transport ladder the connect protocol dials, and which it only shows. */
module ConnectRungs {
  import opened Wrappers
  import opened Scoring
  import opened Connect
  import opened ConnectSafety
  import opened ConnectRuns
  import opened ConnectLiveness

  /** The rung below. */
  function Below(t: Transport): Transport
    requires t != RealityDirect
  {
    LADDER[Position(t) - 1]
  }

  predicate HasCdn(fleet: seq<Endpoint>) {
    exists i :: 0 <= i < |fleet| && fleet[i].cdnRouted
  }

  /** A rung below the size of the fleet; for the CDN transport a CDN endpoint will do as well. */
  predicate MayDial(fleet: seq<Endpoint>, t: Transport) {
    Position(t) < |fleet| || (t == WsTlsCdn && HasCdn(fleet))
  }

  /** One rung above one that may be dialled. */
  predicate MayEscalateTo(fleet: seq<Endpoint>, t: Transport) {
    t != RealityDirect && MayDial(fleet, Below(t))
  }

  predicate MayShow(fleet: seq<Endpoint>, t: Transport) {
    t == RealityDirect || MayDial(fleet, t) || MayEscalateTo(fleet, t)
  }

  // ----- Nothing else is dialled or shown

  /** The same endpoints up to their failures. */
  predicate SameFleet(endpoints: seq<Endpoint>, fleet: seq<Endpoint>) {
    |endpoints| == |fleet| && forall i :: 0 <= i < |fleet| ==> endpoints[i].cdnRouted == fleet[i].cdnRouted
  }

  predicate RungOk(s: State, fleet: seq<Endpoint>) {
    && SameFleet(s.endpoints, fleet)
    && MayShow(fleet, s.transport)
    && (OnEndpoint(s) ==> MayDial(fleet, s.transport))
    && (s.tunnel == SwitchingTransport ==> MayEscalateTo(fleet, s.transport))
  }

  lemma StreaksSameFleet(endpoints: seq<Endpoint>, fleet: seq<Endpoint>, best: Option<Choice>, failed: bool)
    requires SameFleet(endpoints, fleet)
    ensures SameFleet(WithStreaks(endpoints, best, failed), fleet)
  {
  }

  lemma TransportPosition(i: nat)
    ensures Position(TransportAt(i)) <= i && (i < |LADDER| ==> Position(TransportAt(i)) == i)
  {
  }

  lemma CandidateMayBeDialled(s: State, fleet: seq<Endpoint>, pick: nat)
    requires SameFleet(s.endpoints, fleet)
    ensures var cs := Candidates(s.endpoints, s.scenario.Blackout?);
            cs != [] ==> MayDial(fleet, Pick(cs, pick).transport)
  {
    hide Pick, CdnOnly, TransportAt, Position;
    var cs := Candidates(s.endpoints, s.scenario.Blackout?);
    if cs != [] {
      var best := Pick(cs, pick);
      var i :| 0 <= i < |cs| && cs[i] == best;
      if s.scenario.Blackout? {
        var e := CdnOnly(s.endpoints)[i];
        assert e in s.endpoints && e.cdnRouted;
        var k :| 0 <= k < |s.endpoints| && s.endpoints[k] == e;
        assert fleet[k].cdnRouted;
      } else {
        TransportPosition(i);
      }
    }
  }

  lemma DialledRung(s: State, fleet: seq<Endpoint>, r: Run, a: nat, pick: nat)
    requires SameFleet(s.endpoints, fleet) && MayShow(fleet, s.transport)
    ensures RungOk(Dialled(s, r, a, pick), fleet)
  {
    hide Delay, Pick, Candidates, MayDial, MayEscalateTo, SameFleet;
    CandidateMayBeDialled(s, fleet, pick);
  }

  lemma EscalatedRung(fleet: seq<Endpoint>, t: Transport)
    requires MayDial(fleet, t) && NextTransport(t) != t
    ensures MayEscalateTo(fleet, NextTransport(t))
  {
  }

  lemma FailedRung(s: State, fleet: seq<Endpoint>, r: Run)
    requires RungOk(s, fleet) && MayDial(fleet, s.transport) && Live(s)
    ensures RungOk(Failed(s, r), fleet)
  {
    hide Delay, NextTransport, MayDial, MayEscalateTo, SameFleet, WithStreaks;
    StreaksSameFleet(s.endpoints, fleet, r.best, true);
    if NextTransport(s.transport) != s.transport { EscalatedRung(fleet, s.transport); }
  }

  lemma RungResume(s: State, fleet: seq<Endpoint>, token: nat, pick: nat, fails: bool)
    requires Inv(s) && RungOk(s, fleet) && token in s.runs
    ensures RungOk(Resumed(s, token, pick, fails), fleet)
  {
    hide RunOk, Dialled, Failed, WithStreaks, Delay, MayDial, MayEscalateTo, MayShow, SameFleet;
    var r := s.runs[token];
    DialledRung(s, fleet, r, r.attempt, pick);
    DialledRung(s.(attempt := 0), fleet, r, 0, pick);
    StreaksSameFleet(s.endpoints, fleet, r.best, false);
    if token == s.tokenRef && r.pc == Hand { FailedRung(s, fleet, r); }
  }

  lemma RungStep(s: State, fleet: seq<Endpoint>, op: Op)
    requires Inv(s) && RungOk(s, fleet)
    ensures RungOk(Step(s, op), fleet)
  {
    hide Due, RunOk, Resumed, Delay, MayDial, MayEscalateTo, MayShow, SameFleet;
    if op.Resume? && Enabled(s, op) { RungResume(s, fleet, op.token, op.pick, op.fails); }
  }

  lemma {:induction false} RungsOk(fleet: seq<Endpoint>, ops: seq<Op>)
    ensures RungOk(After(Init(fleet), ops), fleet)
  {
    if ops != [] {
      hide Inv, Step, RungOk;
      var front := ops[..|ops| - 1];
      RungsOk(fleet, front);
      Reachable(fleet, front);
      RungStep(After(Init(fleet), front), fleet, ops[|ops| - 1]);
    }
  }

  // ----- And all of it is

  /** The live run wakes as soon as it may. */
  function WokenWith(s: State, pick: nat, fails: bool): State {
    if !Live(s) then s
    else
      var d := s.runs[s.tokenRef].deadline;
      Step(Step(s, Advance(if d > s.now then d - s.now else 0)), Resume(s.tokenRef, pick, fails))
  }

  /** One run, and nothing else, is pending. */
  predicate Solo(s: State, fleet: seq<Endpoint>, pc: Pc, a: nat) {
    && s.recoveries == [] && s.runs.Keys == {s.tokenRef}
    && s.runs[s.tokenRef].pc == pc && s.runs[s.tokenRef].attempt == a
    && SameFleet(s.endpoints, fleet)
  }

  lemma StartsSolo(fleet: seq<Endpoint>, sc: Scenario)
    ensures var s := Step(Step(Step(Init(fleet), VerifyAndActivate(true)), SetScenario(sc)), PressConnect);
            Solo(s, fleet, Prep, 0) && s.scenario == sc
  {
    hide Delay;
  }

  lemma WakesPrepWith(s: State, fleet: seq<Endpoint>)
    requires Solo(s, fleet, Prep, 0)
    ensures var t := WokenWith(s, 0, false); Solo(t, fleet, Net, 0) && t.scenario == s.scenario
  {
    hide Delay, SameFleet;
  }

  /** The state in which the live run resumes. */
  function Ripe(s: State): State
    requires Live(s)
  {
    var d := s.runs[s.tokenRef].deadline;
    s.(now := s.now + if d > s.now then d - s.now else 0)
  }

  lemma SoloWakes(s: State, fleet: seq<Endpoint>, pc: Pc, a: nat, pick: nat, fails: bool)
    requires Solo(s, fleet, pc, a)
    ensures Live(s) && WokenWith(s, pick, fails) == Resumed(Ripe(s), s.tokenRef, pick, fails)
    ensures Solo(Ripe(s), fleet, pc, a)
  {
    hide Delay, SameFleet, Resumed;
  }

  lemma DialsSolo(s: State, fleet: seq<Endpoint>, r: Run, a: nat, pick: nat)
    requires Solo(s, fleet, r.pc, r.attempt) && pick < |Candidates(s.endpoints, s.scenario.Blackout?)|
    ensures var t := Dialled(s, r, a, pick);
            && Solo(t, fleet, Dial, a) && t.scenario == s.scenario && t.tunnel == Connecting && t.attempt == s.attempt
            && t.transport == Candidates(s.endpoints, s.scenario.Blackout?)[pick].transport
  {
    hide Delay, SameFleet, Candidates;
    assert pick % |Candidates(s.endpoints, s.scenario.Blackout?)| == pick;
  }

  lemma WakesToDial(s: State, fleet: seq<Endpoint>, pc: Pc, a: nat, pick: nat)
    requires Solo(s, fleet, pc, a) && ((pc == Net && a == 0) || pc == Backoff)
    requires pick < |Candidates(s.endpoints, s.scenario.Blackout?)|
    ensures var t := WokenWith(s, pick, false);
            && Solo(t, fleet, Dial, a) && t.scenario == s.scenario && t.tunnel == Connecting
            && (pc == Backoff ==> t.attempt == s.attempt)
            && t.transport == Candidates(s.endpoints, s.scenario.Blackout?)[pick].transport
  {
    hide Delay, SameFleet, Candidates, Dialled, WokenWith;
    SoloWakes(s, fleet, pc, a, pick, false);
    var d := Ripe(s);
    var r := d.runs[d.tokenRef];
    DialsSolo(d, fleet, r, a, pick);
    if pc == Net { DialsSolo(d.(attempt := 0), fleet, r, 0, pick); }
  }

  lemma WakesDialWith(s: State, fleet: seq<Endpoint>, a: nat)
    requires Solo(s, fleet, Dial, a)
    ensures var t := WokenWith(s, 0, false);
            Solo(t, fleet, Hand, a) && t.scenario == s.scenario && t.transport == s.transport
  {
    hide Delay, SameFleet;
  }

  lemma WakesHandFailing(s: State, fleet: seq<Endpoint>, a: nat)
    requires Solo(s, fleet, Hand, a) && s.transport != Ss2022
    ensures var t := WokenWith(s, 0, true);
            && Solo(t, fleet, Switch, a) && t.scenario == s.scenario && t.tunnel == SwitchingTransport
            && t.transport == NextTransport(s.transport)
  {
    hide Delay, SameFleet, WithStreaks, WokenWith, NextTransport, Retried;
    SoloWakes(s, fleet, Hand, a, 0, true);
    var d := Ripe(s);
    TopRung(d.transport);
    StreaksSameFleet(d.endpoints, fleet, d.runs[d.tokenRef].best, true);
  }

  lemma WakesSwitch(s: State, fleet: seq<Endpoint>)
    requires Solo(s, fleet, Switch, 0)
    ensures var t := WokenWith(s, 0, false);
            Solo(t, fleet, Backoff, 1) && t.scenario == s.scenario && t.attempt == 1
  {
    hide Delay, SameFleet;
  }

  // ----- As runs from a fresh store

  ghost predicate Reaches(fleet: seq<Endpoint>, s: State) {
    exists ops :: After(Init(fleet), ops) == s
  }

  lemma ReachesStep(fleet: seq<Endpoint>, s: State, op: Op)
    requires Reaches(fleet, s)
    ensures Reaches(fleet, Step(s, op))
  {
    hide Step;
    var ops :| After(Init(fleet), ops) == s;
    assert (ops + [op])[..|ops|] == ops;
    assert After(Init(fleet), ops + [op]) == Step(s, op);
  }

  lemma ReachesWoken(fleet: seq<Endpoint>, s: State, pick: nat, fails: bool)
    requires Reaches(fleet, s)
    ensures Reaches(fleet, WokenWith(s, pick, fails))
  {
    hide Reaches, Step;
    if Live(s) {
      var d := s.runs[s.tokenRef].deadline;
      var wait := Advance(if d > s.now then d - s.now else 0);
      ReachesStep(fleet, s, wait);
      ReachesStep(fleet, Step(s, wait), Resume(s.tokenRef, pick, fails));
    }
  }

  lemma ReachesInit(fleet: seq<Endpoint>)
    ensures Reaches(fleet, Init(fleet))
  {
    assert After(Init(fleet), []) == Init(fleet);
  }

  /** A run on its own before its first scoring pass. */
  lemma ReachesNet(fleet: seq<Endpoint>, sc: Scenario) returns (s: State)
    ensures Reaches(fleet, s) && Solo(s, fleet, Net, 0) && s.scenario == sc
  {
    hide Reaches, Step, Solo, WokenWith;
    var s0 := Init(fleet);
    var s1 := Step(s0, VerifyAndActivate(true));
    var s2 := Step(s1, SetScenario(sc));
    var s3 := Step(s2, PressConnect);
    ReachesInit(fleet);
    ReachesStep(fleet, s0, VerifyAndActivate(true));
    ReachesStep(fleet, s1, SetScenario(sc));
    ReachesStep(fleet, s2, PressConnect);
    StartsSolo(fleet, sc);
    WakesPrepWith(s3, fleet);
    ReachesWoken(fleet, s3, 0, false);
    s := WokenWith(s3, 0, false);
  }

  lemma CalmCandidate(endpoints: seq<Endpoint>, fleet: seq<Endpoint>, i: nat)
    requires SameFleet(endpoints, fleet) && i < |fleet|
    ensures i < |Candidates(endpoints, false)| && Candidates(endpoints, false)[i].transport == TransportAt(i)
  {
    CandidatesExactly(endpoints, false, "", false);
  }

  lemma CdnCandidate(endpoints: seq<Endpoint>, fleet: seq<Endpoint>)
    requires SameFleet(endpoints, fleet) && HasCdn(fleet)
    ensures Candidates(endpoints, true) != [] && Candidates(endpoints, true)[0].transport == WsTlsCdn
  {
    hide CdnOnly;
    var k :| 0 <= k < |fleet| && fleet[k].cdnRouted;
    CdnOnlyKeeps(endpoints);
    assert endpoints[k] in CdnOnly(endpoints);
  }

  /** Dialling a rung that may be dialled. */
  lemma ReachesDial(fleet: seq<Endpoint>, t: Transport) returns (s: State)
    requires MayDial(fleet, t)
    ensures Reaches(fleet, s) && Solo(s, fleet, Dial, 0) && s.tunnel == Connecting && s.transport == t
    ensures Position(t) < |fleet| ==> s.scenario == Calm
  {
    hide Reaches, WokenWith, Candidates;
    var p := Position(t);
    if p < |fleet| {
      var n := ReachesNet(fleet, Calm);
      CalmCandidate(n.endpoints, fleet, p);
      assert TransportAt(p) == t;
      WakesToDial(n, fleet, Net, 0, p);
      ReachesWoken(fleet, n, p, false);
      s := WokenWith(n, p, false);
    } else {
      var n := ReachesNet(fleet, Blackout);
      CdnCandidate(n.endpoints, fleet);
      WakesToDial(n, fleet, Net, 0, 0);
      ReachesWoken(fleet, n, 0, false);
      s := WokenWith(n, 0, false);
    }
  }

  lemma ReachesEscalation(fleet: seq<Endpoint>, t: Transport) returns (s: State)
    requires MayDial(fleet, t) && t != Ss2022
    ensures Reaches(fleet, s) && Solo(s, fleet, Switch, 0) && s.tunnel == SwitchingTransport
    ensures s.transport == NextTransport(t) && (Position(t) < |fleet| ==> s.scenario == Calm)
  {
    hide Reaches, WokenWith, Solo, MayDial, NextTransport, Position;
    var d := ReachesDial(fleet, t);
    WakesDialWith(d, fleet, 0);
    ReachesWoken(fleet, d, 0, false);
    var h := WokenWith(d, 0, false);
    WakesHandFailing(h, fleet, 0);
    ReachesWoken(fleet, h, 0, true);
    s := WokenWith(h, 0, true);
  }

  // ----- Exactly

  /** Some interleaving dials a rung exactly when it lies below the size of the fleet or a CDN endpoint reaches it. */
  lemma DialledExactly(fleet: seq<Endpoint>, t: Transport)
    ensures (exists ops :: After(Init(fleet), ops).tunnel == Connecting && After(Init(fleet), ops).transport == t)
            <==> MayDial(fleet, t)
  {
    hide After, MayDial;
    if ops :| After(Init(fleet), ops).tunnel == Connecting && After(Init(fleet), ops).transport == t {
      RungsOk(fleet, ops);
    }
    if MayDial(fleet, t) {
      var s := ReachesDial(fleet, t);
      var ops :| After(Init(fleet), ops) == s;
      assert After(Init(fleet), ops).tunnel == Connecting && After(Init(fleet), ops).transport == t;
    }
  }

  /** A rung is escalated to by some interleaving if and only if the one below it is dialled by some. */
  lemma EscalatedExactly(fleet: seq<Endpoint>, t: Transport)
    ensures (exists ops ::
              After(Init(fleet), ops).tunnel == SwitchingTransport && After(Init(fleet), ops).transport == t)
            <==> t != RealityDirect && MayDial(fleet, Below(t))
  {
    hide After, MayDial;
    if ops :| After(Init(fleet), ops).tunnel == SwitchingTransport && After(Init(fleet), ops).transport == t {
      RungsOk(fleet, ops);
    }
    if t != RealityDirect && MayDial(fleet, Below(t)) {
      NextOfBelow(t);
      var s := ReachesEscalation(fleet, Below(t));
      var ops :| After(Init(fleet), ops) == s;
      assert After(Init(fleet), ops).tunnel == SwitchingTransport && After(Init(fleet), ops).transport == t;
    }
  }

  lemma NextOfBelow(t: Transport)
    requires t != RealityDirect
    ensures Below(t) != Ss2022 && NextTransport(Below(t)) == t
  {
  }

  /** The last rung is shown by some interleaving exactly with four endpoints or more, and dialled exactly with five. */
  lemma LastRungExactly(fleet: seq<Endpoint>)
    ensures (exists ops :: After(Init(fleet), ops).transport == Ss2022) <==> |fleet| >= 4
    ensures (exists ops :: After(Init(fleet), ops).tunnel == Connecting && After(Init(fleet), ops).transport == Ss2022)
            <==> |fleet| >= 5
  {
    hide After;
    DialledExactly(fleet, Ss2022);
    EscalatedExactly(fleet, Ss2022);
    if ops :| After(Init(fleet), ops).transport == Ss2022 { RungsOk(fleet, ops); }
  }

  /**
   Escalation is overwritten: after an escalation from any rung the fleet allows, outside a blackout,
   the next attempt may dial any endpoint of the fleet on the rung of its position.
   */
  lemma EscalationOverwritten(fleet: seq<Endpoint>, t: Transport, j: nat) returns (ops: seq<Op>, more: seq<Op>)
    requires Position(t) < |fleet| && t != Ss2022 && j < |fleet|
    ensures var s := After(Init(fleet), ops);
            s.tunnel == SwitchingTransport && s.transport == NextTransport(t)
    ensures var s := After(Init(fleet), ops + more);
            s.tunnel == Connecting && s.attempt == 1 && s.transport == TransportAt(j)
  {
    hide After, Step, Solo, NextTransport, TransportAt, Candidates, WokenWith, Position;
    RungAllowed(fleet, t);
    var s := ReachesEscalation(fleet, t);
    ops :| After(Init(fleet), ops) == s;
    WakesSwitch(s, fleet);
    var b := WokenWith(s, 0, false);
    SoloFleet(b, fleet, Backoff, 1);
    CalmCandidate(b.endpoints, fleet, j);
    WakesToDial(b, fleet, Backoff, 1, j);
    var first := WokenOps(s, 0, false);
    var second := WokenOps(b, j, false);
    more := first + second;
    AfterSplit(s, first, second);
    AfterSplit(Init(fleet), ops, more);
  }

  lemma RungAllowed(fleet: seq<Endpoint>, t: Transport)
    requires Position(t) < |fleet|
    ensures MayDial(fleet, t)
  {
  }

  lemma SoloFleet(s: State, fleet: seq<Endpoint>, pc: Pc, a: nat)
    requires Solo(s, fleet, pc, a)
    ensures SameFleet(s.endpoints, fleet)
  {
  }

  lemma WokenOps(s: State, pick: nat, fails: bool) returns (ops: seq<Op>)
    ensures After(s, ops) == WokenWith(s, pick, fails)
  {
    hide Step;
    if Live(s) {
      var d := s.runs[s.tokenRef].deadline;
      var wait := Advance(if d > s.now then d - s.now else 0);
      ops := [wait, Resume(s.tokenRef, pick, fails)];
      AfterTwo(s, wait, Resume(s.tokenRef, pick, fails));
    } else {
      ops := [];
    }
  }
}
