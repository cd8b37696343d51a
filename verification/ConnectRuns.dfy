/** Properties of whole runs of the connect protocol, from a fresh store and over any interleaving. */
module ConnectRuns {
  import opened Wrappers
  import opened Scoring
  import opened Connect
  import opened ConnectSafety

  lemma Reachable(fleet: seq<Endpoint>, ops: seq<Op>)
    ensures Inv(After(Init(fleet), ops))
  {
    hide Inv, After;
    InitInv(fleet);
    AlwaysInv(Init(fleet), ops);
  }

  // ----- One live run, shown as it is

  /** The reference is the counter, and the tunnel is in a waiting state exactly while the newest run sleeps there. */
  lemma LiveRunShown(fleet: seq<Endpoint>, ops: seq<Op>)
    ensures var s := After(Init(fleet), ops);
            && s.tokenRef == s.counter && (forall t :: t in s.runs ==> t <= s.tokenRef)
            && (Live(s) ==> s.tunnel == Shown(s.runs[s.tokenRef].pc)
                            && s.attempt == s.runs[s.tokenRef].attempt < MAX_ATTEMPTS)
            && (NeedsRun(s.tunnel) ==> Live(s))
            && (s.tunnel == Reconnecting ==> Live(s) || |s.recoveries| == 1)
            && (s.tunnel == Connected ==> s.sessionStart.Some? && !Live(s) && s.recoveries == [])
            && |s.recoveries| <= 1
  {
    hide After, RunOk;
    Reachable(fleet, ops);
    var s := After(Init(fleet), ops);
    if Live(s) { LiveRunOk(s); }
  }

  // ----- The recovery timer

  /** It restores the very session it interrupted, or does nothing. */
  lemma RecoveryRestores(fleet: seq<Endpoint>, ops: seq<Op>, j: nat)
    requires Enabled(After(Init(fleet), ops), Recover(j))
    ensures var s := After(Init(fleet), ops);
            var s' := Step(s, Recover(j));
            var p := s.recoveries[j];
            && (s.tunnel != Reconnecting ==> s' == s.(recoveries := []))
            && (s.tunnel == Reconnecting ==>
                s' == s.(recoveries := [], tunnel := Connected)
                && !Live(s) && p.token == s.tokenRef && p.session == s.sessionStart && p.session.Some?)
  {
    hide After, RunOk;
    Reachable(fleet, ops);
    var s := After(Init(fleet), ops);
    assert s.recoveries[..j] + s.recoveries[j + 1..] == [];
  }

  /** A run is reconnecting no sooner than 2950 ms after its start, when no recovery is pending any more. */
  lemma ReconnectingIsLate(fleet: seq<Endpoint>, ops: seq<Op>)
    ensures var s := After(Init(fleet), ops);
            Live(s) && s.tunnel == Reconnecting
            ==> s.now >= s.runs[s.tokenRef].started + 2950 && s.recoveries == []
  {
    hide After, Owed;
    Reachable(fleet, ops);
  }

  // ----- Superseded runs

  /** The state without the runs that are no longer current. */
  function Pruned(s: State): State {
    s.(runs := if Live(s) then map[s.tokenRef := s.runs[s.tokenRef]] else map[])
  }

  /** The protocol that cancels a run at once when its token is superseded. */
  function AfterPruned(s: State, ops: seq<Op>): State {
    if ops == [] then s else Pruned(Step(AfterPruned(s, ops[..|ops| - 1]), ops[|ops| - 1]))
  }

  /** Every operation happens: no callback is called before it is due. */
  predicate Legal(s: State, ops: seq<Op>) {
    ops == [] || (Legal(s, ops[..|ops| - 1]) && Enabled(After(s, ops[..|ops| - 1]), ops[|ops| - 1]))
  }

  /** A superseded run wakes and goes: nothing else happens. */
  lemma StaleDoesNothing(s: State, token: nat, pick: nat, fails: bool)
    requires Enabled(s, Resume(token, pick, fails)) && token != s.tokenRef
    ensures Step(s, Resume(token, pick, fails)) == s.(runs := s.runs - {token})
  {
  }

  lemma StillEnabled(s: State, op: Op)
    requires Enabled(s, op) && (op.Resume? ==> op.token == s.tokenRef)
    ensures Enabled(Pruned(s), op)
  {
  }

  lemma SleptPruned(s: State, r: Run, pc: Pc, a: nat, best: Option<Choice>)
    ensures Pruned(Slept(s, r, pc, a, best)) == Slept(Pruned(s), r, pc, a, best)
  {
    hide Delay;
    assert Slept(Pruned(s), r, pc, a, best).runs == Pruned(Slept(s, r, pc, a, best)).runs;
  }

  lemma EndedPruned(s: State)
    ensures Pruned(Ended(s)) == Ended(Pruned(s))
  {
    assert Pruned(Ended(s)).runs == Ended(Pruned(s)).runs;
  }

  lemma DialledPruned(s: State, r: Run, a: nat, pick: nat)
    ensures Pruned(Dialled(s, r, a, pick)) == Dialled(Pruned(s), r, a, pick)
  {
    hide Candidates, Slept, Ended, Pick;
    var cs := Candidates(s.endpoints, s.scenario.Blackout?);
    if cs == [] {
      EndedPruned(s);
    } else {
      SleptPruned(s, r, Dial, a, Some(Pick(cs, pick)));
    }
  }

  lemma RetriedPruned(s: State, r: Run)
    ensures Pruned(Retried(s, r)) == Retried(Pruned(s), r)
  {
    hide Slept, Ended, Pruned;
    var a := r.attempt + 1;
    if a < MAX_ATTEMPTS {
      var t := Slept(s, r, Backoff, a, r.best);
      SleptPruned(s, r, Backoff, a, r.best);
      ShowsPruned(t, a, Reconnecting);
    } else {
      EndedPruned(s);
      ShowsPruned(Ended(s), 0, ConfigError);
    }
  }

  lemma ShowsPruned(s: State, a: nat, tunnel: Tunnel)
    ensures Pruned(s.(attempt := a, tunnel := tunnel)) == Pruned(s).(attempt := a, tunnel := tunnel)
    ensures Pruned(s.(tunnel := tunnel)) == Pruned(s).(tunnel := tunnel)
  {
  }

  lemma FinishedPruned(s: State, r: Run)
    ensures Pruned(Failed(s, r)) == Failed(Pruned(s), r)
    ensures Pruned(Established(s, r)) == Established(Pruned(s), r)
  {
    hide Slept, Ended, Retried, WithStreaks, NextTransport;
    var t := s.(endpoints := WithStreaks(s.endpoints, r.best, true));
    EndedPruned(s);
    SleptPruned(t, r, Switch, r.attempt, r.best);
    RetriedPruned(t, r);
  }

  lemma ResumedPruned(s: State, pick: nat, fails: bool)
    requires Live(s)
    ensures Pruned(Resumed(s, s.tokenRef, pick, fails)) == Resumed(Pruned(s), s.tokenRef, pick, fails)
  {
    hide Slept, Dialled, Retried, Failed, Established;
    var r := s.runs[s.tokenRef];
    match r.pc
    case Prep => SleptPruned(s, r, Net, 0, None);
    case Net => DialledPruned(s.(attempt := 0), r, 0, pick);
    case Backoff => DialledPruned(s, r, r.attempt, pick);
    case Dial => SleptPruned(s, r, Hand, r.attempt, r.best);
    case Hand => FinishedPruned(s, r);
    case Switch => RetriedPruned(s, r);
  }

  lemma PrunedTwice(s: State)
    ensures Pruned(Pruned(s)) == Pruned(s)
  {
  }

  lemma ConnectPruned(s: State)
    requires TokensOk(s)
    ensures Pruned(ConnectPressed(s)) == Pruned(ConnectPressed(Pruned(s)))
  {
    hide Delay, RunOk;
    assert s.counter + 1 !in s.runs;
  }

  lemma TornDownPruned(s: State)
    requires TokensOk(s)
    ensures Pruned(TornDown(s)) == Pruned(TornDown(Pruned(s)))
  {
    hide RunOk;
    assert s.counter + 1 !in s.runs;
  }

  lemma DeactivatePruned(s: State)
    requires TokensOk(s)
    ensures Pruned(TornDown(s).(activated := false)) == Pruned(TornDown(Pruned(s)).(activated := false))
  {
    hide TornDown;
    TornDownPruned(s);
  }

  lemma ScenarioPruned(s: State, to: Scenario)
    requires TokensOk(s)
    ensures Pruned(ScenarioSet(s, to)) == Pruned(ScenarioSet(Pruned(s), to))
  {
    hide TornDown, RunOk;
    var t := s.(scenario := to, helloSplit := false);
    assert Pruned(t) == Pruned(s).(scenario := to, helloSplit := false);
    TornDownPruned(t);
    PrunedTwice(t);
  }

  lemma TimersPruned(s: State, inject: bool, j: nat)
    ensures Pruned(Ticked(s, inject)) == Ticked(Pruned(s), inject)
    ensures j < |s.recoveries| ==> Pruned(Recovered(s, j)) == Recovered(Pruned(s), j)
  {
  }

  lemma OtherPruned(s: State, op: Op)
    requires TokensOk(s) && !op.Resume? && Enabled(s, op)
    ensures Pruned(Step(s, op)) == Pruned(Step(Pruned(s), op))
  {
    hide Due, ConnectPressed, TornDown, ScenarioSet, Ticked, Recovered;
    StillEnabled(s, op);
    match op
    case PressConnect => ConnectPruned(s);
    case PressDisconnect => TornDownPruned(s);
    case Deactivate => DeactivatePruned(s);
    case SetScenario(to) => ScenarioPruned(s, to);
    case Tick(inject) =>
      TimersPruned(s, inject, 0);
      PrunedTwice(Ticked(s, inject));
    case Recover(j) =>
      TimersPruned(s, false, j);
      PrunedTwice(Recovered(s, j));
    case _ =>
  }

  lemma PrunedStep(s: State, op: Op)
    requires TokensOk(s) && Enabled(s, op)
    ensures Pruned(Step(s, op)) == Pruned(Step(Pruned(s), op))
  {
    hide Resumed, Due, RunOk;
    match op
    case Resume(token, pick, fails) =>
      if token == s.tokenRef {
        StillEnabled(s, op);
        ResumedPruned(s, pick, fails);
        PrunedTwice(Resumed(s, token, pick, fails));
      } else {
        StaleDoesNothing(s, token, pick, fails);
        assert token !in Pruned(s).runs;
      }
    case _ => OtherPruned(s, op);
  }

  /** What the user sees is what would happen if superseded runs were cancelled on the spot. */
  lemma {:induction false} StaleRunsInvisible(fleet: seq<Endpoint>, ops: seq<Op>)
    requires Legal(Init(fleet), ops)
    ensures Pruned(After(Init(fleet), ops)) == AfterPruned(Init(fleet), ops)
  {
    hide Step, Enabled, RunOk;
    if ops != [] {
      hide Pruned;
      var front, last := ops[..|ops| - 1], ops[|ops| - 1];
      StaleRunsInvisible(fleet, front);
      Reachable(fleet, front);
      PrunedStep(After(Init(fleet), front), last);
    }
  }

  lemma {:induction false} StaysQuiet(s: State, ops: seq<Op>)
    requires Inv(s) && !Live(s) && s.tunnel == Idle && s.sessionStart.None?
    requires forall i :: 0 <= i < |ops| ==> !ops[i].PressConnect?
    ensures var s' := After(s, ops);
            && !Live(s') && s'.tunnel == Idle && s'.sessionStart.None? && s'.attempt == s.attempt
            && s'.transport == s.transport && s'.selected == s.selected && s'.endpoints == s.endpoints
  {
    if ops != [] {
      hide Inv, Step;
      StaysQuiet(s, ops[..|ops| - 1]);
      AlwaysInv(s, ops[..|ops| - 1]);
      QuietStep(After(s, ops[..|ops| - 1]), ops[|ops| - 1]);
    }
  }

  lemma QuietStep(s: State, op: Op)
    requires Inv(s) && !Live(s) && s.tunnel == Idle && s.sessionStart.None? && !op.PressConnect?
    ensures var s' := Step(s, op);
            && !Live(s') && s'.tunnel == Idle && s'.sessionStart.None? && s'.attempt == s.attempt
            && s'.transport == s.transport && s'.selected == s.selected && s'.endpoints == s.endpoints
  {
    hide Dialled, Slept, Failed, Established, Retried, RunOk, Due;
    assert s.counter + 1 !in s.runs;
  }

  lemma DisconnectQuiets(s: State)
    requires Inv(s)
    ensures var t := TornDown(s); Inv(t) && !Live(t) && t.tunnel == Idle && t.sessionStart.None?
  {
    hide RunOk;
    TornDownInv(s);
    assert s.counter + 1 !in s.runs;
  }

  /**
   On every interleaving a switch to blackout that finds the tunnel connected ends the session, whatever
   endpoint and transport it uses; every other switch leaves tunnel, token, session, runs and timers alone.
   */
  lemma SwitchExactly(fleet: seq<Endpoint>, ops: seq<Op>, to: Scenario)
    ensures var s := After(Init(fleet), ops);
            var t := Step(s, SetScenario(to));
            && t.scenario == to && !t.helloSplit && t.runs == s.runs && t.recoveries == s.recoveries
            && t.endpoints == s.endpoints && t.activated == s.activated
            && (to == Blackout && s.tunnel == Connected ==>
                  t.tunnel == Idle && t.sessionStart.None? && t.tokenRef == t.counter == s.tokenRef + 1 && !Live(t))
            && (to != Blackout || s.tunnel != Connected ==>
                  t.tunnel == s.tunnel && t.sessionStart == s.sessionStart && t.tokenRef == s.tokenRef
                  && t.counter == s.counter)
  {
    hide After, RunOk;
    Reachable(fleet, ops);
    var s := After(Init(fleet), ops);
    assert s.counter + 1 !in s.runs;
  }

  /** Connecting takes a new token always, and starts a run exactly with a licence; without one it shows that. */
  lemma ConnectExactly(fleet: seq<Endpoint>, ops: seq<Op>)
    ensures var s := After(Init(fleet), ops);
            var t := Step(s, PressConnect);
            && t.tokenRef == t.counter == s.tokenRef + 1
            && (Live(t) <==> s.activated)
            && (forall k :: k in s.runs ==> k in t.runs && t.runs[k] == s.runs[k])
            && (!s.activated ==> t.tunnel == LicenseRequired && t.sessionStart == s.sessionStart && t.runs == s.runs)
            && (s.activated ==>
                  t.tunnel == Preparing && t.attempt == 0 && t.sessionStart.None?
                  && t.runs[t.tokenRef].pc == Prep && t.runs[t.tokenRef].deadline == s.now + 650)
  {
    hide After, RunOk;
    Reachable(fleet, ops);
    var s := After(Init(fleet), ops);
    assert s.counter + 1 !in s.runs;
  }

  /** A tick resets exactly a connected tunnel under active inspection without a split hello; then 1500 ms are left. */
  lemma ResetExactly(fleet: seq<Endpoint>, ops: seq<Op>, inject: bool)
    ensures var s := After(Init(fleet), ops);
            var t := Step(s, Tick(inject));
            && (t.tunnel != s.tunnel <==> s.tunnel == Connected && s.scenario == ActiveDpi && !s.helloSplit && inject)
            && (t.tunnel != s.tunnel ==>
                  t.tunnel == Reconnecting && |t.recoveries| == 1 && t.recoveries[0].deadline == s.now + 1500
                  && t.sessionStart == s.sessionStart && t.tokenRef == s.tokenRef)
            && (t.tunnel == s.tunnel ==> t == s)
  {
    hide After, RunOk;
    Reachable(fleet, ops);
  }

  /** What ends a session: a disconnect, a deactivation, or a switch to blackout while connected. */
  predicate TearsDown(s: State, op: Op) {
    op == PressDisconnect || op == Deactivate || (op == SetScenario(Blackout) && s.tunnel == Connected)
  }

  /**
   After any of these nothing of the tunnel moves until the user connects again, whatever older runs,
   ticks and timers do.
   */
  lemma QuietAfterDisconnect(fleet: seq<Endpoint>, ops: seq<Op>, down: Op, more: seq<Op>)
    requires TearsDown(After(Init(fleet), ops), down)
    requires forall i :: 0 <= i < |more| ==> !more[i].PressConnect?
    ensures var t := Step(After(Init(fleet), ops), down);
            var s := After(t, more);
            && !Live(s) && s.tunnel == Idle && s.sessionStart.None? && s.attempt == t.attempt
            && s.transport == t.transport && s.selected == t.selected && s.endpoints == t.endpoints
  {
    hide After, TornDown, Inv, ScenarioSet;
    Reachable(fleet, ops);
    var s := After(Init(fleet), ops);
    DisconnectQuiets(s);
    DeactivateInv(s);
    if down.SetScenario? { BlackoutQuiets(s); }
    StaysQuiet(Step(s, down), more);
  }

  lemma BlackoutQuiets(s: State)
    requires Inv(s) && s.tunnel == Connected
    ensures var t := ScenarioSet(s, Blackout); Inv(t) && !Live(t) && t.tunnel == Idle && t.sessionStart.None?
  {
    hide RunOk;
    ScenarioInv(s, Blackout);
    assert s.counter + 1 !in s.runs;
  }

  // ----- Activation

  predicate InSession(s: State) {
    s.tunnel != Idle && s.tunnel != LicenseRequired && s.tunnel != ConfigError
  }

  predicate Licensed(s: State) {
    InSession(s) ==> s.activated
  }

  lemma LicensedResume(s: State, token: nat, pick: nat, fails: bool)
    requires Inv(s) && Licensed(s) && token in s.runs
    ensures Licensed(Resumed(s, token, pick, fails))
  {
    hide RunOk, Candidates, WithStreaks, Delay;
  }

  /** A session outlives its licence exactly by a failed verification during it. */
  lemma LicensedExactly(s: State, op: Op)
    requires Inv(s) && Licensed(s)
    ensures Licensed(Step(s, op)) <==> !(op == VerifyAndActivate(false) && InSession(s))
  {
    hide Due, Inv, Resumed;
    if op.Resume? && Enabled(s, op) { LicensedResume(s, op.token, op.pick, op.fails); }
  }

  /** Where activation is only ever taken away by `deactivate`, a session is licensed. */
  lemma {:induction false} LicensedAlways(fleet: seq<Endpoint>, ops: seq<Op>)
    requires VerifyAndActivate(false) !in ops
    ensures Licensed(After(Init(fleet), ops))
  {
    if ops != [] {
      hide Inv, Step;
      var front, last := ops[..|ops| - 1], ops[|ops| - 1];
      assert last in ops;
      LicensedAlways(fleet, front);
      Reachable(fleet, front);
      LicensedExactly(After(Init(fleet), front), last);
    }
  }

  /** Licensed now and at every point on the way. */
  predicate LicensedThroughout(s: State, ops: seq<Op>) {
    Licensed(After(s, ops)) && (ops != [] ==> LicensedThroughout(s, ops[..|ops| - 1]))
  }

  predicate NeverRevoked(s: State, ops: seq<Op>) {
    ops != [] ==>
      && !(ops[|ops| - 1] == VerifyAndActivate(false) && InSession(After(s, ops[..|ops| - 1])))
      && NeverRevoked(s, ops[..|ops| - 1])
  }

  /** Over whole runs: sessions are licensed throughout exactly when no verification failed during one. */
  lemma {:induction false} LicensedThroughoutExactly(fleet: seq<Endpoint>, ops: seq<Op>)
    ensures LicensedThroughout(Init(fleet), ops) <==> NeverRevoked(Init(fleet), ops)
  {
    if ops != [] {
      hide Inv, Step, Licensed, InSession;
      var front, last := ops[..|ops| - 1], ops[|ops| - 1];
      LicensedThroughoutExactly(fleet, front);
      Reachable(fleet, front);
      if Licensed(After(Init(fleet), front)) { LicensedExactly(After(Init(fleet), front), last); }
    }
  }

  // ----- Blackout

  /** An endpoint is being dialled, used, or waited for after a reset. */
  predicate OnEndpoint(s: State) {
    s.tunnel == Connecting || s.tunnel == Handshake || s.tunnel == Connected || (s.tunnel == Reconnecting && !Live(s))
  }

  predicate CdnSelected(s: State) {
    s.selected.Some? && s.selected.value.cdnRouted
  }

  predicate CdnInBlackout(s: State) {
    s.scenario.Blackout? && OnEndpoint(s) ==> CdnSelected(s)
  }

  lemma DialledCdn(s: State, r: Run, a: nat, pick: nat)
    ensures CdnInBlackout(Dialled(s, r, a, pick))
  {
    hide CdnOnly, Slept, Pick;
    var cs := Candidates(s.endpoints, s.scenario.Blackout?);
    assert cs != [] ==> Pick(cs, pick) in cs;
  }

  lemma BlackoutResume(s: State, token: nat, pick: nat, fails: bool)
    requires Inv(s) && CdnInBlackout(s) && token in s.runs
    ensures CdnInBlackout(Resumed(s, token, pick, fails))
  {
    hide RunOk, Dialled, WithStreaks, Delay;
    var r := s.runs[token];
    DialledCdn(s, r, r.attempt, pick);
    DialledCdn(s.(attempt := 0), r, 0, pick);
  }

  /** The switch to blackout tears down a connected tunnel, but neither a dial nor a pending recovery. */
  lemma BlackoutExactly(s: State, op: Op)
    requires Inv(s) && CdnInBlackout(s)
    ensures CdnInBlackout(Step(s, op))
            <==> !(op == SetScenario(Blackout) && OnEndpoint(s) && s.tunnel != Connected && !CdnSelected(s))
  {
    hide Due, RunOk, Resumed, Delay;
    if op.Resume? && Enabled(s, op) { BlackoutResume(s, op.token, op.pick, op.fails); }
  }

  /** Over a CDN endpoint and the CDN transport. */
  predicate ViaCdn(s: State) {
    CdnSelected(s) && s.transport == WsTlsCdn
  }

  predicate RoutedInBlackout(s: State) {
    s.scenario.Blackout? && OnEndpoint(s) ==> ViaCdn(s)
  }

  /** A switch to blackout that finds an endpoint dialled or interrupted, but not connected, outside the CDN. */
  predicate Unsafe(s: State, op: Op) {
    op == SetScenario(Blackout) && OnEndpoint(s) && s.tunnel != Connected && !ViaCdn(s)
  }

  lemma DialledRouted(s: State, r: Run, a: nat, pick: nat)
    ensures RoutedInBlackout(Dialled(s, r, a, pick))
  {
    hide CdnOnly, Slept, Pick;
    var cs := Candidates(s.endpoints, s.scenario.Blackout?);
    assert cs != [] ==> Pick(cs, pick) in cs;
  }

  lemma RoutedResume(s: State, token: nat, pick: nat, fails: bool)
    requires Inv(s) && RoutedInBlackout(s) && token in s.runs
    ensures RoutedInBlackout(Resumed(s, token, pick, fails))
  {
    hide RunOk, Dialled, WithStreaks, Delay, NextTransport;
    var r := s.runs[token];
    DialledRouted(s, r, r.attempt, pick);
    DialledRouted(s.(attempt := 0), r, 0, pick);
  }

  /** The same for endpoint and transport together. */
  lemma RoutedExactly(s: State, op: Op)
    requires Inv(s) && RoutedInBlackout(s)
    ensures RoutedInBlackout(Step(s, op)) <==> !Unsafe(s, op)
  {
    hide Due, RunOk, Resumed, Delay;
    if op.Resume? && Enabled(s, op) { RoutedResume(s, op.token, op.pick, op.fails); }
  }

  /** Routed now and at every point on the way. */
  predicate RoutedThroughout(s: State, ops: seq<Op>) {
    RoutedInBlackout(After(s, ops)) && (ops != [] ==> RoutedThroughout(s, ops[..|ops| - 1]))
  }

  predicate NeverUnsafe(s: State, ops: seq<Op>) {
    ops != [] ==> !Unsafe(After(s, ops[..|ops| - 1]), ops[|ops| - 1]) && NeverUnsafe(s, ops[..|ops| - 1])
  }

  /** Over whole runs: blackout traffic stays on the CDN throughout exactly when no switch to blackout was unsafe. */
  lemma {:induction false} RoutedAlwaysExactly(fleet: seq<Endpoint>, ops: seq<Op>)
    ensures RoutedThroughout(Init(fleet), ops) <==> NeverUnsafe(Init(fleet), ops)
  {
    if ops != [] {
      hide Inv, Step, RoutedInBlackout, Unsafe;
      var front, last := ops[..|ops| - 1], ops[|ops| - 1];
      RoutedAlwaysExactly(fleet, front);
      Reachable(fleet, front);
      if RoutedInBlackout(After(Init(fleet), front)) { RoutedExactly(After(Init(fleet), front), last); }
    }
  }

  // ----- Neither condition can be dropped

  const FLEET := [Endpoint("fra-04", false, 0)]

  /** The run wakes as soon as it may. */
  function Woken(s: State): State {
    if !Live(s) then s
    else
      var d := s.runs[s.tokenRef].deadline;
      Step(Step(s, Advance(if d > s.now then d - s.now else 0)), Resume(s.tokenRef, 0, false))
  }

  /** A state in which a run is the only thing pending. */
  predicate Alone(s: State, pc: Pc) {
    s.tokenRef == 1 && s.recoveries == [] && s.runs.Keys == {1} && s.runs[1].pc == pc
    && s.runs[1].best == s.selected && s.endpoints == FLEET
  }

  predicate Kept(s: State, t: State) {
    t.activated == s.activated && t.scenario == s.scenario
  }

  lemma WakesPrep(s: State)
    requires Alone(s, Prep) && s.selected.None?
    ensures Alone(Woken(s), Net) && Kept(s, Woken(s))
  {
    hide Delay;
  }

  lemma WakesNet(s: State)
    requires Alone(s, Net) && s.scenario == Calm
    ensures var t := Woken(s);
            Alone(t, Dial) && Kept(s, t) && t.tunnel == Connecting && t.selected.Some? && !CdnSelected(t)
  {
    hide Delay;
    assert !Pick(Candidates(FLEET, false), 0).cdnRouted;
  }

  lemma WakesDial(s: State)
    requires Alone(s, Dial)
    ensures Alone(Woken(s), Hand) && Kept(s, Woken(s)) && Woken(s).selected == s.selected
  {
    hide Delay;
  }

  lemma WakesHand(s: State)
    requires Alone(s, Hand)
    ensures var t := Woken(s);
            t.tunnel == Connected && Kept(s, t) && t.selected == s.selected && t.runs == map[] && t.recoveries == []
  {
    hide Delay, WithStreaks;
  }

  lemma StartsAlone()
    ensures var s := Step(Step(Init(FLEET), VerifyAndActivate(true)), PressConnect);
            Alone(s, Prep) && s.scenario == Calm && s.selected.None?
  {
    hide Delay;
  }

  lemma Interfere(s: State)
    requires Alone(s, Dial) && s.tunnel == Connecting
    ensures var t := Step(Step(s, VerifyAndActivate(false)), SetScenario(Blackout));
            Alone(t, Dial) && !t.activated && t.scenario == Blackout && t.selected == s.selected
  {
  }

  /** A failed verification and a switch to blackout during the first dial stop nothing. */
  lemma MidDialNotStopped()
    ensures var dialling := Woken(Woken(Step(Step(Init(FLEET), VerifyAndActivate(true)), PressConnect)));
            var t := Woken(Woken(Step(Step(dialling, VerifyAndActivate(false)), SetScenario(Blackout))));
            dialling.tunnel == Connecting && t.tunnel == Connected && !Licensed(t) && !CdnInBlackout(t)
  {
    hide Delay, Woken, Alone, Step;
    var s := Step(Step(Init(FLEET), VerifyAndActivate(true)), PressConnect);
    StartsAlone();
    WakesPrep(s);
    WakesNet(Woken(s));
    Interfere(Woken(Woken(s)));
    var t := Step(Step(Woken(Woken(s)), VerifyAndActivate(false)), SetScenario(Blackout));
    WakesDial(t);
    WakesHand(Woken(t));
  }

  /** A session outside the CDN that is interrupted before the switch to blackout is restored during it. */
  lemma Interrupted(s: State)
    requires s.tunnel == Connected && s.runs == map[] && s.recoveries == [] && s.selected.Some? && !CdnSelected(s)
    ensures var reset := Step(Step(s, SetScenario(ActiveDpi)), Tick(true));
            var t := Step(Step(Step(reset, SetScenario(Blackout)), Advance(RECOVERY)), Recover(0));
            reset.tunnel == Reconnecting && |reset.recoveries| == 1
            && t.tunnel == Connected && t.scenario == Blackout && !CdnInBlackout(t)
  {
  }

  lemma RecoveryNotStopped()
    ensures var connected := Woken(Woken(Woken(Woken(
              Step(Step(Init(FLEET), VerifyAndActivate(true)), PressConnect)))));
            var reset := Step(Step(connected, SetScenario(ActiveDpi)), Tick(true));
            var t := Step(Step(Step(reset, SetScenario(Blackout)), Advance(RECOVERY)), Recover(0));
            connected.tunnel == Connected && reset.tunnel == Reconnecting && t.tunnel == Connected && !CdnInBlackout(t)
  {
    hide Delay, Woken, Alone, Step;
    var s := Step(Step(Init(FLEET), VerifyAndActivate(true)), PressConnect);
    StartsAlone();
    WakesPrep(s);
    WakesNet(Woken(s));
    WakesDial(Woken(Woken(s)));
    WakesHand(Woken(Woken(Woken(s))));
    Interrupted(Woken(Woken(Woken(Woken(s)))));
  }
}
