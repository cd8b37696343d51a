/** What holds on every interleaving of the connect protocol. */
module ConnectSafety {
  import opened Wrappers
  import opened Scoring
  import opened Connect

  // ----- Waiting times

  /** The tunnel state shown while a run sleeps. */
  function Shown(pc: Pc): Tunnel {
    match pc
    case Prep => Preparing
    case Net => CheckingNetwork
    case Dial => Connecting
    case Hand => Handshake
    case Switch => SwitchingTransport
    case Backoff => Reconnecting
  }

  lemma BackoffDelays()
    ensures Delay(Backoff, 1) == 1000 && Delay(Backoff, 2) == 2000
    ensures forall a: nat :: a >= 3 ==> Delay(Backoff, a) == 2200
  {
    assert Pow2(2) == 4 && Pow2(3) == 8 && Pow2(4) == 16;
    forall a: nat | a >= 3
      ensures Delay(Backoff, a) == 2200
    {
      assert a >= 4 ==> Pow2(Min(4, a)) == 16;
    }
  }

  /** All that attempts after `a` may still sleep. */
  function Later(a: nat): nat
    decreases MAX_ATTEMPTS - a
  {
    if a + 1 >= MAX_ATTEMPTS then 0 else Delay(Backoff, a + 1) + 850 + 700 + 500 + Later(a + 1)
  }

  /** The longest a run may still sleep, the present sleep included. */
  function Owed(pc: Pc, a: nat): nat {
    match pc
    case Prep => 650 + 750 + 850 + 700 + 500 + Later(0)
    case Net => 750 + 850 + 700 + 500 + Later(0)
    case Dial => 850 + 700 + 500 + Later(a)
    case Hand => 700 + 500 + Later(a)
    case Switch => 500 + Later(a)
    case Backoff => Delay(Backoff, a) + 850 + 700 + 500 + Later(a)
  }

  /** How often a run may still wake. */
  function Left(pc: Pc, a: nat): nat {
    var later := if a < MAX_ATTEMPTS then 4 * (MAX_ATTEMPTS - 1 - a) else 0;
    match pc
    case Prep => 5 + later
    case Net => 4 + later
    case Dial => 3 + later
    case Hand => 2 + later
    case Switch => 1 + later
    case Backoff => 4 + later
  }

  const LONGEST := 19050

  lemma LongestIs()
    ensures Owed(Prep, 0) == LONGEST
  {
    BackoffDelays();
    assert Later(4) == 0 && Later(3) == 4250 && Later(2) == 8500;
    assert Later(1) == 12550 && Later(0) == 15600;
  }

  /** The least a run has slept before it gets where it is. */
  function Least(pc: Pc, a: nat): nat {
    if a > 0 then 2950
    else
      match pc
      case Prep => 0
      case Net => 650
      case Dial => 1400
      case Hand => 2250
      case Switch => 2950
      case Backoff => 2950
  }

  predicate RunOk(r: Run) {
    && r.attempt < MAX_ATTEMPTS
    && (r.pc == Prep || r.pc == Net ==> r.attempt == 0) && (r.pc == Backoff ==> r.attempt > 0)
    && r.deadline == r.started + r.waited + Delay(r.pc, r.attempt) + r.late
    && Least(r.pc, r.attempt) <= r.waited && r.waited + Owed(r.pc, r.attempt) <= LONGEST
  }

  // ----- The invariant

  predicate Live(s: State) {
    s.tokenRef in s.runs
  }

  /** Only a run that is asleep, or a reset, explains these states. */
  predicate NeedsRun(t: Tunnel) {
    t == Preparing || t == CheckingNetwork || t == Connecting || t == Handshake || t == SwitchingTransport
  }

  /** Its present sleep has begun. */
  predicate Begun(r: Run, now: nat) {
    r.started + r.waited + r.late <= now
  }

  predicate TokensOk(s: State) {
    && s.tokenRef == s.counter
    && (forall t :: t in s.runs ==> t <= s.counter && RunOk(s.runs[t]) && Begun(s.runs[t], s.now))
  }

  predicate LiveOk(s: State) {
    && (Live(s) ==>
      var r := s.runs[s.tokenRef];
      && s.tunnel == Shown(r.pc) && s.attempt == r.attempt && s.sessionStart.None?
      && (r.pc == Dial || r.pc == Hand ==>
            r.best.Some? && s.selected == r.best && s.transport == r.best.value.transport))
    && (!Live(s) ==> !NeedsRun(s.tunnel))
    && (!Live(s) && s.tunnel == Reconnecting ==> s.recoveries != [])
    && (s.tunnel == Connected ==> s.sessionStart.Some?)
  }

  predicate RecoveryOk(s: State) {
    && |s.recoveries| <= 1
    && (s.recoveries != [] ==>
      var p := s.recoveries[0];
      && s.tunnel != Connected && p.deadline <= s.now + RECOVERY && p.session.Some?
      && (s.tunnel == Reconnecting ==> !Live(s) && p.token == s.tokenRef && p.session == s.sessionStart)
      && (Live(s) ==> p.deadline <= s.runs[s.tokenRef].started + RECOVERY && s.runs[s.tokenRef].attempt == 0))
  }

  predicate Inv(s: State) {
    TokensOk(s) && LiveOk(s) && RecoveryOk(s)
  }

  lemma InitInv(fleet: seq<Endpoint>)
    ensures Inv(Init(fleet))
  {
  }

  // ----- Steps of the live run

  /** While a recovery is pending, a live run cannot get past its first dial. */
  lemma RecoveryFirst(s: State, token: nat)
    requires Inv(s) && token == s.tokenRef && token in s.runs && Due(s, s.runs[token].deadline)
    ensures var r := s.runs[token]; r.waited + Delay(r.pc, r.attempt) >= 2250 ==> s.recoveries == []
  {
    hide Owed, Least, Delay;
    assert RunOk(s.runs[token]);
    if s.recoveries != [] {
      assert s.runs[token].deadline <= s.recoveries[0].deadline;
    }
  }

  /** The live run of `s` sleeps again, in `t`. */
  ghost predicate SleepsAgain(s: State, t: State, pc: Pc, a: nat) {
    && Live(s) && (exists best :: t.runs == Slept(s, s.runs[s.tokenRef], pc, a, best).runs)
    && t.tunnel == Shown(pc) && t.attempt == a && t.now == s.now && t.tokenRef == s.tokenRef && t.counter == s.counter
    && t.sessionStart == s.sessionStart && t.recoveries == s.recoveries
    && (pc == Dial || pc == Hand ==>
      var best := t.runs[t.tokenRef].best;
      best.Some? && t.selected == best && t.transport == best.value.transport)
  }

  /** The books of a run that sleeps at `pc` and then at `pc'`. */
  predicate Books(pc: Pc, a: nat, pc': Pc, a': nat) {
    && a' < MAX_ATTEMPTS && (pc' == Prep || pc' == Net ==> a' == 0) && (pc' == Backoff ==> a' > 0)
    && Least(pc', a') <= Least(pc, a) + Delay(pc, a)
    && Delay(pc, a) + Owed(pc', a') <= Owed(pc, a)
    && Left(pc', a') < Left(pc, a)
    && (a' > 0 || pc' == Hand ==> Least(pc, a) + Delay(pc, a) >= 2250)
  }

  lemma SleepsAgainOk(r: Run, r': Run, now: nat)
    requires RunOk(r) && Books(r.pc, r.attempt, r'.pc, r'.attempt) && r.deadline <= now
    requires r' == Run(r'.pc, r'.attempt, r'.best, now + Delay(r'.pc, r'.attempt), r.started,
                       r.waited + Delay(r.pc, r.attempt), r.late + (now - r.deadline))
    ensures RunOk(r') && Begun(r', now) && r'.waited >= Least(r.pc, r.attempt) + Delay(r.pc, r.attempt)
  {
    hide Owed, Least, Delay;
  }

  lemma SleepsAgainInv(s: State, t: State, pc: Pc, a: nat)
    requires Inv(s) && SleepsAgain(s, t, pc, a) && Due(s, s.runs[s.tokenRef].deadline)
    requires Books(s.runs[s.tokenRef].pc, s.runs[s.tokenRef].attempt, pc, a)
    ensures Inv(t)
  {
    hide Owed, Least, Delay, RunOk, Due;
    var r := s.runs[s.tokenRef];
    assert RunOk(r);
    NotEarly(s, s.tokenRef);
    SleepsAgainOk(r, t.runs[t.tokenRef], s.now);
    RecoveryFirst(s, s.tokenRef);
    LeastHolds(r);
    assert pc == Backoff ==> a > 0;
  }

  lemma NotEarly(s: State, token: nat)
    requires token in s.runs && Due(s, s.runs[token].deadline)
    ensures s.runs[token].deadline <= s.now
  {
  }

  lemma LeastHolds(r: Run)
    requires RunOk(r)
    ensures r.waited >= Least(r.pc, r.attempt)
  {
  }

  lemma BooksPrep()
    ensures Books(Prep, 0, Net, 0)
  {
    hide Later;
  }

  lemma BooksDial(pc: Pc, a: nat)
    requires (pc == Net && a == 0) || (pc == Backoff && 0 < a < MAX_ATTEMPTS)
    ensures Books(pc, a, Dial, a)
  {
    hide Later, BackoffMs;
  }

  lemma BooksHand(a: nat)
    requires a < MAX_ATTEMPTS
    ensures Books(Dial, a, Hand, a)
  {
    hide Later;
  }

  lemma BooksSwitch(a: nat)
    requires a < MAX_ATTEMPTS
    ensures Books(Hand, a, Switch, a)
  {
    hide Later;
  }

  lemma BooksRetry(pc: Pc, a: nat)
    requires (pc == Hand || pc == Switch) && a + 1 < MAX_ATTEMPTS
    ensures Books(pc, a, Backoff, a + 1)
  {
    hide BackoffMs;
  }

  /** The live run is over: `t` has its outcome. */
  lemma EndsInv(s: State, t: State)
    requires Inv(s) && Live(s) && t.runs == s.runs - {s.tokenRef}
    requires t.now == s.now && t.tokenRef == s.tokenRef && t.counter == s.counter && t.recoveries == s.recoveries
    requires t.tunnel == ConfigError || (t.tunnel == Connected && t.sessionStart.Some? && s.recoveries == [])
    ensures Inv(t)
  {
    hide RunOk;
  }

  lemma DialledInv(s: State, r: Run, a: nat, pick: nat)
    requires Inv(s) && Live(s) && r == s.runs[s.tokenRef] && Due(s, r.deadline)
    requires r.attempt == a && (r.pc == Net || r.pc == Backoff)
    ensures Inv(Dialled(s, r, a, pick))
  {
    hide Books, RunOk, Due, Inv, Delay, Candidates, Pick;
    var t := Dialled(s, r, a, pick);
    LiveRunOk(s);
    if Candidates(s.endpoints, s.scenario.Blackout?) == [] {
      EndsInv(s, t);
    } else {
      BooksDial(r.pc, a);
      var best := Pick(Candidates(s.endpoints, s.scenario.Blackout?), pick);
      assert t.runs == Slept(s, r, Dial, a, Some(best)).runs;
      SleepsAgainInv(s, t, Dial, a);
    }
  }

  lemma LiveRunOk(s: State)
    requires Inv(s) && Live(s)
    ensures var r := s.runs[s.tokenRef];
            && RunOk(r) && r.attempt < MAX_ATTEMPTS && s.attempt == r.attempt
            && (r.pc == Prep || r.pc == Net ==> r.attempt == 0) && (r.pc == Backoff ==> r.attempt > 0)
            && (r.pc == Dial || r.pc == Hand ==>
                r.best.Some? && s.selected == r.best && s.transport == r.best.value.transport)
  {
  }

  lemma RetriedInv(s: State, r: Run, endpoints: seq<Endpoint>)
    requires Inv(s) && Live(s) && r == s.runs[s.tokenRef] && Due(s, r.deadline) && (r.pc == Hand || r.pc == Switch)
    ensures Inv(Retried(s.(endpoints := endpoints), r))
  {
    hide Books, RunOk, Due, Inv, Delay;
    var t := Retried(s.(endpoints := endpoints), r);
    LiveRunOk(s);
    if r.attempt + 1 < MAX_ATTEMPTS {
      BooksRetry(r.pc, r.attempt);
      assert t.runs == Slept(s, r, Backoff, r.attempt + 1, r.best).runs;
      SleepsAgainInv(s, t, Backoff, r.attempt + 1);
    } else {
      EndsInv(s, t);
    }
  }

  lemma FinishedInv(s: State, r: Run, fails: bool)
    requires Inv(s) && Live(s) && r == s.runs[s.tokenRef] && Due(s, r.deadline) && r.pc == Hand
    ensures Inv(if fails then Failed(s, r) else Established(s, r))
  {
    hide Books, RunOk, Due, Inv, WithStreaks, NextTransport;
    LiveRunOk(s);
    if !fails {
      LeastHolds(r);
      BooksSwitch(r.attempt);
      HandLate(r);
      RecoveryFirst(s, s.tokenRef);
      EndsInv(s, Established(s, r));
    } else if NextTransport(s.transport) != s.transport {
      BooksSwitch(r.attempt);
      var t := Failed(s, r);
      assert t.runs == Slept(s, r, Switch, r.attempt, r.best).runs;
      SleepsAgainInv(s, t, Switch, r.attempt);
    } else {
      RetriedInv(s, r, WithStreaks(s.endpoints, r.best, true));
    }
  }

  lemma HandLate(r: Run)
    requires RunOk(r) && r.pc == Hand
    ensures r.waited + Delay(r.pc, r.attempt) >= 2950
  {
    hide Owed;
  }

  lemma PrepInv(s: State, r: Run)
    requires Inv(s) && Live(s) && r == s.runs[s.tokenRef] && Due(s, r.deadline) && r.pc == Prep
    ensures Inv(Slept(s, r, Net, 0, None).(tunnel := CheckingNetwork))
  {
    hide Books, RunOk, Due, Inv;
    LiveRunOk(s);
    BooksPrep();
    var t := Slept(s, r, Net, 0, None).(tunnel := CheckingNetwork);
    assert t.runs == Slept(s, r, Net, 0, None).runs;
    SleepsAgainInv(s, t, Net, 0);
  }

  lemma DialInv(s: State, r: Run)
    requires Inv(s) && Live(s) && r == s.runs[s.tokenRef] && Due(s, r.deadline) && r.pc == Dial
    ensures Inv(Slept(s, r, Hand, r.attempt, r.best).(tunnel := Handshake))
  {
    hide Books, RunOk, Due, Inv;
    LiveRunOk(s);
    BooksHand(r.attempt);
    var t := Slept(s, r, Hand, r.attempt, r.best).(tunnel := Handshake);
    assert t.runs == Slept(s, r, Hand, r.attempt, r.best).runs;
    SleepsAgainInv(s, t, Hand, r.attempt);
  }

  lemma StaleInv(s: State, token: nat)
    requires Inv(s) && token != s.tokenRef
    ensures Inv(s.(runs := s.runs - {token}))
  {
    hide RunOk;
  }

  lemma ResumedInv(s: State, token: nat, pick: nat, fails: bool)
    requires Inv(s) && Enabled(s, Resume(token, pick, fails))
    ensures Inv(Resumed(s, token, pick, fails))
  {
    hide Inv, Due, Dialled, Retried, Failed, Established, Slept;
    if token == s.tokenRef {
      var r := s.runs[token];
      LiveRunOk(s);
      match r.pc
      case Prep => PrepInv(s, r);
      case Net =>
        assert s.(attempt := 0) == s;
        DialledInv(s, r, 0, pick);
      case Backoff => DialledInv(s, r, r.attempt, pick);
      case Dial => DialInv(s, r);
      case Hand => FinishedInv(s, r, fails);
      case Switch =>
        assert s.(endpoints := s.endpoints) == s;
        RetriedInv(s, r, s.endpoints);
    } else {
      StaleInv(s, token);
    }
  }

  // ----- The other steps

  lemma ConnectInv(s: State)
    requires Inv(s)
    ensures Inv(ConnectPressed(s))
  {
    hide RunOk;
    FirstRunOk(s.now);
  }

  lemma FirstRunOk(now: nat)
    ensures RunOk(Run(Prep, 0, None, now + Delay(Prep, 0), now, 0, 0))
  {
    LongestIs();
  }

  lemma TornDownInv(s: State)
    requires Inv(s)
    ensures Inv(TornDown(s))
  {
    hide RunOk;
  }

  lemma DeactivateInv(s: State)
    requires Inv(s)
    ensures Inv(TornDown(s).(activated := false))
  {
    hide RunOk, TornDown;
    TornDownInv(s);
  }

  lemma ScenarioInv(s: State, to: Scenario)
    requires Inv(s)
    ensures Inv(ScenarioSet(s, to))
  {
    hide RunOk, TornDown;
    var t := s.(scenario := to, helloSplit := false);
    assert Inv(t);
    TornDownInv(t);
  }

  lemma TickInv(s: State, inject: bool)
    requires Inv(s)
    ensures Inv(Ticked(s, inject))
  {
    hide RunOk;
  }

  lemma RecoverInv(s: State, j: nat)
    requires Inv(s) && j < |s.recoveries|
    ensures Inv(Recovered(s, j))
  {
    hide RunOk;
    assert s.recoveries[..j] + s.recoveries[j + 1..] == [];
  }

  lemma OthersInv(s: State, op: Op)
    requires Inv(s) && (op.Advance? || op.VerifyAndActivate? || op.SetHelloSplit?)
    ensures Inv(Step(s, op))
  {
    hide RunOk;
  }

  lemma StepInv(s: State, op: Op)
    requires Inv(s)
    ensures Inv(Step(s, op))
  {
    hide Inv, Due, Resumed, ConnectPressed, TornDown, ScenarioSet, Ticked, Recovered;
    if Enabled(s, op) {
      match op
      case Resume(token, pick, fails) => ResumedInv(s, token, pick, fails);
      case PressConnect => ConnectInv(s);
      case PressDisconnect => TornDownInv(s);
      case Deactivate => DeactivateInv(s);
      case SetScenario(to) => ScenarioInv(s, to);
      case Tick(inject) => TickInv(s, inject);
      case Recover(j) => RecoverInv(s, j);
      case _ => OthersInv(s, op);
    }
  }

  lemma {:induction false} AlwaysInv(s: State, ops: seq<Op>)
    requires Inv(s)
    ensures Inv(After(s, ops))
  {
    hide Inv, Step;
    if ops != [] {
      AlwaysInv(s, ops[..|ops| - 1]);
      StepInv(After(s, ops[..|ops| - 1]), ops[|ops| - 1]);
    }
  }
}
