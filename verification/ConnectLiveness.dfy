/** Every run of the connect protocol comes to an end: in time, in few wakes, and never stuck. */
module ConnectLiveness {
  import opened Wrappers
  import opened Scoring
  import opened Connect
  import opened ConnectSafety
  import opened ConnectRuns

  /** What the live run still owes, the sleep it is in included. */
  function OwedNow(s: State): nat {
    if Live(s) then Owed(s.runs[s.tokenRef].pc, s.runs[s.tokenRef].attempt) else 0
  }

  function LeftNow(s: State): nat {
    if Live(s) then Left(s.runs[s.tokenRef].pc, s.runs[s.tokenRef].attempt) else 0
  }

  /** Waking, the live run ends with an outcome or owes less by what it has just slept, and has a wake less to go. */
  lemma WakeProgress(s: State, pick: nat, fails: bool)
    requires Inv(s) && Live(s) && Enabled(s, Resume(s.tokenRef, pick, fails))
    ensures var s' := Step(s, Resume(s.tokenRef, pick, fails));
            var r := s.runs[s.tokenRef];
            && s'.tokenRef == s.tokenRef
            && (Live(s') ==> OwedNow(s') + Delay(r.pc, r.attempt) <= OwedNow(s) && LeftNow(s') < LeftNow(s))
            && (!Live(s') ==> s'.tunnel == ConfigError || (s'.tunnel == Connected && s'.sessionStart == Some(s'.now)))
  {
    hide Inv, Due, Dialled, Retried, Failed, Established, Slept;
    var r := s.runs[s.tokenRef];
    LiveRunOk(s);
    match r.pc
    case Prep =>
      BooksPrep();
      WakeSleeps(s, r, Net, 0, None, CheckingNetwork);
    case Net => WakeDials(s.(attempt := 0), r, 0, pick);
    case Backoff => WakeDials(s, r, r.attempt, pick);
    case Dial =>
      BooksHand(r.attempt);
      WakeSleeps(s, r, Hand, r.attempt, r.best, Handshake);
    case Hand => WakeFinishes(s, r, fails);
    case Switch => WakeRetries(s, r);
  }

  lemma WakeSleeps(s: State, r: Run, pc: Pc, a: nat, best: Option<Choice>, tunnel: Tunnel)
    requires Books(r.pc, r.attempt, pc, a)
    ensures var s' := Slept(s, r, pc, a, best).(tunnel := tunnel);
            s'.tokenRef == s.tokenRef && Live(s')
            && OwedNow(s') + Delay(r.pc, r.attempt) <= Owed(r.pc, r.attempt) && LeftNow(s') < Left(r.pc, r.attempt)
  {
    hide Owed, Delay, Least, Left;
  }

  lemma WakeDials(s: State, r: Run, a: nat, pick: nat)
    requires r.attempt == a && ((r.pc == Net && a == 0) || (r.pc == Backoff && 0 < a < MAX_ATTEMPTS))
    ensures var s' := Dialled(s, r, a, pick);
            && s'.tokenRef == s.tokenRef
            && (Live(s') ==>
                  OwedNow(s') + Delay(r.pc, r.attempt) <= Owed(r.pc, r.attempt) && LeftNow(s') < Left(r.pc, r.attempt))
            && (!Live(s') ==> s'.tunnel == ConfigError)
  {
    hide Candidates, Owed, Delay, Books, Pick, Left;
    BooksDial(r.pc, a);
    BooksMean(r.pc, a, Dial, a);
  }

  lemma BooksMean(pc: Pc, a: nat, pc': Pc, a': nat)
    requires Books(pc, a, pc', a')
    ensures Delay(pc, a) + Owed(pc', a') <= Owed(pc, a) && Left(pc', a') < Left(pc, a)
  {
  }

  lemma WakeRetries(s: State, r: Run)
    requires r.attempt < MAX_ATTEMPTS && (r.pc == Hand || r.pc == Switch)
    ensures var s' := Retried(s, r);
            && s'.tokenRef == s.tokenRef
            && (Live(s') ==>
                  OwedNow(s') + Delay(r.pc, r.attempt) <= Owed(r.pc, r.attempt) && LeftNow(s') < Left(r.pc, r.attempt))
            && (!Live(s') ==> s'.tunnel == ConfigError)
  {
    hide Owed, Delay, Books, Left;
    if r.attempt + 1 < MAX_ATTEMPTS {
      BooksRetry(r.pc, r.attempt);
      BooksMean(r.pc, r.attempt, Backoff, r.attempt + 1);
    }
  }

  lemma WakeFinishes(s: State, r: Run, fails: bool)
    requires r.attempt < MAX_ATTEMPTS && r.pc == Hand
    ensures var s' := if fails then Failed(s, r) else Established(s, r);
            && s'.tokenRef == s.tokenRef
            && (Live(s') ==>
                  OwedNow(s') + Delay(r.pc, r.attempt) <= Owed(r.pc, r.attempt) && LeftNow(s') < Left(r.pc, r.attempt))
            && (!Live(s') ==> s'.tunnel == ConfigError || (s'.tunnel == Connected && s'.sessionStart == Some(s'.now)))
  {
    hide Owed, Delay, Books, Left, WithStreaks, NextTransport, Retried;
    BooksSwitch(r.attempt);
    BooksMean(Hand, r.attempt, Switch, r.attempt);
    WakeRetries(s.(endpoints := WithStreaks(s.endpoints, r.best, true)), r);
  }

  lemma StreaksWritten(s: State, r: Run, fails: bool)
    ensures (if fails then Failed(s, r) else Established(s, r)).endpoints == WithStreaks(s.endpoints, r.best, fails)
  {
    hide Delay, WithStreaks, NextTransport;
  }

  /** Only the endpoint that was dialled has its streak changed: one more failure, or none. */
  lemma StreaksAfter(s: State, r: Run, fails: bool, i: nat)
    requires i < |s.endpoints|
    ensures var es := (if fails then Failed(s, r) else Established(s, r)).endpoints;
            var e := s.endpoints[i];
            && |es| == |s.endpoints|
            && es[i] == if r.best.Some? && r.best.value.id == e.id
                        then Endpoint(e.id, e.cdnRouted, if fails then e.failStreak + 1 else 0)
                        else e
  {
    hide Failed, Established;
    StreaksWritten(s, r, fails);
  }

  /**
   A run connects exactly when a handshake succeeds, escalates by one rung exactly when one fails below
   the top, and gives up exactly without candidates or after its fifth failure.
   */
  lemma EndsExactly(s: State, pick: nat, fails: bool)
    requires Inv(s) && Live(s) && Enabled(s, Resume(s.tokenRef, pick, fails))
    ensures var s' := Step(s, Resume(s.tokenRef, pick, fails));
            var r := s.runs[s.tokenRef];
            && (s'.tunnel == Connected <==> r.pc == Hand && !fails)
            && (s'.tunnel == SwitchingTransport <==> r.pc == Hand && fails && s.transport != Ss2022)
            && (s'.tunnel == SwitchingTransport ==> Position(s'.transport) == Position(s.transport) + 1)
            && (s'.tunnel == ConfigError
                <==> ((r.pc == Net || r.pc == Backoff) && Candidates(s.endpoints, s.scenario.Blackout?) == [])
                     || (r.attempt == 4 && (r.pc == Switch || (r.pc == Hand && fails && s.transport == Ss2022))))
  {
    hide Due, Inv, Delay, Candidates, WithStreaks, Pick, NextTransport, Position;
    LiveRunOk(s);
    TopRung(s.transport);
  }

  lemma TopRung(t: Transport)
    ensures NextTransport(t) == t <==> t == Ss2022
    ensures t != Ss2022 ==> Position(NextTransport(t)) == Position(t) + 1
  {
  }

  /** How often the run with this token wakes in `ops`. */
  function Wakes(s: State, token: nat, ops: seq<Op>): nat {
    if ops == [] then 0
    else
      var last := ops[|ops| - 1];
      Wakes(s, token, ops[..|ops| - 1])
      + if last.Resume? && last.token == token && Enabled(After(s, ops[..|ops| - 1]), last) then 1 else 0
  }

  /** Connected, though perhaps waiting for a recovery, or given up. */
  predicate HasOutcome(s: State) {
    s.tunnel == ConfigError || (s.sessionStart.Some? && (s.tunnel == Connected || s.tunnel == Reconnecting))
  }

  lemma OutcomeStep(s: State, op: Op)
    requires Inv(s) && (Live(s) || HasOutcome(s))
    ensures var s' := Step(s, op);
            s'.tokenRef >= s.tokenRef && (s'.tokenRef == s.tokenRef ==> Live(s') || HasOutcome(s'))
    ensures var s' := Step(s, op);
            var woke := op.Resume? && op.token == s.tokenRef && Enabled(s, op);
            s'.tokenRef == s.tokenRef && Live(s') ==>
              Live(s) && OwedNow(s') + (if woke then 500 else 0) <= OwedNow(s)
              && LeftNow(s') + (if woke then 1 else 0) <= LeftNow(s)
  {
    hide Owed, Left, RunOk, Due, Delay, Resumed;
    if Enabled(s, op) {
      match op
      case Resume(token, pick, fails) =>
        if token == s.tokenRef {
          WakeOutcome(s, pick, fails);
        } else {
          StaleDoesNothing(s, token, pick, fails);
        }
      case _ =>
    }
  }

  lemma WakeOutcome(s: State, pick: nat, fails: bool)
    requires Inv(s) && (Live(s) || HasOutcome(s)) && Enabled(s, Resume(s.tokenRef, pick, fails))
    ensures var s' := Step(s, Resume(s.tokenRef, pick, fails));
            && s'.tokenRef == s.tokenRef && (Live(s') || HasOutcome(s'))
            && (Live(s') ==> OwedNow(s') + 500 <= OwedNow(s) && LeftNow(s') < LeftNow(s))
  {
    hide Owed, Left, Inv, Due, Step, BackoffMs;
    WakeProgress(s, pick, fails);
    SleepsLong(s.runs[s.tokenRef].pc, s.runs[s.tokenRef].attempt);
    LiveRunOk(s);
  }

  lemma SleepsLong(pc: Pc, a: nat)
    ensures pc == Backoff && 0 < a ==> Delay(pc, a) >= 500
    ensures pc != Backoff ==> Delay(pc, a) >= 500
  {
    BackoffDelays();
  }

  /** A run that is not superseded has its outcome, or owes less and has fewer wakes to go for every time it woke. */
  lemma {:induction false} RunEnds(s: State, ops: seq<Op>)
    requires Inv(s) && Live(s)
    ensures var s' := After(s, ops);
            var n := Wakes(s, s.tokenRef, ops);
            && s'.tokenRef >= s.tokenRef
            && (s'.tokenRef == s.tokenRef ==> Live(s') || HasOutcome(s'))
            && (s'.tokenRef == s.tokenRef && Live(s') ==>
                  OwedNow(s') + 500 * n <= OwedNow(s) && LeftNow(s') + n <= LeftNow(s))
  {
    if ops != [] {
      hide Inv, Step, HasOutcome, OwedNow, LeftNow, Enabled;
      var front, last := ops[..|ops| - 1], ops[|ops| - 1];
      RunEnds(s, front);
      AlwaysInv(s, front);
      var m := After(s, front);
      TokenGrows(m, last);
      if m.tokenRef == s.tokenRef {
        OutcomeStep(m, last);
      }
    }
  }

  lemma LeftBounds(s: State)
    requires Inv(s) && Live(s)
    ensures 1 <= LeftNow(s) <= 21
  {
    hide Inv;
    LiveRunOk(s);
  }

  /** Whatever else happens, a run that has woken twenty-one times without being superseded has its outcome. */
  lemma EndsAfterTwentyOneWakes(s: State, ops: seq<Op>)
    requires Inv(s) && Live(s) && Wakes(s, s.tokenRef, ops) >= 21 && After(s, ops).tokenRef == s.tokenRef
    ensures !Live(After(s, ops)) && HasOutcome(After(s, ops))
  {
    hide Inv, After, HasOutcome, LeftNow, OwedNow, Wakes;
    RunEnds(s, ops);
    LeftBounds(s);
    AlwaysInv(s, ops);
    if Live(After(s, ops)) { LeftBounds(After(s, ops)); }
  }

  lemma TokenGrows(s: State, op: Op)
    requires Inv(s)
    ensures Step(s, op).tokenRef >= s.tokenRef
  {
    hide RunOk, Due, Delay, Candidates, WithStreaks, Resumed;
  }

  /** The clock: a run's sleeps never add up to more than 19050 ms, the last one included. */
  lemma RunInTime(fleet: seq<Endpoint>, ops: seq<Op>)
    ensures var s := After(Init(fleet), ops);
            Live(s) ==>
            var r := s.runs[s.tokenRef];
            && r.waited + OwedNow(s) <= LONGEST
            && r.deadline <= r.started + LONGEST + r.late
  {
    hide After;
    Reachable(fleet, ops);
    var s := After(Init(fleet), ops);
    if Live(s) {
      DelayOwed(s.runs[s.tokenRef].pc, s.runs[s.tokenRef].attempt);
    }
  }

  lemma DelayOwed(pc: Pc, a: nat)
    ensures Delay(pc, a) <= Owed(pc, a)
  {
    hide Later, BackoffMs;
  }

  // ----- Something can always happen next

  /** The pending callback with the earliest deadline. */
  lemma EarliestRun(runs: map<nat, Run>) returns (token: nat)
    requires runs != map[]
    ensures token in runs && forall t :: t in runs ==> runs[token].deadline <= runs[t].deadline
    decreases |runs|
  {
    token :| token in runs;
    var rest := runs - {token};
    assert rest.Keys == runs.Keys - {token};
    if rest != map[] {
      var other := EarliestRun(rest);
      assert forall t :: t in runs && t != token ==> t in rest && rest[t] == runs[t];
      if runs[other].deadline < runs[token].deadline {
        token := other;
      }
    }
  }

  /** While a run sleeps, waiting long enough makes some callback due. */
  lemma NoDeadlock(s: State) returns (ms: nat, op: Op)
    requires Inv(s) && Live(s)
    ensures (op.Resume? || op.Recover?) && Enabled(Step(s, Advance(ms)), op)
  {
    hide RunOk;
    var token := EarliestRun(s.runs);
    if s.recoveries != [] && s.recoveries[0].deadline < s.runs[token].deadline {
      ms, op := s.recoveries[0].deadline, Recover(0);
    } else {
      ms, op := s.runs[token].deadline, Resume(token, 0, false);
    }
  }

  predicate OnlyCallbacks(ops: seq<Op>) {
    forall i :: 0 <= i < |ops| ==> ops[i].Advance? || ops[i].Resume? || ops[i].Recover?
  }

  lemma {:induction false} AfterSplit(s: State, a: seq<Op>, b: seq<Op>)
    ensures After(s, a + b) == After(After(s, a), b)
  {
    hide Step;
    if b == [] {
      assert a + b == a;
    } else {
      AfterSplit(s, a, b[..|b| - 1]);
      assert (a + b)[..|a + b| - 1] == a + b[..|b| - 1];
    }
  }

  lemma AfterTwo(s: State, x: Op, y: Op)
    ensures After(s, [x, y]) == Step(Step(s, x), y)
  {
    hide Step;
    assert [x, y][..1] == [x] && [x][..0] == [];
    assert After(s, []) == s && After(s, [x]) == Step(s, x);
  }

  /** What is pending: wakes of the live run, other runs, recoveries. */
  function Pending(s: State): nat {
    LeftNow(s) + |s.runs| + |s.recoveries|
  }

  /** A callback that is due brings the live run to its outcome or leaves less pending. */
  lemma CallbackProgress(s: State, op: Op)
    requires Inv(s) && Live(s) && (op.Resume? || op.Recover?) && Enabled(s, op)
    ensures var s' := Step(s, op);
            && s'.tokenRef == s.tokenRef
            && (Live(s') ==> Pending(s') < Pending(s))
            && (!Live(s') ==> HasOutcome(s'))
  {
    hide Inv, Due, Resumed, HasOutcome, Left;
    match op
    case Resume(token, pick, fails) =>
      if token == s.tokenRef {
        WakeOutcome(s, pick, fails);
        LiveRunsKept(s, pick, fails);
      } else {
        StaleDoesNothing(s, token, pick, fails);
        assert (s.runs - {token}).Keys == s.runs.Keys - {token};
      }
    case Recover(j) =>
      assert |s.recoveries[..j] + s.recoveries[j + 1..]| == |s.recoveries| - 1;
  }

  /** A wake puts at most the live run back to sleep. */
  lemma LiveRunsKept(s: State, pick: nat, fails: bool)
    requires Live(s)
    ensures |Resumed(s, s.tokenRef, pick, fails).runs| <= |s.runs|
    ensures Resumed(s, s.tokenRef, pick, fails).recoveries == s.recoveries
  {
    hide Dialled, Slept, Retried, Failed, Established;
    var t := Resumed(s, s.tokenRef, pick, fails);
    assert t.runs.Keys <= s.runs.Keys;
    KeysFewer(t.runs, s.runs);
  }

  lemma KeysFewer(a: map<nat, Run>, b: map<nat, Run>)
    requires a.Keys <= b.Keys
    ensures |a| <= |b|
  {
    SetsFewer(a.Keys, b.Keys);
    assert |a| == |a.Keys| && |b| == |b.Keys|;
  }

  lemma {:induction false} SetsFewer(a: set<nat>, b: set<nat>)
    requires a <= b
    ensures |a| <= |b|
    decreases a
  {
    if x :| x in a { SetsFewer(a - {x}, b - {x}); }
  }

  lemma AdvanceKeeps(s: State, ms: nat)
    requires Inv(s)
    ensures var t := Step(s, Advance(ms));
            Inv(t) && t.tokenRef == s.tokenRef && Live(t) == Live(s) && Pending(t) == Pending(s)
  {
    hide Inv, RunOk;
    StepInv(s, Advance(ms));
  }

  /**
   From every state that can be reached with a run asleep, letting time pass and timers fire is enough:
   without anyone interfering the run comes to its outcome.
   */
  lemma {:induction false} Completes(s: State) returns (ops: seq<Op>)
    requires Inv(s) && Live(s)
    ensures OnlyCallbacks(ops)
    ensures var s' := After(s, ops); s'.tokenRef == s.tokenRef && !Live(s') && HasOutcome(s')
    decreases Pending(s)
  {
    hide Inv, Step, Enabled, HasOutcome, Pending, Live, After;
    var ms, op := NoDeadlock(s);
    AdvanceKeeps(s, ms);
    var t := Step(s, Advance(ms));
    CallbackProgress(t, op);
    StepInv(t, op);
    AfterTwo(s, Advance(ms), op);
    ops := [Advance(ms), op];
    if Live(Step(t, op)) {
      var rest := Completes(Step(t, op));
      AfterSplit(s, ops, rest);
      ops := ops + rest;
    }
  }
}
