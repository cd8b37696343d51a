/**
 The connect protocol of the preview store. Asynchronous runs sleep on timers and compare their
 token when they wake; the user, a one-second tick and a recovery timer act between.
 */
module Connect {
  import opened Wrappers
  import opened Scoring

  datatype Tunnel =
      Idle | Preparing | CheckingNetwork | Connecting | Handshake | Connected
    | Reconnecting | SwitchingTransport | LicenseRequired | ConfigError

  datatype Scenario = Calm | Throttling | ActiveDpi | Blackout

  datatype Endpoint = Endpoint(id: string, cdnRouted: bool, failStreak: nat)

  /** What the scoring pass selects. */
  datatype Choice = Choice(id: string, cdnRouted: bool, transport: Transport)

  /** Where a run sleeps. */
  datatype Pc = Prep | Net | Dial | Hand | Switch | Backoff

  /**
   A sleeping run of `runConnectFor`. `started`, `waited` (the sleeps behind it) and `late` (how
   late they ended) are bookkeeping.
   */
  datatype Run = Run(pc: Pc, attempt: nat, best: Option<Choice>, deadline: nat, started: nat, waited: nat, late: nat)

  /** A pending recovery timer. `token` and `session` record what it interrupted; the code keeps neither. */
  datatype Recovery = Recovery(deadline: nat, token: nat, session: Option<nat>)

  datatype State = State(
    now: nat,
    activated: bool,
    tunnel: Tunnel,
    attempt: nat,
    transport: Transport,
    selected: Option<Choice>,
    sessionStart: Option<nat>,
    endpoints: seq<Endpoint>,
    scenario: Scenario,
    helloSplit: bool,
    tokenRef: nat,
    counter: nat,
    runs: map<nat, Run>,
    recoveries: seq<Recovery>
  )

  function Init(fleet: seq<Endpoint>): State {
    State(0, false, Idle, 0, RealityDirect, None, None, fleet, Calm, false, 0, 0, map[], [])
  }

  // ----- Constants

  const MAX_ATTEMPTS := 5
  const RECOVERY := 1500

  function Pow2(n: nat): nat {
    if n == 0 then 1 else 2 * Pow2(n - 1)
  }

  function Min(a: nat, b: nat): nat {
    if a < b then a else b
  }

  function BackoffMs(attempt: nat): nat {
    Min(8000, 500 * Pow2(Min(4, attempt)))
  }

  /** How long a run sleeps. */
  function Delay(pc: Pc, attempt: nat): nat {
    match pc
    case Prep => 650
    case Net => 750
    case Dial => 850
    case Hand => 700
    case Switch => 500
    case Backoff => Min(BackoffMs(attempt), 2200)
  }

  // ----- Steps of a live run

  /** Endpoints that may be dialled, each with its transport; in a blackout only those behind a CDN. */
  function Candidates(endpoints: seq<Endpoint>, blackout: bool): (cs: seq<Choice>)
    ensures blackout ==> forall c :: c in cs ==> c.cdnRouted && c.transport == WsTlsCdn
  {
    var es := if blackout then CdnOnly(endpoints) else endpoints;
    seq(|es|, i requires 0 <= i < |es| =>
      Choice(es[i].id, es[i].cdnRouted, if blackout then WsTlsCdn else TransportAt(i)))
  }

  function CdnOnly(endpoints: seq<Endpoint>): (r: seq<Endpoint>)
    ensures forall e :: e in r ==> e.cdnRouted && e in endpoints
  {
    if endpoints == [] then []
    else (if endpoints[0].cdnRouted then [endpoints[0]] else []) + CdnOnly(endpoints[1..])
  }

  lemma {:induction false} CdnOnlyKeeps(endpoints: seq<Endpoint>)
    ensures forall e :: e in endpoints && e.cdnRouted ==> e in CdnOnly(endpoints)
  {
    if endpoints != [] {
      CdnOnlyKeeps(endpoints[1..]);
      assert endpoints == [endpoints[0]] + endpoints[1..];
    }
  }

  /** An endpoint is a candidate exactly when it is permitted; outside a blackout its position gives the transport. */
  lemma CandidatesExactly(endpoints: seq<Endpoint>, blackout: bool, id: string, cdn: bool)
    ensures (exists c :: c in Candidates(endpoints, blackout) && c.id == id && c.cdnRouted == cdn)
            <==> (exists e :: e in endpoints && e.id == id && e.cdnRouted == cdn && (blackout ==> cdn))
    ensures |Candidates(endpoints, false)| == |endpoints|
    ensures forall i :: 0 <= i < |endpoints| ==>
              Candidates(endpoints, false)[i] == Choice(endpoints[i].id, endpoints[i].cdnRouted, TransportAt(i))
  {
    hide TransportAt;
    var cs := Candidates(endpoints, blackout);
    var es := if blackout then CdnOnly(endpoints) else endpoints;
    CdnOnlyKeeps(endpoints);
    if e :| e in endpoints && e.id == id && e.cdnRouted == cdn && (blackout ==> cdn) {
      assert e in es;
      var i :| 0 <= i < |es| && es[i] == e;
      assert cs[i] in cs;
    }
    if c :| c in cs && c.id == id && c.cdnRouted == cdn {
      var i :| 0 <= i < |cs| && cs[i] == c;
      assert es[i] in endpoints;
    }
  }

  function Position(t: Transport): (i: nat)
    ensures i < |LADDER| && LADDER[i] == t
  {
    match t
    case RealityDirect => 0
    case WsTlsCdn => 1
    case GrpcTls => 2
    case HttpUpgradeCdn => 3
    case Ss2022 => 4
  }

  function NextTransport(t: Transport): Transport {
    TransportAt(Position(t) + 1)
  }

  function WithStreaks(endpoints: seq<Endpoint>, best: Option<Choice>, failed: bool): (r: seq<Endpoint>)
    ensures |r| == |endpoints|
  {
    seq(|endpoints|, i requires 0 <= i < |endpoints| =>
      var e := endpoints[i];
      if best.Some? && e.id == best.value.id then e.(failStreak := if failed then e.failStreak + 1 else 0) else e)
  }

  /** The live run goes to sleep again. */
  function Slept(s: State, r: Run, pc: Pc, attempt: nat, best: Option<Choice>): (t: State)
    ensures t.tokenRef == s.tokenRef && t.scenario == s.scenario && t.recoveries == s.recoveries
    ensures t.runs.Keys <= s.runs.Keys + {s.tokenRef}
  {
    var late := if s.now > r.deadline then s.now - r.deadline else 0;
    s.(runs := s.runs[s.tokenRef := Run(pc, attempt, best, s.now + Delay(pc, attempt), r.started,
                                        r.waited + Delay(r.pc, r.attempt), r.late + late)])
  }

  function Ended(s: State): (t: State)
    ensures t.tokenRef == s.tokenRef && t.scenario == s.scenario && t.recoveries == s.recoveries
    ensures t.runs.Keys <= s.runs.Keys + {s.tokenRef}
  {
    s.(runs := s.runs - {s.tokenRef})
  }

  /** `pick` stands for the scores: any candidate may be the best. */
  function Pick(cs: seq<Choice>, pick: nat): (c: Choice)
    requires cs != []
    ensures c in cs
  {
    cs[pick % |cs|]
  }

  /** Scoring, then dialling. */
  function Dialled(s: State, r: Run, attempt: nat, pick: nat): (t: State)
    ensures t.tokenRef == s.tokenRef && t.scenario == s.scenario && t.recoveries == s.recoveries
    ensures t.runs.Keys <= s.runs.Keys + {s.tokenRef}
  {
    var cs := Candidates(s.endpoints, s.scenario.Blackout?);
    if cs == [] then Ended(s).(tunnel := ConfigError)
    else
      var best := Pick(cs, pick);
      Slept(s, r, Dial, attempt, Some(best)).(selected := Some(best), transport := best.transport, tunnel := Connecting)
  }

  function Retried(s: State, r: Run): (t: State)
    ensures t.tokenRef == s.tokenRef && t.scenario == s.scenario && t.recoveries == s.recoveries
    ensures t.runs.Keys <= s.runs.Keys + {s.tokenRef}
  {
    var a := r.attempt + 1;
    if a < MAX_ATTEMPTS then Slept(s, r, Backoff, a, r.best).(attempt := a, tunnel := Reconnecting)
    else Ended(s).(tunnel := ConfigError)
  }

  function Failed(s: State, r: Run): (t: State)
    ensures t.tokenRef == s.tokenRef && t.scenario == s.scenario && t.recoveries == s.recoveries
    ensures t.runs.Keys <= s.runs.Keys + {s.tokenRef}
  {
    var u := s.(endpoints := WithStreaks(s.endpoints, r.best, true));
    var next := NextTransport(s.transport);
    if next != s.transport then
      Slept(u, r, Switch, r.attempt, r.best).(transport := next, tunnel := SwitchingTransport)
    else Retried(u, r)
  }

  function Established(s: State, r: Run): (t: State)
    ensures t.tokenRef == s.tokenRef && t.scenario == s.scenario && t.recoveries == s.recoveries
    ensures t.runs.Keys <= s.runs.Keys + {s.tokenRef}
  {
    Ended(s).(tunnel := Connected, sessionStart := Some(s.now),
              endpoints := WithStreaks(s.endpoints, r.best, false))
  }

  /** A run wakes. `fails` is the outcome of the handshake. */
  function Resumed(s: State, token: nat, pick: nat, fails: bool): (t: State)
    requires token in s.runs
    ensures t.tokenRef == s.tokenRef && t.scenario == s.scenario && t.recoveries == s.recoveries
    ensures t.runs.Keys <= s.runs.Keys + {s.tokenRef}
  {
    var r := s.runs[token];
    if s.tokenRef != token then s.(runs := s.runs - {token})
    else
      match r.pc
      case Prep => Slept(s, r, Net, 0, None).(tunnel := CheckingNetwork)
      case Net => Dialled(s.(attempt := 0), r, 0, pick)
      case Backoff => Dialled(s, r, r.attempt, pick)
      case Dial => Slept(s, r, Hand, r.attempt, r.best).(tunnel := Handshake)
      case Hand => if fails then Failed(s, r) else Established(s, r)
      case Switch => Retried(s, r)
  }

  // ----- What the user, the tick and the recovery timer do

  /** `runConnectFor` up to its first sleep. */
  function RunStarted(s: State): State {
    if !s.activated then s.(tunnel := LicenseRequired)
    else s.(attempt := 0, tunnel := Preparing, sessionStart := None,
            runs := s.runs[s.tokenRef := Run(Prep, 0, None, s.now + Delay(Prep, 0), s.now, 0, 0)])
  }

  function ConnectPressed(s: State): State {
    RunStarted(s.(counter := s.counter + 1, tokenRef := s.counter + 1))
  }

  function TornDown(s: State): State {
    s.(counter := s.counter + 1, tokenRef := s.counter + 1, tunnel := Idle, sessionStart := None)
  }

  function ScenarioSet(s: State, to: Scenario): State {
    var t := s.(scenario := to, helloSplit := false);
    if to.Blackout? && s.tunnel == Connected then TornDown(t) else t
  }

  /** A tick; `inject` is the draw that decides on a reset. */
  function Ticked(s: State, inject: bool): State {
    if s.tunnel == Connected && s.scenario.ActiveDpi? && !s.helloSplit && inject then
      s.(tunnel := Reconnecting,
         recoveries := s.recoveries + [Recovery(s.now + RECOVERY, s.tokenRef, s.sessionStart)])
    else s
  }

  function Recovered(s: State, j: nat): State
    requires j < |s.recoveries|
  {
    var t := s.(recoveries := s.recoveries[..j] + s.recoveries[j + 1..]);
    if s.tunnel == Reconnecting then t.(tunnel := Connected) else t
  }

  // ----- Interleavings

  datatype Op =
      Advance(ms: nat)
    | PressConnect
    | PressDisconnect
    | Deactivate
    | VerifyAndActivate(ok: bool)
    | SetScenario(to: Scenario)
    | SetHelloSplit(on: bool)
    | Tick(inject: bool)
    | Resume(token: nat, pick: nat, fails: bool)
    | Recover(j: nat)

  /** The deadline has passed and none before it is still waiting. */
  predicate Due(s: State, deadline: nat) {
    && deadline <= s.now
    && (forall t :: t in s.runs ==> deadline <= s.runs[t].deadline)
    && (forall j :: 0 <= j < |s.recoveries| ==> deadline <= s.recoveries[j].deadline)
  }

  predicate Enabled(s: State, op: Op) {
    match op
    case Resume(token, _, _) => token in s.runs && Due(s, s.runs[token].deadline)
    case Recover(j) => j < |s.recoveries| && Due(s, s.recoveries[j].deadline)
    case _ => true
  }

  /** One step; a callback that is not due does not happen. */
  function Step(s: State, op: Op): State {
    if !Enabled(s, op) then s
    else
      match op
      case Advance(ms) => s.(now := s.now + ms)
      case PressConnect => ConnectPressed(s)
      case PressDisconnect => TornDown(s)
      case Deactivate => TornDown(s).(activated := false)
      case VerifyAndActivate(ok) => s.(activated := ok)
      case SetScenario(to) => ScenarioSet(s, to)
      case SetHelloSplit(on) => s.(helloSplit := on)
      case Tick(inject) => Ticked(s, inject)
      case Resume(token, pick, fails) => Resumed(s, token, pick, fails)
      case Recover(j) => Recovered(s, j)
  }

  function After(s: State, ops: seq<Op>): State {
    if ops == [] then s else Step(After(s, ops[..|ops| - 1]), ops[|ops| - 1])
  }

  // ----- The store

  class Store {
    var now: nat
    var activated: bool
    var tunnel: Tunnel
    var attempt: nat
    var transport: Transport
    var selected: Option<Choice>
    var sessionStart: Option<nat>
    var endpoints: seq<Endpoint>
    var scenario: Scenario
    var helloSplit: bool
    var connectTokenRef: nat
    var connectToken: nat
    var runs: map<nat, Run>
    var recoveries: seq<Recovery>

    constructor (fleet: seq<Endpoint>)
      ensures View() == Init(fleet)
    {
      now, activated, tunnel, attempt, transport := 0, false, Idle, 0, RealityDirect;
      selected, sessionStart, endpoints := None, None, fleet;
      scenario, helloSplit, connectTokenRef, connectToken := Calm, false, 0, 0;
      runs, recoveries := map[], [];
    }

    function View(): State
      reads this
    {
      State(now, activated, tunnel, attempt, transport, selected, sessionStart, endpoints, scenario, helloSplit,
            connectTokenRef, connectToken, runs, recoveries)
    }

    method RunConnect()
      modifies this
      ensures View() == RunStarted(old(View()))
    {
      hide Delay;
      if !activated {
        tunnel := LicenseRequired;
        return;
      }
      attempt := 0;
      tunnel := Preparing;
      sessionStart := None;
      runs := runs[connectTokenRef := Run(Prep, 0, None, now + Delay(Prep, 0), now, 0, 0)];
    }

    method Connect()
      modifies this
      ensures View() == ConnectPressed(old(View()))
    {
      hide RunStarted;
      connectToken := connectToken + 1;
      connectTokenRef := connectToken;
      RunConnect();
    }

    method Disconnect()
      modifies this
      ensures View() == TornDown(old(View()))
    {
      connectToken := connectToken + 1;
      connectTokenRef := connectToken;
      tunnel := Idle;
      sessionStart := None;
    }

    method DeactivateLicense()
      modifies this
      ensures View() == TornDown(old(View())).(activated := false)
    {
      connectToken := connectToken + 1;
      activated := false;
      tunnel := Idle;
      sessionStart := None;
      connectTokenRef := connectToken;
    }

    method VerifyAndActivateLicense(ok: bool)
      modifies this`activated
      ensures View() == old(View()).(activated := ok)
    {
      activated := ok;
    }

    method ChangeScenario(to: Scenario)
      modifies this
      ensures View() == ScenarioSet(old(View()), to)
    {
      scenario := to;
      helloSplit := false;
      if to.Blackout? && tunnel == Connected {
        Disconnect();
      }
    }

    /** The interval callback. */
    method OnTick(inject: bool)
      modifies this
      ensures View() == Ticked(old(View()), inject)
    {
      if tunnel == Connected && scenario.ActiveDpi? && !helloSplit && inject {
        tunnel := Reconnecting;
        recoveries := recoveries + [Recovery(now + RECOVERY, connectTokenRef, sessionStart)];
      }
    }

    /** The recovery callback: it looks at nothing but the tunnel. */
    method OnRecovery(j: nat)
      requires j < |recoveries|
      modifies this
      ensures View() == Recovered(old(View()), j)
    {
      recoveries := recoveries[..j] + recoveries[j + 1..];
      if tunnel == Reconnecting {
        tunnel := Connected;
      }
    }

    /** `sleepChecked` in the live run `r`. */
    method Sleep(r: Run, pc: Pc, a: nat, best: Option<Choice>)
      modifies this`runs
      ensures View() == Slept(old(View()), r, pc, a, best)
    {
      hide Delay;
      var late := if now > r.deadline then now - r.deadline else 0;
      runs := runs[connectTokenRef := Run(pc, a, best, now + Delay(pc, a), r.started,
                                          r.waited + Delay(r.pc, r.attempt), r.late + late)];
    }

    method SelectAndDial(r: Run, a: nat, pick: nat)
      modifies this
      ensures View() == Dialled(old(View()), r, a, pick)
    {
      hide Candidates, Delay, Pick;
      var cs := Candidates(endpoints, scenario.Blackout?);
      if cs == [] {
        runs := runs - {connectTokenRef};
        tunnel := ConfigError;
        return;
      }
      var best := Pick(cs, pick);
      selected := Some(best);
      transport := best.transport;
      tunnel := Connecting;
      Sleep(r, Dial, a, Some(best));
    }

    /** The end of one turn of the attempt loop and the start of the next. */
    method NextAttempt(r: Run)
      modifies this
      ensures View() == Retried(old(View()), r)
    {
      hide Delay;
      if r.attempt + 1 < MAX_ATTEMPTS {
        attempt := r.attempt + 1;
        tunnel := Reconnecting;
        Sleep(r, Backoff, attempt, r.best);
      } else {
        runs := runs - {connectTokenRef};
        tunnel := ConfigError;
      }
    }

    /** The outcome of the handshake. */
    method FinishHandshake(r: Run, fails: bool)
      modifies this
      ensures View() == if fails then Failed(old(View()), r) else Established(old(View()), r)
    {
      hide WithStreaks, Delay, Retried, NextTransport;
      if fails {
        endpoints := WithStreaks(endpoints, r.best, true);
        var next := NextTransport(transport);
        if next != transport {
          transport := next;
          tunnel := SwitchingTransport;
          Sleep(r, Switch, r.attempt, r.best);
        } else {
          NextAttempt(r);
        }
      } else {
        tunnel := Connected;
        sessionStart := Some(now);
        endpoints := WithStreaks(endpoints, r.best, false);
        runs := runs - {connectTokenRef};
      }
    }

    /** `runConnectFor` from where it slept to where it sleeps next or returns. */
    method OnWake(token: nat, pick: nat, fails: bool)
      requires token in runs
      modifies this
      ensures View() == Resumed(old(View()), token, pick, fails)
    {
      hide Delay, Dialled, Failed, Established, Retried;
      var r := runs[token];
      if connectTokenRef != token {
        runs := runs - {token};
        return;
      }
      match r.pc
      case Prep =>
        tunnel := CheckingNetwork;
        Sleep(r, Net, 0, None);
      case Net =>
        attempt := 0;
        SelectAndDial(r, 0, pick);
      case Backoff =>
        SelectAndDial(r, r.attempt, pick);
      case Dial =>
        tunnel := Handshake;
        Sleep(r, Hand, r.attempt, r.best);
      case Hand =>
        FinishHandshake(r, fails);
      case Switch =>
        NextAttempt(r);
    }

    /** The event loop: an action of the user, the clock, a tick, or a callback if it is due. */
    method Handle(op: Op)
      modifies this
      ensures View() == Step(old(View()), op)
    {
      hide Due, Resumed, Recovered, ConnectPressed, TornDown, ScenarioSet, Ticked;
      if !Enabled(View(), op) {
        return;
      }
      match op
      case Advance(ms) => now := now + ms;
      case PressConnect => Connect();
      case PressDisconnect => Disconnect();
      case Deactivate => DeactivateLicense();
      case VerifyAndActivate(ok) => VerifyAndActivateLicense(ok);
      case SetScenario(to) => ChangeScenario(to);
      case SetHelloSplit(on) => helloSplit := on;
      case Tick(inject) => OnTick(inject);
      case Resume(token, pick, fails) => OnWake(token, pick, fails);
      case Recover(j) => OnRecovery(j);
    }

    /** Any events one after the other. */
    method HandleAll(ops: seq<Op>)
      modifies this
      ensures View() == After(old(View()), ops)
    {
      hide Step;
      assert ops[..0] == [];
      for i := 0 to |ops|
        invariant View() == After(old(View()), ops[..i])
      {
        assert ops[..i + 1][..i] == ops[..i];
        Handle(ops[i]);
      }
      assert ops[..|ops|] == ops;
    }
  }
}
