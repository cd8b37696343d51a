/** The OpenWrt watchdog: a transport ladder, blackout mode and a streak file, one tick a minute. */
module Watchdog {
  import opened Wrappers

  datatype Transport = Auto | RealityDirect | WsTlsCdn | GrpcTls | HttpUpgradeCdn | Ss2022 | Custom(name: string)

  const MAX_TRIES := 3
  const STREAK := 5
  const TOP := 4

  /** What `tunnel_ok` answers on each turn of the retry loop. */
  type Retries = s: seq<bool> | |s| == MAX_TRIES witness [false, false, false]

  /** The probe results of one tick. */
  datatype Tick = Tick(tunnel: bool, intl: bool, domestic: bool, retries: Retries)

  /**
   The options the watchdog reads and writes, the streak file, and how often it restarted the
   service: `walks` from the ladder, `switches` from entering or leaving blackout mode.
   */
  datatype State = State(
    enabled: bool,
    transport: Transport,
    blackout: bool,
    dnsMode: string,
    split: string,
    mss: string,
    streak: Option<nat>,
    walks: nat,
    switches: nat
  )

  /** The packaged configuration, switched on, before the first tick. */
  const DEFAULT := State(true, Auto, false, "doh", "off", "", None, 0, 0)

  function Engaged(s: State): State {
    if s.blackout then s
    else s.(blackout := true, transport := WsTlsCdn, dnsMode := "bootstrap", split := "5", mss := "40",
            switches := s.switches + 1)
  }

  function Cleared(s: State): State {
    if !s.blackout then s
    else s.(blackout := false, transport := Auto, dnsMode := "doh", split := "off", mss := "",
            switches := s.switches + 1)
  }

  function Next(t: Transport): Transport {
    match t
    case Auto => WsTlsCdn
    case RealityDirect => WsTlsCdn
    case WsTlsCdn => GrpcTls
    case GrpcTls => HttpUpgradeCdn
    case HttpUpgradeCdn => Ss2022
    case Ss2022 => Ss2022
    case Custom(_) => t
  }

  /** The retry loop: final transport, restarts, and whether the tunnel came up. */
  function Walk(t: Transport, retries: seq<bool>): (Transport, nat, bool)
    decreases |retries|
  {
    if retries == [] then (t, 0, false)
    else if retries[0] then (t, 0, true)
    else if t.Ss2022? then (t, 0, false)
    else
      var (u, n, ok) := Walk(Next(t), retries[1..]);
      (u, n + 1, ok)
  }

  function Walked(s: State, retries: Retries): State {
    var (t, n, _) := Walk(s.transport, retries);
    s.(transport := t, walks := s.walks + n)
  }

  function StreakOf(s: State): nat {
    if s.streak.Some? then s.streak.value else 0
  }

  predicate Healthy(t: Tick) {
    t.tunnel && t.intl
  }

  function Step(s: State, t: Tick): State {
    if !s.enabled then s
    else if Healthy(t) then
      var n := StreakOf(s) + 1;
      if n >= STREAK then Cleared(s).(streak := Some(0)) else s.(streak := Some(n))
    else if t.tunnel then s.(streak := Some(0))
    else Walked(if t.domestic && !t.intl then Engaged(s) else s, t.retries)
  }

  class Router {
    var enabled: bool
    var transport: Transport
    var blackout: bool
    var dnsMode: string
    var split: string
    var mss: string
    var streak: Option<nat>
    var walks: nat
    var switches: nat

    constructor ()
      ensures View() == DEFAULT
    {
      enabled, transport, blackout, dnsMode, split, mss := true, Auto, false, "doh", "off", "";
      streak, walks, switches := None, 0, 0;
    }

    ghost function View(): State
      reads this
    {
      State(enabled, transport, blackout, dnsMode, split, mss, streak, walks, switches)
    }

    method SetBlackout()
      modifies this
      ensures View() == Engaged(old(View()))
    {
      if blackout {
        return;
      }
      blackout := true;
      transport := WsTlsCdn;
      dnsMode := "bootstrap";
      split := "5";
      mss := "40";
      switches := switches + 1;
    }

    method ClearBlackout()
      modifies this
      ensures View() == Cleared(old(View()))
    {
      if !blackout {
        return;
      }
      blackout := false;
      transport := Auto;
      dnsMode := "doh";
      split := "off";
      mss := "";
      switches := switches + 1;
    }

    method TryConnect(retries: Retries) returns (ok: bool)
      modifies this`transport, this`walks
      ensures View() == Walked(old(View()), retries)
      ensures ok == Walk(old(transport), retries).2
    {
      var tries := 0;
      assert retries[0..] == retries;
      while tries < MAX_TRIES
        invariant tries <= MAX_TRIES
        invariant walks >= old(walks)
        invariant ghost var rest := Walk(transport, retries[tries..]);
                  Walk(old(transport), retries) == (rest.0, walks - old(walks) + rest.1, rest.2)
        decreases MAX_TRIES - tries
      {
        assert retries[tries..][1..] == retries[tries + 1..];
        if retries[tries] {
          return true;
        }
        match transport {
          case Auto => transport := WsTlsCdn;
          case RealityDirect => transport := WsTlsCdn;
          case WsTlsCdn => transport := GrpcTls;
          case GrpcTls => transport := HttpUpgradeCdn;
          case HttpUpgradeCdn => transport := Ss2022;
          case Ss2022 => return false;
          case Custom(_) =>
        }
        walks := walks + 1;
        tries := tries + 1;
      }
      ok := false;
    }

    method DoTick(t: Tick)
      modifies this
      ensures View() == Step(old(View()), t)
    {
      if !enabled {
        return;
      }
      if t.tunnel {
        if t.intl {
          var n := (if streak.Some? then streak.value else 0) + 1;
          if n >= STREAK {
            ClearBlackout();
            streak := Some(0);
          } else {
            streak := Some(n);
          }
        } else {
          streak := Some(0);
        }
      } else {
        if t.domestic && !t.intl {
          SetBlackout();
        }
        var _ := TryConnect(t.retries);
      }
    }
  }

  // ----- One walk

  function Rank(t: Transport): (r: nat)
    ensures r <= TOP
  {
    match t
    case Auto => 0
    case RealityDirect => 0
    case WsTlsCdn => 1
    case GrpcTls => 2
    case HttpUpgradeCdn => 3
    case Ss2022 => 4
    case Custom(_) => 0
  }

  /** How many retries fail before the first that succeeds. */
  function Failures(retries: seq<bool>): (n: nat)
    ensures n <= |retries|
    ensures forall i :: 0 <= i < n ==> !retries[i]
    ensures n < |retries| ==> retries[n]
  {
    if retries == [] || retries[0] then 0 else 1 + Failures(retries[1..])
  }

  /** A walk climbs one rung for every failed retry, up to the top rung, and restarts once for every rung. */
  lemma {:induction false} WalkClimbs(t: Transport, retries: seq<bool>)
    requires !t.Custom?
    ensures var (u, n, ok) := Walk(t, retries);
            && !u.Custom? && Rank(u) == Rank(t) + n
            && n == (if Failures(retries) <= TOP - Rank(t) then Failures(retries) else TOP - Rank(t))
            && (n == 0 ==> u == t) && (n > 0 ==> u != Auto && u != RealityDirect)
            && (ok <==> Failures(retries) < |retries| && Failures(retries) <= TOP - Rank(t))
    decreases |retries|
  {
    if retries != [] && !retries[0] && !t.Ss2022? {
      WalkClimbs(Next(t), retries[1..]);
    }
  }

  // ----- One tick

  /** When blackout mode is entered, and when it is left. */
  lemma EdgesExactly(s: State, t: Tick)
    requires s.enabled
    ensures !s.blackout ==> (Step(s, t).blackout <==> !t.tunnel && t.domestic && !t.intl)
    ensures s.blackout ==> (!Step(s, t).blackout <==> Healthy(t) && StreakOf(s) >= STREAK - 1)
    ensures Step(s, t).switches == s.switches + (if Step(s, t).blackout != s.blackout then 1 else 0)
  {
  }

  /** Without an edge the rank never falls, and the ladder restarts the service once for every rung it climbs. */
  lemma RankFallsAtEdges(s: State, t: Tick)
    requires !s.transport.Custom?
    ensures var s' := Step(s, t);
            && !s'.transport.Custom?
            && (s'.blackout == s.blackout ==> Rank(s'.transport) == Rank(s.transport) + (s'.walks - s.walks))
            && (s'.blackout && !s.blackout ==> Rank(s'.transport) == 1 + (s'.walks - s.walks))
            && (s.blackout && !s'.blackout ==> s'.transport == Auto && s'.walks == s.walks)
            && s.walks <= s'.walks <= s.walks + MAX_TRIES
  {
    WalkClimbs(s.transport, t.retries);
    WalkClimbs(WsTlsCdn, t.retries);
  }

  /** Where the walk of a tick with the tunnel down starts. */
  function StartRank(s: State, t: Tick): (r: nat)
    ensures r <= TOP
  {
    if !s.blackout && t.domestic && !t.intl then 1 else Rank(s.transport)
  }

  function Lesser(a: nat, b: nat): nat {
    if a < b then a else b
  }

  /**
   Every tick with the tunnel down walks, in blackout mode or not: one rung and one restart for every
   failed retry, up to the top, from the rung the tick itself may have set.
   */
  lemma DownTickWalks(s: State, t: Tick)
    requires s.enabled && !s.transport.Custom? && !t.tunnel
    ensures var s' := Step(s, t);
            var n := Lesser(Failures(t.retries), TOP - StartRank(s, t));
            && !s'.transport.Custom? && s'.walks == s.walks + n && Rank(s'.transport) == StartRank(s, t) + n
            && s'.streak == s.streak && s'.enabled
            && (s'.blackout <==> s.blackout || (t.domestic && !t.intl))
            && s'.switches == s.switches + (if s'.blackout && !s.blackout then 1 else 0)
  {
    hide Walk;
    WalkClimbs(s.transport, t.retries);
    WalkClimbs(WsTlsCdn, t.retries);
  }

  /** A tick with the tunnel up never touches the ladder; it clears blackout mode or only writes the streak. */
  lemma UpTickExactly(s: State, t: Tick)
    requires s.enabled && t.tunnel
    ensures var s' := Step(s, t);
            && s'.walks == s.walks
            && s'.streak == Some(if t.intl && StreakOf(s) < 4 then StreakOf(s) + 1 else 0)
            && (s.blackout && t.intl && StreakOf(s) >= 4 ==>
                  !s'.blackout && s'.transport == Auto && s'.dnsMode == "doh" && s'.split == "off" && s'.mss == "")
            && (!(s.blackout && t.intl && StreakOf(s) >= 4) ==> s' == s.(streak := s'.streak))
  {
  }

  /** The tick that enters blackout mode leaves the CDN transport it has just set unless the first retry succeeds. */
  lemma BlackoutTransport(s: State, t: Tick)
    requires !s.blackout && Step(s, t).blackout
    ensures Step(s, t).transport == WsTlsCdn <==> t.retries[0]
    ensures Step(s, t).transport in {WsTlsCdn, HttpUpgradeCdn} <==> Failures(t.retries) in {0, 2}
  {
    hide Walk;
    WalkClimbs(WsTlsCdn, t.retries);
    assert Failures(t.retries) == 0 <==> t.retries[0];
  }

  // ----- Runs

  function Run(s: State, ts: seq<Tick>): State {
    if ts == [] then s else Step(Run(s, ts[..|ts| - 1]), ts[|ts| - 1])
  }

  lemma RunSnoc(ts: seq<Tick>, t: Tick)
    ensures Run(DEFAULT, ts + [t]) == Step(Run(DEFAULT, ts), t)
  {
    assert (ts + [t])[..|ts|] == ts;
  }

  /**
   Whatever happens in between, the tick that leaves blackout mode gives back the settings from before
   it only where they were the defaults.
   */
  lemma BlackoutRoundTrip(s: State, ts: seq<Tick>, t: Tick)
    requires !s.blackout && Run(s, ts).blackout && !Step(Run(s, ts), t).blackout
    ensures var u := Step(Run(s, ts), t);
            u.transport == s.transport && u.dnsMode == s.dnsMode && u.split == s.split && u.mss == s.mss
            <==> s.transport == Auto && s.dnsMode == "doh" && s.split == "off" && s.mss == ""
  {
    hide Run, Walk;
  }

  /** Blackout mode and its settings always go together. */
  predicate Coherent(s: State) {
    && !s.transport.Custom?
    && (s.blackout <==> s.dnsMode == "bootstrap") && (s.blackout <==> s.split == "5") && (s.blackout <==> s.mss == "40")
    && (s.blackout ==> s.transport != Auto && s.transport != RealityDirect)
    && (!s.blackout ==> s.dnsMode == "doh" && s.split == "off" && s.mss == "")
  }

  lemma StepCoherent(s: State, t: Tick)
    requires Coherent(s)
    ensures Coherent(Step(s, t))
  {
    hide Walk;
    WalkClimbs(s.transport, t.retries);
    WalkClimbs(WsTlsCdn, t.retries);
  }

  lemma {:induction false} AlwaysCoherent(ts: seq<Tick>)
    ensures Coherent(Run(DEFAULT, ts))
  {
    hide Step, Coherent;
    if ts == [] {
      DefaultCoherent();
    } else {
      AlwaysCoherent(ts[..|ts| - 1]);
      StepCoherent(Run(DEFAULT, ts[..|ts| - 1]), ts[|ts| - 1]);
    }
  }

  lemma DefaultCoherent()
    ensures Coherent(DEFAULT)
  {
  }

  /** Four ladder restarts for every epoch outside blackout mode, three for every one inside. */
  function Allowed(switches: nat): nat {
    4 * (switches / 2 + 1) + 3 * ((switches + 1) / 2)
  }

  /** The rungs still above are paid for. */
  predicate Paid(s: State) {
    && !s.transport.Custom? && (s.blackout <==> s.switches % 2 == 1)
    && s.walks + (TOP - Rank(s.transport)) <= Allowed(s.switches)
  }

  lemma AllowedGrows(n: nat)
    ensures Allowed(n + 1) == Allowed(n) + if n % 2 == 0 then 3 else 4
    ensures n % 2 == 1 || n % 2 == 0
    ensures (n + 1) % 2 == 1 - n % 2
  {
  }

  lemma StepPaid(s: State, t: Tick)
    requires Paid(s)
    ensures Paid(Step(s, t))
  {
    hide Step, Allowed, Rank;
    RankFallsAtEdges(s, t);
    AllowedGrows(s.switches);
    if s.enabled {
      EdgesExactly(s, t);
    } else {
      DisabledStays(s, t);
    }
  }

  lemma DisabledStays(s: State, t: Tick)
    requires !s.enabled
    ensures Step(s, t) == s
  {
  }

  lemma {:induction false} AlwaysPaid(ts: seq<Tick>)
    ensures Paid(Run(DEFAULT, ts))
  {
    hide Step;
    if ts != [] {
      AlwaysPaid(ts[..|ts| - 1]);
      StepPaid(Run(DEFAULT, ts[..|ts| - 1]), ts[|ts| - 1]);
    }
  }

  /** Ladder restarts over any run, by the number of blackout edges in it. */
  lemma RestartsPerEpoch(ts: seq<Tick>)
    ensures Run(DEFAULT, ts).walks <= Allowed(Run(DEFAULT, ts).switches)
    ensures Run(DEFAULT, ts).walks <= 4 * (Run(DEFAULT, ts).switches + 1)
  {
    hide Run;
    AlwaysPaid(ts);
  }

  lemma {:induction false} SwitchesGrow(s: State, ts: seq<Tick>)
    ensures Run(s, ts).switches >= s.switches
  {
    if ts != [] {
      hide Step;
      SwitchesGrow(s, ts[..|ts| - 1]);
      StepSwitches(Run(s, ts[..|ts| - 1]), ts[|ts| - 1]);
    }
  }

  lemma StepSwitches(s: State, t: Tick)
    ensures Step(s, t).switches >= s.switches
    ensures Step(s, t).switches == s.switches ==> Step(s, t).blackout == s.blackout
  {
    if s.enabled {
      EdgesExactly(s, t);
    }
  }

  /** Inside one epoch, from any state, the ladder restarts once for every rung it climbs: four times at the most. */
  lemma {:induction false} EpochRestarts(s: State, ts: seq<Tick>)
    requires !s.transport.Custom? && Run(s, ts).switches == s.switches
    ensures var s' := Run(s, ts);
            && !s'.transport.Custom? && s'.blackout == s.blackout
            && s'.walks - s.walks == Rank(s'.transport) - Rank(s.transport)
            && s.walks <= s'.walks <= s.walks + TOP
  {
    if ts != [] {
      hide Step, Rank;
      var front, last := ts[..|ts| - 1], ts[|ts| - 1];
      SwitchesGrow(s, front);
      StepSwitches(Run(s, front), last);
      EpochRestarts(s, front);
      RankFallsAtEdges(Run(s, front), last);
    }
  }

  // ----- The streak

  function CountHealthy(ts: seq<Tick>): nat {
    if ts == [] then 0 else CountHealthy(ts[..|ts| - 1]) + if Healthy(ts[|ts| - 1]) then 1 else 0
  }

  /** The ticks after the last that found the tunnel up and the international probe down. */
  function SinceCut(ts: seq<Tick>): seq<Tick> {
    if ts == [] then []
    else
      var last := ts[|ts| - 1];
      if last.tunnel && !last.intl then [] else SinceCut(ts[..|ts| - 1]) + [last]
  }

  lemma RunEnabled(ts: seq<Tick>)
    ensures Run(DEFAULT, ts).enabled
  {
  }

  lemma StepStreak(s: State, t: Tick)
    requires s.enabled && StreakOf(s) < STREAK
    ensures StreakOf(Step(s, t))
            == if Healthy(t) then (if StreakOf(s) == STREAK - 1 then 0 else StreakOf(s) + 1)
               else if t.tunnel then 0 else StreakOf(s)
  {
    hide Walk;
  }

  lemma SinceCutSnoc(ts: seq<Tick>, t: Tick)
    ensures SinceCut(ts + [t]) == if t.tunnel && !t.intl then [] else SinceCut(ts) + [t]
    ensures CountHealthy(ts + [t]) == CountHealthy(ts) + if Healthy(t) then 1 else 0
  {
    assert (ts + [t])[..|ts|] == ts;
  }

  /** The streak after `n` healthy ticks. */
  function Cycle(n: nat): (r: nat)
    ensures r < STREAK
  {
    n % 5
  }

  lemma CycleTurns(n: nat)
    ensures Cycle(n + 1) == if Cycle(n) == STREAK - 1 then 0 else Cycle(n) + 1
  {
  }

  lemma StreakSnoc(front: seq<Tick>, last: Tick)
    requires StreakOf(Run(DEFAULT, front)) == Cycle(CountHealthy(SinceCut(front)))
    ensures StreakOf(Run(DEFAULT, front + [last])) == Cycle(CountHealthy(SinceCut(front + [last])))
  {
    hide Step, CountHealthy, SinceCut, Run, Healthy, StreakOf, Cycle;
    var s, n := Run(DEFAULT, front), CountHealthy(SinceCut(front));
    RunEnabled(front);
    RunSnoc(front, last);
    StepStreak(s, last);
    HealthyIs(last);
    SinceCutSnoc(front, last);
    if last.tunnel && !last.intl {
      CountNone();
      CycleNothing();
    } else {
      SinceCutSnoc(SinceCut(front), last);
      CycleTurns(n);
    }
  }

  lemma CycleNothing()
    ensures Cycle(0) == 0
  {
  }

  /** The streak counts healthy ticks since the last cut, by fives; ticks with the tunnel down neither add nor reset. */
  lemma {:induction false} StreakCounts(ts: seq<Tick>)
    ensures StreakOf(Run(DEFAULT, ts)) == Cycle(CountHealthy(SinceCut(ts)))
  {
    hide Step, CountHealthy, SinceCut, Cycle;
    if ts == [] {
      CountNone();
      CycleNothing();
    } else {
      hide Run, StreakOf;
      var front, last := ts[..|ts| - 1], ts[|ts| - 1];
      StreakCounts(front);
      StreakSnoc(front, last);
      assert ts == front + [last];
    }
  }

  lemma HealthyIs(t: Tick)
    ensures Healthy(t) ==> t.intl
    ensures t.tunnel && !t.intl <==> t.tunnel && !Healthy(t)
  {
  }

  lemma CountNone()
    ensures CountHealthy([]) == 0 && SinceCut([]) == []
  {
  }

  /** Blackout mode is left at a tick exactly when it completes five healthy ticks since the last cut. */
  lemma LeavesBlackoutExactly(ts: seq<Tick>, t: Tick)
    requires Run(DEFAULT, ts).blackout
    ensures !Run(DEFAULT, ts + [t]).blackout <==> Healthy(t) && Cycle(CountHealthy(SinceCut(ts))) == STREAK - 1
  {
    hide Walk, CountHealthy, SinceCut, Cycle;
    assert (ts + [t])[..|ts|] == ts;
    StreakCounts(ts);
    RunEnabled(ts);
    EdgesExactly(Run(DEFAULT, ts), t);
  }

  const UP := Tick(true, true, true, [true, true, true])
  const DOWN := Tick(false, true, true, [true, true, true])
  const CUT_OFF := Tick(false, false, true, [true, true, true])

  /** So the five need not be consecutive. */
  lemma NotConsecutive()
    ensures Run(DEFAULT, [CUT_OFF] + [UP] + [UP] + [UP] + [UP] + [DOWN]).blackout
    ensures !Run(DEFAULT, [CUT_OFF] + [UP] + [UP] + [UP] + [UP] + [DOWN] + [UP]).blackout
  {
    hide Walk;
    var s1 := Step(DEFAULT, CUT_OFF);
    var s5 := Step(Step(Step(Step(s1, UP), UP), UP), UP);
    var s6 := Step(s5, DOWN);
    assert s1.blackout && s5.blackout && StreakOf(s5) == 4 && s6.blackout && StreakOf(s6) == 4;
    assert !Step(s6, UP).blackout;
    NotConsecutiveRun();
  }

  lemma NotConsecutiveRun()
    ensures var s6 := Step(Step(Step(Step(Step(Step(DEFAULT, CUT_OFF), UP), UP), UP), UP), DOWN);
            Run(DEFAULT, [CUT_OFF] + [UP] + [UP] + [UP] + [UP] + [DOWN]) == s6
            && Run(DEFAULT, [CUT_OFF] + [UP] + [UP] + [UP] + [UP] + [DOWN] + [UP]) == Step(s6, UP)
  {
    hide Step;
    RunSnoc([], CUT_OFF);
    assert [] + [CUT_OFF] == [CUT_OFF];
    RunSnoc([CUT_OFF], UP);
    RunSnoc([CUT_OFF] + [UP], UP);
    RunSnoc([CUT_OFF] + [UP] + [UP], UP);
    RunSnoc([CUT_OFF] + [UP] + [UP] + [UP], UP);
    RunSnoc([CUT_OFF] + [UP] + [UP] + [UP] + [UP], DOWN);
    RunSnoc([CUT_OFF] + [UP] + [UP] + [UP] + [UP] + [DOWN], UP);
  }

  lemma {:induction false} CutShortens(ts: seq<Tick>, i: nat)
    requires i < |ts| && ts[i].tunnel && !ts[i].intl
    ensures |SinceCut(ts)| <= |ts| - 1 - i
  {
    if i < |ts| - 1 { CutShortens(ts[..|ts| - 1], i); }
  }

  lemma {:induction false} CountAtMost(ts: seq<Tick>)
    ensures CountHealthy(ts) <= |ts| && |SinceCut(ts)| <= |ts|
  {
    if ts != [] { CountAtMost(ts[..|ts| - 1]); }
  }

  /**
   Over every run, when blackout mode is left, the four ticks before were healthy, as the fifth is,
   exactly when the tunnel was up at all of them.
   */
  lemma ConsecutiveExactly(ts: seq<Tick>, t: Tick)
    requires Run(DEFAULT, ts).blackout && !Run(DEFAULT, ts + [t]).blackout
    ensures Healthy(t) && |ts| >= 4
    ensures (forall i :: |ts| - 4 <= i < |ts| ==> Healthy(ts[i]))
            <==> (forall i :: |ts| - 4 <= i < |ts| ==> ts[i].tunnel)
  {
    hide Run, SinceCut, CountHealthy;
    LeavesBlackoutExactly(ts, t);
    CountAtMost(ts);
    CountAtMost(SinceCut(ts));
    if i :| |ts| - 4 <= i < |ts| && ts[i].tunnel && !Healthy(ts[i]) {
      CutShortens(ts, i);
    }
  }

  // ----- Restarts over any number of ticks

  /** Every way out of blackout mode has used up five healthy ticks. */
  predicate Earned(s: State, healthy: nat) {
    && s.enabled && StreakOf(s) < STREAK
    && STREAK * (s.switches / 2) + StreakOf(s) <= healthy
  }

  lemma StepEarned(s: State, t: Tick, healthy: nat)
    requires Earned(s, healthy) && Paid(s)
    ensures Earned(Step(s, t), healthy + if Healthy(t) then 1 else 0)
  {
    hide Walk;
    EdgesExactly(s, t);
  }

  lemma {:induction false} AlwaysEarned(ts: seq<Tick>)
    ensures Earned(Run(DEFAULT, ts), CountHealthy(ts))
  {
    hide Step, Paid;
    if ts != [] {
      AlwaysEarned(ts[..|ts| - 1]);
      AlwaysPaid(ts[..|ts| - 1]);
      StepEarned(Run(DEFAULT, ts[..|ts| - 1]), ts[|ts| - 1], CountHealthy(ts[..|ts| - 1]));
    }
  }

  /**
   However long the run, the healthy ticks in it bound every restart: seven from the ladder for each
   five of them, and seven more.
   */
  lemma RestartsBounded(ts: seq<Tick>)
    ensures Run(DEFAULT, ts).walks <= 7 * (CountHealthy(ts) / STREAK + 1)
    ensures Run(DEFAULT, ts).switches <= 2 * (CountHealthy(ts) / STREAK) + 1
  {
    hide Run, CountHealthy;
    AlwaysPaid(ts);
    AlwaysEarned(ts);
  }

  /** After an edge the ladder has climbed no further than its restarts since explain. */
  lemma {:induction false} EdgesLower(s: State, ts: seq<Tick>)
    requires !s.transport.Custom?
    ensures !Run(s, ts).transport.Custom? && Run(s, ts).walks >= s.walks
    ensures Run(s, ts).switches > s.switches ==> Rank(Run(s, ts).transport) <= 1 + (Run(s, ts).walks - s.walks)
  {
    if ts != [] {
      hide Step, Rank;
      var front, last := ts[..|ts| - 1], ts[|ts| - 1];
      var m := Run(s, front);
      EdgesLower(s, front);
      SwitchesGrow(s, front);
      StepSwitches(m, last);
      RankFallsAtEdges(m, last);
      if m.switches == s.switches { EpochRestarts(s, front); }
      AutoRank();
    }
  }

  lemma AutoRank()
    ensures Rank(Auto) == 0
  {
  }

  /** An exhausted ladder stays, without a restart, exactly as long as there is no edge. */
  lemma ExhaustedStays(s: State, ts: seq<Tick>)
    requires s.transport == Ss2022
    ensures Run(s, ts).transport == Ss2022 && Run(s, ts).walks == s.walks <==> Run(s, ts).switches == s.switches
    ensures Run(s, ts).switches == s.switches ==> Run(s, ts).blackout == s.blackout
  {
    hide Run;
    SwitchesGrow(s, ts);
    EdgesLower(s, ts);
    if Run(s, ts).switches == s.switches { EpochRestarts(s, ts); }
  }

  predicate AllDead(ts: seq<Tick>) {
    forall i :: 0 <= i < |ts| ==> !ts[i].tunnel && Failures(ts[i].retries) == MAX_TRIES
  }

  lemma DeadRun(s: State, ts: seq<Tick>)
    requires s.enabled && !s.transport.Custom? && AllDead(ts)
    ensures var s' := Run(s, ts);
            && s'.enabled && !s'.transport.Custom?
            && (|ts| >= 1 ==> Rank(s'.transport) >= 3)
            && (|ts| >= 2 ==> s'.transport == Ss2022)
  {
    if ts != [] {
      hide Step, Rank, Failures;
      var front, last := ts[..|ts| - 1], ts[|ts| - 1];
      DeadRun(s, front);
      DownTickWalks(Run(s, front), last);
      TopOnly(Run(s, ts).transport);
    }
  }

  lemma TopOnly(t: Transport)
    ensures !t.Custom? && Rank(t) == TOP ==> t == Ss2022
    ensures Rank(Ss2022) == TOP
  {
  }

  /** From any state, in blackout mode or not, two ticks or more with everything failing exhaust the ladder. */
  lemma DeadTicksExhaust(s: State, ts: seq<Tick>)
    requires s.enabled && !s.transport.Custom? && AllDead(ts) && |ts| >= 2
    ensures Run(s, ts).transport == Ss2022
  {
    hide Run, AllDead;
    DeadRun(s, ts);
  }

  const DEAD := Tick(false, true, true, [false, false, false])

  /** Two ticks with the tunnel down exhaust the ladder, and the third does nothing. */
  lemma ExhaustedSoon()
    ensures var s := Run(DEFAULT, [DEAD] + [DEAD]);
            s.transport == Ss2022 && s.walks == 4 && Run(DEFAULT, [DEAD] + [DEAD] + [DEAD]) == s
  {
    hide Run;
    RunSnoc([], DEAD);
    assert [] + [DEAD] == [DEAD] && Run(DEFAULT, []) == DEFAULT by { RunNothing(); }
    RunSnoc([DEAD], DEAD);
    RunSnoc([DEAD] + [DEAD], DEAD);
    DeadWalks();
    var s1 := Step(DEFAULT, DEAD);
    var s2 := Step(s1, DEAD);
    assert s1.transport == HttpUpgradeCdn && s1.walks == 3;
    assert s2.transport == Ss2022 && s2.walks == 4;
    assert Step(s2, DEAD) == s2;
  }

  lemma RunNothing()
    ensures Run(DEFAULT, []) == DEFAULT
  {
  }

  lemma DeadWalks()
    ensures Walk(Auto, DEAD.retries) == (HttpUpgradeCdn, 3, false)
    ensures Walk(HttpUpgradeCdn, DEAD.retries) == (Ss2022, 1, false)
    ensures Walk(Ss2022, DEAD.retries) == (Ss2022, 0, false)
  {
    var all: seq<bool> := [false, false, false];
    assert all[1..] == [false, false] && [false, false][1..] == [false] && [false][1..] == [];
    assert Walk(HttpUpgradeCdn, []) == (HttpUpgradeCdn, 0, false);
    assert Walk(GrpcTls, [false]) == (HttpUpgradeCdn, 1, false);
    assert Walk(WsTlsCdn, [false, false]) == (HttpUpgradeCdn, 2, false);
    assert Walk(Ss2022, [false, false]) == (Ss2022, 0, false);
  }
}
