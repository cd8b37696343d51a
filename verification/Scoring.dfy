/** Endpoint scores, and picking the best endpoint by a sort or by a single pass. */
module Scoring {
  import opened Octets
  import opened Wrappers
  import opened Collation
  import opened Health
  import opened Words
  import Utf8

  datatype Transport = RealityDirect | WsTlsCdn | GrpcTls | HttpUpgradeCdn | Ss2022

  const LADDER := [RealityDirect, WsTlsCdn, GrpcTls, HttpUpgradeCdn, Ss2022]

  datatype Decision = Decision(id: string, transport: Transport, score: real)

  // ----- The score

  function Clamp(x: real, lo: real, hi: real): real {
    if x < lo then lo else if x > hi then hi else x
  }

  /** One at zero, one half at `scale`, then down towards zero. */
  function Fade(x: millis, scale: real): (r: real)
    requires scale > 0.0
    ensures 0.0 < r <= 1.0
  {
    FadeBounds(x / scale);
    1.0 / (1.0 + x / scale)
  }

  lemma FadeBounds(y: real)
    requires y >= 0.0
    ensures 0.0 < 1.0 / (1.0 + y) <= 1.0
  {
  }

  lemma FadeIs(x: millis, scale: real)
    requires scale > 0.0
    ensures Fade(x, scale) == 1.0 / (1.0 + x / scale)
  {
  }

  function LossScore(pct: real): real {
    Clamp(1.0 - pct / 100.0, 0.0, 1.0)
  }

  function Stability(streak: nat): real {
    if streak >= 4 then 0.0 else 1.0 - streak as real * 0.25
  }

  function FailurePenalty(streak: nat): real {
    if streak < 2 then 0.0 else 10.0 * (if streak < 5 then streak else 5) as real
  }

  function Base(m: Metrics): (r: real)
    ensures 0.0 < r <= 100.0
  {
    40.0 * Fade(m.latency, 200.0) + 15.0 * Fade(m.jitter, 40.0)
    + 25.0 * LossScore(m.lossPct) + 20.0 * Stability(m.failStreak)
  }

  /** Before the final clamp. It can be negative. */
  function Raw(m: Metrics): real {
    ((if m.latency < 200.0 then Base(m) else Base(m) * 0.9) - FailurePenalty(m.failStreak))
    * (if m.cdnRouted then 1.05 else 1.0)
  }

  function Score(m: Metrics): real {
    Clamp(Raw(m), 0.0, 100.0)
  }

  /** `score_endpoint`, step by step. */
  method ScoreEndpoint(h: EndpointHealth, transport: Transport) returns (d: Decision)
    ensures d == Decision(h.id, transport, Score(h.Snapshot()))
  {
    hide Fade, MeanLatency, Jitter;
    var lat := MeanLatency(h.latencies);
    var jit := Jitter(h.latencies);
    var latScore := 1.0 / (1.0 + lat / 200.0);
    var jitScore := 1.0 / (1.0 + jit / 40.0);
    var lossScore := Clamp(1.0 - h.lossPct / 100.0, 0.0, 1.0);
    var stability := 1.0;
    if h.failStreak != 0 {
      stability := 1.0 - h.failStreak as real * 0.25;
      if stability < 0.0 {
        stability := 0.0;
      }
    }
    var score := 100.0 * (0.40 * latScore + 0.15 * jitScore + 0.25 * lossScore + 0.20 * stability);
    FadeIs(lat, 200.0);
    FadeIs(jit, 40.0);
    assert stability == Stability(h.failStreak);
    assert score == Base(h.Snapshot());
    if lat >= 200.0 {
      score := score * 0.9;
    }
    if h.failStreak >= 2 {
      score := score - 10.0 * (if h.failStreak < 5 then h.failStreak else 5) as real;
    }
    if h.cdnRouted {
      score := score * 1.05;
    }
    d := Decision(h.id, transport, Clamp(score, 0.0, 100.0));
  }

  // ----- What the score respects

  /** `a` is no worse than `b` in every respect. */
  predicate NoWorse(a: Metrics, b: Metrics) {
    a.latency <= b.latency && a.jitter <= b.jitter && a.lossPct <= b.lossPct
    && a.failStreak <= b.failStreak && (b.cdnRouted ==> a.cdnRouted)
  }

  lemma FadeFalls(x: millis, y: millis, scale: real)
    requires scale > 0.0 && x <= y
    ensures Fade(x, scale) >= Fade(y, scale)
  {
    var p, q := 1.0 + x / scale, 1.0 + y / scale;
    assert x / scale <= y / scale;
    ReciprocalFalls(p, q);
  }

  lemma ReciprocalFalls(p: real, q: real)
    requires 0.0 < p <= q
    ensures 1.0 / p >= 1.0 / q
  {
    var r, s := 1.0 / p, 1.0 / q;
    assert r * p == 1.0 && s * q == 1.0;
    assert s * p <= s * q;
    if r < s { Scaled(r, s, p); }
  }

  lemma BaseRespects(a: Metrics, b: Metrics)
    requires NoWorse(a, b)
    ensures Base(a) >= Base(b)
  {
    hide Fade;
    FadeFalls(a.latency, b.latency, 200.0);
    FadeFalls(a.jitter, b.jitter, 40.0);
  }

  /** Being no worse in every respect never costs a place, whatever the step at 200 ms, the penalty and the bonus do. */
  lemma Dominance(a: Metrics, b: Metrics)
    requires NoWorse(a, b)
    ensures Score(a) >= Score(b)
  {
    hide Base;
    BaseRespects(a, b);
  }

  lemma SuccessHelps(m: Metrics)
    ensures Score(m.(failStreak := 0)) >= Score(m) >= Score(m.(failStreak := SaturatingInc(m.failStreak)))
  {
    hide Score;
    Dominance(m.(failStreak := 0), m);
    Dominance(m, m.(failStreak := SaturatingInc(m.failStreak)));
  }

  lemma FastFade(x: millis)
    requires x < 200.0
    ensures Fade(x, 200.0) > 0.5
  {
    var p := 1.0 + x / 200.0;
    var r := 1.0 / p;
    assert p < 2.0 && r * p == 1.0;
    if r < 0.5 { Scaled(r, 0.5, p); }
  }

  /** An endpoint under 200 ms with no failure since its last success beats any endpoint with five in a row. */
  lemma HealthyBeatsFailing(a: Metrics, b: Metrics)
    requires a.latency < 200.0 && a.failStreak == 0 && b.failStreak >= 5
    ensures Score(a) > Score(b)
  {
    hide Fade;
    FastFade(a.latency);
    assert Raw(a) > 40.0;
    assert Base(b) <= 80.0;
  }

  /** A slow, jittery and lossy endpoint without failures, and one behind a CDN with nothing else against it. */
  const WORN := Metrics(199.0, 360.0, 100.0, 0, false)

  function Failing(k: u32): Metrics {
    Metrics(0.0, 0.0, 0.0, k, true)
  }

  lemma FourFailuresCanWin(k: u32)
    requires k <= 4
    ensures Score(Failing(k)) > Score(WORN)
  {
    assert Fade(199.0, 200.0) == 200.0 / 399.0;
    assert Fade(360.0, 40.0) == 0.1;
    assert Fade(0.0, 200.0) == 1.0 && Fade(0.0, 40.0) == 1.0;
    assert Score(Failing(4)) > Score(WORN);
    Dominance(Failing(k), Failing(4));
  }

  /** Every failure-free endpoint under 200 ms beats every endpoint with `k` failures in a row. */
  ghost predicate AlwaysBeaten(k: u32) {
    forall a: Metrics, b: Metrics ::
      a.latency < 200.0 && a.failStreak == 0 && b.failStreak == k ==> Score(a) > Score(b)
  }

  lemma FailureThreshold(k: u32)
    ensures AlwaysBeaten(k) <==> k >= 5
  {
    hide Score;
    if k >= 5 {
      forall a: Metrics, b: Metrics | a.latency < 200.0 && a.failStreak == 0 && b.failStreak == k
        ensures Score(a) > Score(b)
      {
        HealthyBeatsFailing(a, b);
      }
    } else {
      FourFailuresCanWin(k);
      assert WORN.latency < 200.0 && WORN.failStreak == 0 && Failing(k).failStreak == k;
    }
  }

  // ----- Endpoints that were never measured

  /** What an endpoint looks like that was never measured. */
  function Unmeasured(m: Metrics): Metrics {
    m.(latency := UNMEASURED, jitter := 0.0)
  }

  lemma UnmeasuredFade()
    ensures Fade(UNMEASURED, 200.0) < 0.1 && Fade(0.0, 40.0) == 1.0
  {
    var p := 1.0 + UNMEASURED / 200.0;
    assert 1.0 / p * p == 1.0;
  }

  /** What the latency and the jitter of an endpoint are worth. */
  function Worth(m: Metrics): real {
    40.0 * Fade(m.latency, 200.0) + 15.0 * Fade(m.jitter, 40.0)
  }

  /**
   All else equal, measured beats unmeasured exactly under 200 ms or when worth more than a perfect
   jitter, and loses exactly from 200 ms on when worth less.
   */
  lemma MeasuredBeatsExactly(m: Metrics)
    ensures Raw(m) > Raw(Unmeasured(m))
            <==> m.latency < 200.0 || Worth(m) > 40.0 * Fade(UNMEASURED, 200.0) + 15.0
    ensures Raw(m) < Raw(Unmeasured(m))
            <==> m.latency >= 200.0 && Worth(m) < 40.0 * Fade(UNMEASURED, 200.0) + 15.0
  {
    hide Fade;
    UnmeasuredFade();
    if m.latency < 200.0 { FastFade(m.latency); }
  }

  /**
   The clamp only hides the difference where the measured endpoint scores nothing; an unmeasured one
   never reaches the upper end. And the other way round.
   */
  lemma MeasuredScoresExactly(m: Metrics)
    ensures Score(m) > Score(Unmeasured(m)) <==> Raw(m) > 0.0 && Raw(m) > Raw(Unmeasured(m))
    ensures Score(m) < Score(Unmeasured(m)) <==> Raw(Unmeasured(m)) > 0.0 && Raw(m) < Raw(Unmeasured(m))
  {
    hide Fade;
    UnmeasuredFade();
    assert Raw(Unmeasured(m)) < 100.0;
  }

  /** What the scorer sees of `samples` without losses or failures. */
  function Clean(samples: seq<millis>): Metrics {
    Metrics(MeanLatency(samples), Jitter(samples), 0.0, 0, false)
  }

  lemma TwoSamples(x: millis, y: millis)
    ensures MeanLatency([x, y]) == (x + y) / 2.0 && Jitter([x, y]) == Distance(x, y)
  {
    assert [x, y][1..] == [y] && [y][1..] == [];
    assert Sum([y]) == y && Sum([x, y]) == x + y;
    assert Travel([x, y]) == Distance(x, y);
  }

  /** Two slow samples far apart score below none at all. */
  lemma UnmeasuredCanWin()
    ensures Score(Clean([])) > Score(Clean([1620.0, 1980.0])) && Clean([]) == Unmeasured(Clean([1620.0, 1980.0]))
  {
    TwoSamples(1620.0, 1980.0);
    assert Fade(1800.0, 200.0) == 0.1;
    assert Fade(360.0, 40.0) == 0.1;
    assert Fade(0.0, 40.0) == 1.0;
  }

  // ----- Picking the best: a higher score, then a smaller id

  /** `a` is not sorted after `b`. */
  predicate Before(o: Order, a: Decision, b: Decision) {
    a.score > b.score || (a.score == b.score && IdLe(o, a.id, b.id))
  }

  /** A stable insertion sort standing for `sort_by`. */
  function Sort(o: Order, ds: seq<Decision>): seq<Decision> {
    if ds == [] then [] else Insert(o, ds[0], Sort(o, ds[1..]))
  }

  function Insert(o: Order, d: Decision, ds: seq<Decision>): seq<Decision> {
    if ds == [] || Before(o, d, ds[0]) then [d] + ds else [ds[0]] + Insert(o, d, ds[1..])
  }

  /** The best decision, the earliest of equals. */
  ghost predicate IsBest(o: Order, ds: seq<Decision>, d: Decision) {
    exists i :: 0 <= i < |ds| && ds[i] == d
                && (forall j :: 0 <= j < |ds| ==> Before(o, d, ds[j]))
                && (forall j :: 0 <= j < i ==> !Before(o, ds[j], d))
  }

  function First(ds: seq<Decision>): Option<Decision> {
    if ds == [] then None else Some(ds[0])
  }

  /** `pick_best` on scored candidates. */
  function PickBySort(ds: seq<Decision>): Option<Decision> {
    First(Sort(Rust, ds))
  }

  method PickBest(candidates: seq<(EndpointHealth, Transport)>) returns (best: Option<Decision>)
    ensures best == PickBySort(Decisions(candidates))
  {
    var scored := [];
    for i := 0 to |candidates|
      invariant scored == Decisions(candidates)[..i]
    {
      var d := ScoreEndpoint(candidates[i].0, candidates[i].1);
      scored := scored + [d];
    }
    assert scored == Decisions(candidates);
    best := First(Sort(Rust, scored));
  }

  function Decisions(candidates: seq<(EndpointHealth, Transport)>): (ds: seq<Decision>)
    reads set i | 0 <= i < |candidates| :: candidates[i].0
    ensures |ds| == |candidates|
  {
    seq(|candidates|, i requires 0 <= i < |candidates| reads set k | 0 <= k < |candidates| :: candidates[k].0 =>
      Decision(candidates[i].0.id, candidates[i].1, Score(candidates[i].0.Snapshot())))
  }

  lemma BeforeOrder(o: Order, a: Decision, b: Decision, c: Decision)
    ensures Before(o, a, b) || Before(o, b, a)
    ensures Before(o, a, b) && Before(o, b, c) ==> Before(o, a, c)
  {
    hide IdLe;
    IdOrder(o, a.id, b.id, c.id);
  }

  lemma IsBestCons(o: Order, d: Decision, rest: seq<Decision>, best: Decision)
    requires IsBest(o, rest, best)
    ensures IsBest(o, [d] + rest, if Before(o, d, best) then d else best)
  {
    hide Before;
    var i :| 0 <= i < |rest| && rest[i] == best && (forall j :: 0 <= j < |rest| ==> Before(o, best, rest[j]))
             && (forall j :: 0 <= j < i ==> !Before(o, rest[j], best));
    var ds := [d] + rest;
    BeforeOrder(o, d, best, d);
    BeforeOrder(o, d, d, d);
    if Before(o, d, best) {
      forall j | 0 <= j < |ds|
        ensures Before(o, d, ds[j])
      {
        if j > 0 { BeforeOrder(o, d, best, rest[j - 1]); }
      }
      assert ds[0] == d;
    } else {
      assert ds[i + 1] == best;
      assert forall j :: 0 < j < |ds| ==> ds[j] == rest[j - 1];
    }
  }

  /** The head of the sorted list is the best. */
  lemma {:induction false} SortedHead(o: Order, ds: seq<Decision>)
    requires ds != []
    ensures Sort(o, ds) != [] && IsBest(o, ds, Sort(o, ds)[0])
  {
    hide Before;
    if |ds| == 1 {
      BeforeOrder(o, ds[0], ds[0], ds[0]);
      assert Sort(o, ds[1..]) == [];
      assert Sort(o, ds)[0] == ds[0];
    } else {
      hide IsBest;
      SortedHead(o, ds[1..]);
      IsBestCons(o, ds[0], ds[1..], Sort(o, ds[1..])[0]);
      assert ds == [ds[0]] + ds[1..];
    }
  }

  lemma BestUnique(o: Order, ds: seq<Decision>, d: Decision, e: Decision)
    requires IsBest(o, ds, d) && IsBest(o, ds, e)
    ensures d == e
  {
    hide Before;
    var i :| 0 <= i < |ds| && ds[i] == d && (forall j :: 0 <= j < |ds| ==> Before(o, d, ds[j]))
             && (forall j :: 0 <= j < i ==> !Before(o, ds[j], d));
    var k :| 0 <= k < |ds| && ds[k] == e && (forall j :: 0 <= j < |ds| ==> Before(o, e, ds[j]))
             && (forall j :: 0 <= j < k ==> !Before(o, ds[j], e));
    assert Before(o, ds[i], ds[k]) && Before(o, ds[k], ds[i]);
  }

  lemma PickBySortIsBest(ds: seq<Decision>)
    ensures PickBySort(ds).None? <==> ds == []
    ensures forall d :: PickBySort(ds) == Some(d) <==> IsBest(Rust, ds, d)
  {
    hide IsBest, Before;
    if ds != [] {
      SortedHead(Rust, ds);
      forall d | IsBest(Rust, ds, d)
        ensures PickBySort(ds) == Some(d)
      {
        BestUnique(Rust, ds, d, Sort(Rust, ds)[0]);
      }
    } else {
      NothingBest(Rust);
    }
  }

  lemma NothingBest(o: Order)
    ensures forall d :: !IsBest(o, [], d)
  {
  }

  // ----- Order of candidates

  predicate DistinctIds(ds: seq<Decision>) {
    forall i, j :: 0 <= i < j < |ds| ==> ds[i].id != ds[j].id
  }

  /** Reordering the candidates changes nothing: neither score nor id, and with distinct ids not the decision either. */
  lemma OrderIrrelevant(ds: seq<Decision>, es: seq<Decision>)
    requires multiset(ds) == multiset(es) && ds != []
    ensures var d, e := PickBySort(ds), PickBySort(es);
            d.Some? && e.Some? && d.value.score == e.value.score && d.value.id == e.value.id
    ensures DistinctIds(ds) ==> PickBySort(ds) == PickBySort(es)
  {
    hide IdLe, Sort;
    assert |es| == |multiset(es)| == |ds|;
    SortedHead(Rust, ds);
    SortedHead(Rust, es);
    var d, e := Sort(Rust, ds)[0], Sort(Rust, es)[0];
    assert d in multiset(ds) && e in multiset(es);
    assert d in es && e in ds;
    assert Before(Rust, d, e) && Before(Rust, e, d);
    IdAntisymmetric(Rust, d.id, e.id);
  }

  // ----- The single pass in Dart

  /** An endpoint with its score. */
  datatype Scored = Scored(id: string, cdnRouted: bool, score: real)

  function TransportAt(i: nat): Transport {
    LADDER[if i < |LADDER| then i else |LADDER| - 1]
  }

  /** The endpoints from index `i` on that take part, each with the transport of its position. */
  function Entrants(endpoints: seq<Scored>, cdnOnly: bool, i: nat): seq<Decision>
    requires i <= |endpoints|
    decreases |endpoints| - i
  {
    if i == |endpoints| then []
    else
      var e := endpoints[i];
      (if cdnOnly && !e.cdnRouted then [] else [Decision(e.id, TransportAt(i), e.score)])
      + Entrants(endpoints, cdnOnly, i + 1)
  }

  ghost predicate BestSoFar(ds: seq<Decision>, best: Option<Decision>) {
    if best.None? then ds == [] else IsBest(Dart, ds, best.value)
  }

  lemma BestSnoc(ds: seq<Decision>, best: Option<Decision>, d: Decision)
    requires BestSoFar(ds, best)
    ensures BestSoFar(ds + [d], if best.Some? && Before(Dart, best.value, d) then best else Some(d))
  {
    hide Before;
    var es := ds + [d];
    BeforeOrder(Dart, d, d, d);
    if best.None? {
      assert es[0] == d;
    } else {
      var b := best.value;
      var i :| 0 <= i < |ds| && ds[i] == b && (forall j :: 0 <= j < |ds| ==> Before(Dart, b, ds[j]))
               && (forall j :: 0 <= j < i ==> !Before(Dart, ds[j], b));
      BeforeOrder(Dart, b, d, d);
      if Before(Dart, b, d) {
        assert es[i] == b;
      } else {
        forall j | 0 <= j < |ds|
          ensures Before(Dart, d, ds[j]) && !Before(Dart, ds[j], d)
        {
          BeforeOrder(Dart, d, b, ds[j]);
          BeforeOrder(Dart, b, ds[j], d);
        }
        assert es[|ds|] == d;
      }
    }
  }

  /** `compareTo` below zero. */
  predicate IdLess(a: string, b: string) {
    !IdLe(Dart, b, a)
  }

  /** `pickBest` of the Dart engine, on given scores. */
  method PickBestOnePass(endpoints: seq<Scored>, cdnOnly: bool) returns (best: Option<Decision>)
    ensures best.None? <==> Entrants(endpoints, cdnOnly, 0) == []
    ensures best.Some? ==> IsBest(Dart, Entrants(endpoints, cdnOnly, 0), best.value)
    ensures NoCrossedTies(Entrants(endpoints, cdnOnly, 0)) ==> best == PickBySort(Entrants(endpoints, cdnOnly, 0))
  {
    hide IsBest, IdLe, NoCrossedTies, PickBySort;
    best := None;
    ghost var seen: seq<Decision> := [];
    for i := 0 to |endpoints|
      invariant seen + Entrants(endpoints, cdnOnly, i) == Entrants(endpoints, cdnOnly, 0)
      invariant BestSoFar(seen, best)
    {
      var e := endpoints[i];
      if cdnOnly && !e.cdnRouted {
        assert [] + Entrants(endpoints, cdnOnly, i + 1) == Entrants(endpoints, cdnOnly, i + 1);
      } else {
        var d := Decision(e.id, TransportAt(i), e.score);
        BestSnoc(seen, best, d);
        Assoc(seen, [d], Entrants(endpoints, cdnOnly, i + 1));
        seen := seen + [d];
        if best.None? || d.score > best.value.score || (d.score == best.value.score && IdLess(d.id, best.value.id)) {
          best := Some(d);
        }
      }
    }
    assert seen + [] == seen;
    NothingBest(Dart);
    if NoCrossedTies(seen) { OnePassAgrees(seen, best); }
  }

  /** Candidates of equal score never have crossed ids. */
  predicate NoCrossedTies(ds: seq<Decision>) {
    forall i, j :: 0 <= i < |ds| && 0 <= j < |ds| && ds[i].score == ds[j].score ==> !Crossed(ds[i].id, ds[j].id)
  }

  lemma BeforeEitherWay(a: Decision, b: Decision)
    ensures Before(Rust, a, b) == Before(Dart, a, b) <==> a.score != b.score || !Crossed(a.id, b.id)
  {
    hide IdLe, Crossed;
    OrdersAgreeExactly(a.id, b.id);
  }

  /** What sorting picks is also best in Dart's order exactly when no candidate of its score is crossed with it. */
  lemma PickCarriesOver(ds: seq<Decision>, d: Decision)
    requires IsBest(Rust, ds, d)
    ensures IsBest(Dart, ds, d) <==> forall j :: 0 <= j < |ds| && ds[j].score == d.score ==> !Crossed(d.id, ds[j].id)
  {
    hide Before, Crossed;
    var i :| 0 <= i < |ds| && ds[i] == d && (forall j :: 0 <= j < |ds| ==> Before(Rust, d, ds[j]))
             && (forall j :: 0 <= j < i ==> !Before(Rust, ds[j], d));
    forall j | 0 <= j < |ds|
      ensures Before(Dart, d, ds[j]) <==> ds[j].score != d.score || !Crossed(d.id, ds[j].id)
      ensures ds[j].score != d.score || !Crossed(d.id, ds[j].id) ==> Before(Dart, ds[j], d) == Before(Rust, ds[j], d)
    {
      assert Before(Rust, d, ds[j]);
      BeforeEitherWay(d, ds[j]);
      BeforeEitherWay(ds[j], d);
      CrossedSymmetric(d.id, ds[j].id);
    }
  }

  /** Entry `t` has the top score, and of those with it the least id as Rust compares them. */
  predicate TopEntry(ds: seq<Decision>, t: nat) {
    t < |ds| && forall j :: 0 <= j < |ds| ==>
                  ds[j].score <= ds[t].score && (ds[j].score == ds[t].score ==> IdLe(Rust, ds[t].id, ds[j].id))
  }

  lemma TopIsPicked(ds: seq<Decision>, t: nat, d: Decision)
    requires TopEntry(ds, t) && IsBest(Rust, ds, d)
    ensures d.score == ds[t].score && d.id == ds[t].id
  {
    hide IdLe;
    var i :| 0 <= i < |ds| && ds[i] == d && (forall j :: 0 <= j < |ds| ==> Before(Rust, d, ds[j]));
    assert Before(Rust, d, ds[t]) && ds[i].score <= ds[t].score;
    IdAntisymmetric(Rust, d.id, ds[t].id);
  }

  /**
   The single pass returns what sorting the same decisions returns if and only if no candidate of the
   top score has an id crossed with the least id of that score.
   */
  lemma PicksAgreeExactly(ds: seq<Decision>, best: Option<Decision>, t: nat)
    requires BestSoFar(ds, best) && TopEntry(ds, t)
    ensures best == PickBySort(ds)
            <==> forall j :: 0 <= j < |ds| && ds[j].score == ds[t].score ==> !Crossed(ds[t].id, ds[j].id)
  {
    hide IsBest, Sort, Crossed;
    PickBySortIsBest(ds);
    var d := PickBySort(ds).value;
    TopIsPicked(ds, t, d);
    PickCarriesOver(ds, d);
    if IsBest(Dart, ds, d) { BestUnique(Dart, ds, d, best.value); }
  }

  lemma PickIsTop(ds: seq<Decision>, d: Decision) returns (t: nat)
    requires IsBest(Rust, ds, d)
    ensures TopEntry(ds, t) && ds[t] == d
  {
    hide IdLe;
    t :| 0 <= t < |ds| && ds[t] == d && (forall j :: 0 <= j < |ds| ==> Before(Rust, d, ds[j]));
    forall j | 0 <= j < |ds|
      ensures ds[j].score <= d.score && (ds[j].score == d.score ==> IdLe(Rust, d.id, ds[j].id))
    {
      assert Before(Rust, d, ds[j]);
    }
  }

  /** Without crossed ties whatever the single pass may return is what sorting the same decisions returns. */
  lemma OnePassAgrees(ds: seq<Decision>, best: Option<Decision>)
    requires NoCrossedTies(ds)
    ensures BestSoFar(ds, best) <==> best == PickBySort(ds)
  {
    hide IsBest, Sort, Crossed;
    PickBySortIsBest(ds);
    NothingBest(Dart);
    if ds != [] {
      var d := PickBySort(ds).value;
      PickedFrom(ds, d);
      PickCarriesOver(ds, d);
      if best.Some? && IsBest(Dart, ds, best.value) { BestUnique(Dart, ds, d, best.value); }
    }
  }

  lemma PickedFrom(ds: seq<Decision>, d: Decision)
    requires IsBest(Rust, ds, d)
    ensures exists i :: 0 <= i < |ds| && ds[i] == d
  {
    hide Before;
  }

  lemma AsciiHasNoCrossedTies(ds: seq<Decision>)
    requires forall i :: 0 <= i < |ds| ==> Utf8.Ascii(ds[i].id)
    ensures NoCrossedTies(ds)
  {
    hide Crossed;
    forall i, j | 0 <= i < |ds| && 0 <= j < |ds|
      ensures !Crossed(ds[i].id, ds[j].id)
    {
      BasicNotCrossed(ds[i].id, ds[j].id);
    }
  }

  /** Any two crossed ids with one score make the two picks differ. */
  lemma PicksDiffer(a: Scored, b: Scored, best: Option<Decision>)
    requires a.score == b.score && Crossed(a.id, b.id)
    requires BestSoFar(Entrants([a, b], false, 0), best)
    ensures best != PickBySort(Entrants([a, b], false, 0))
  {
    hide Crossed, Sort, IsBest, Before;
    var ds := [Decision(a.id, TransportAt(0), a.score), Decision(b.id, TransportAt(1), b.score)];
    assert Entrants([a, b], false, 2) == [];
    assert Entrants([a, b], false, 1) == [ds[1]] + [] == [ds[1]];
    assert Entrants([a, b], false, 0) == [ds[0]] + [ds[1]] == ds;
    PickBySortIsBest(ds);
    var t := PickIsTop(ds, PickBySort(ds).value);
    CrossedSymmetric(a.id, b.id);
    PicksAgreeExactly(ds, best, t);
    assert ds[0].score == ds[1].score;
  }

  lemma CrossedIdsExist()
    ensures Crossed("\U{FFFD}", "\U{10000}")
  {
    assert "\U{FFFD}"[0] != "\U{10000}"[0];
  }
}
