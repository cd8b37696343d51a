/** What every part of an endpoint's score costs: the score is fixed by these rates and a perfect endpoint's hundred. */
module Rates {
  import opened Health
  import opened Scoring
  import opened Words

  /** From 200 ms on only nine tenths of a difference remain. */
  function Late(m: Metrics): real {
    if m.latency < 200.0 then 1.0 else 0.9
  }

  function Cdn(m: Metrics): real {
    if m.cdnRouted then 1.05 else 1.0
  }

  lemma PerfectIsHundred()
    ensures Score(Metrics(0.0, 0.0, 0.0, 0, false)) == 100.0
  {
    FadeIs(0.0, 200.0);
    FadeIs(0.0, 40.0);
  }

  /** Between the ends the clamp does nothing. */
  lemma ScoreIsRaw(m: Metrics)
    ensures 0.0 <= Raw(m) <= 100.0 ==> Score(m) == Raw(m)
    ensures Raw(m) < 0.0 ==> Score(m) == 0.0
    ensures Raw(m) > 100.0 ==> Score(m) == 100.0
  {
    hide Raw;
  }

  /** A percent of loss costs a quarter of a point, and beyond a hundred nothing more. */
  lemma LossCosts(m: Metrics, x: real, y: real)
    ensures 0.0 <= x <= y <= 100.0 ==>
              Raw(m.(lossPct := x)) - Raw(m.(lossPct := y)) == 0.25 * (y - x) * Late(m) * Cdn(m)
    ensures y >= 100.0 ==> Raw(m.(lossPct := y)) == Raw(m.(lossPct := 100.0))
    ensures x <= 0.0 ==> Raw(m.(lossPct := x)) == Raw(m.(lossPct := 0.0))
  {
    hide Fade, Stability, FailurePenalty;
  }

  lemma FadeTimes(x: millis, scale: real)
    requires scale > 0.0
    ensures Fade(x, scale) * (scale + x) == scale
  {
    var p := 1.0 + x / scale;
    var r := 1.0 / p;
    FadeIs(x, scale);
    assert r * p == 1.0;
    assert x / scale * scale == x;
    assert p * scale == scale + x;
    Regroup(r, p, scale);
  }

  lemma Regroup(r: real, p: real, q: real)
    ensures r * (p * q) == r * p * q
  {
  }

  /** Under 200 ms the latency `x` costs `40 x / (200 + x)` points: half of its forty at 200 ms. */
  lemma LatencyCosts(m: Metrics, x: millis)
    requires x < 200.0
    ensures (Raw(m.(latency := 0.0)) - Raw(m.(latency := x))) * (200.0 + x) == 40.0 * x * Cdn(m)
  {
    hide Fade, LossScore, Stability, FailurePenalty;
    FadeTimes(x, 200.0);
    FadeTimes(0.0, 200.0);
    var f := Fade(x, 200.0);
    assert Fade(0.0, 200.0) == 1.0;
    assert Raw(m.(latency := 0.0)) - Raw(m.(latency := x)) == 40.0 * (1.0 - f) * Cdn(m);
    Spread(40.0, f, 200.0 + x, Cdn(m));
  }

  lemma Spread(w: real, f: real, d: real, c: real)
    ensures w * (1.0 - f) * c * d == w * (d - f * d) * c
  {
    assert (1.0 - f) * d == d - f * d;
    assert w * (1.0 - f) * c * d == w * ((1.0 - f) * d) * c;
  }

  /** From 200 ms on it costs nine tenths of that, and once a tenth of everything but the penalty. */
  lemma LateLatencyCosts(m: Metrics, x: millis)
    requires x >= 200.0
    ensures (Raw(m.(latency := 200.0)) - Raw(m.(latency := x))) * (200.0 + x) == 18.0 * (x - 200.0) * Cdn(m)
    ensures m.failStreak < 2 ==>
              10.0 * Raw(m.(latency := 200.0)) == 9.0 * (Raw(m.(latency := 0.0)) - 20.0 * Cdn(m))
  {
    hide Fade, LossScore, Stability;
    FadeTimes(x, 200.0);
    FadeTimes(200.0, 200.0);
    FadeTimes(0.0, 200.0);
    var f := Fade(x, 200.0);
    assert Fade(200.0, 200.0) == 0.5 && Fade(0.0, 200.0) == 1.0;
    assert Raw(m.(latency := 200.0)) - Raw(m.(latency := x)) == 36.0 * (0.5 - f) * Cdn(m);
    SpreadHalf(36.0, f, 200.0 + x, Cdn(m));
  }

  lemma SpreadHalf(w: real, f: real, d: real, c: real)
    ensures w * (0.5 - f) * c * d == w * (0.5 * d - f * d) * c
  {
    assert (0.5 - f) * d == 0.5 * d - f * d;
    assert w * (0.5 - f) * c * d == w * ((0.5 - f) * d) * c;
  }

  /** The jitter `y` costs `15 y / (40 + y)` points: half of its fifteen at 40 ms. */
  lemma JitterCosts(m: Metrics, y: millis)
    ensures (Raw(m.(jitter := 0.0)) - Raw(m.(jitter := y))) * (40.0 + y) == 15.0 * y * Late(m) * Cdn(m)
  {
    hide Fade, LossScore, Stability, FailurePenalty;
    FadeTimes(y, 40.0);
    FadeTimes(0.0, 40.0);
    var f := Fade(y, 40.0);
    assert Fade(0.0, 40.0) == 1.0;
    var c := Late(m) * Cdn(m);
    assert Raw(m.(jitter := 0.0)) - Raw(m.(jitter := y)) == 15.0 * (1.0 - f) * c;
    Spread(15.0, f, 40.0 + y, c);
  }

  /** Points a further failure takes after `k`: five for each of the first four, the penalty for the second to fifth. */
  function FailureCost(k: nat, late: real): real {
    (if k < 4 then 5.0 * late else 0.0) + (if k == 1 then 20.0 else if 2 <= k < 5 then 10.0 else 0.0)
  }

  lemma FailureCosts(m: Metrics, k: u32)
    requires k + 1 < U32_END
    ensures Raw(m.(failStreak := k)) - Raw(m.(failStreak := k + 1)) == FailureCost(k, Late(m)) * Cdn(m)
  {
    hide Fade, LossScore;
    var b := 40.0 * Fade(m.latency, 200.0) + 15.0 * Fade(m.jitter, 40.0) + 25.0 * LossScore(m.lossPct);
    StabilityStep(k);
    PenaltyStep(k);
    hide Stability, FailurePenalty;
    assert Raw(m.(failStreak := k)) == ((b + 20.0 * Stability(k)) * Late(m) - FailurePenalty(k)) * Cdn(m);
    assert Raw(m.(failStreak := k + 1)) == ((b + 20.0 * Stability(k + 1)) * Late(m) - FailurePenalty(k + 1)) * Cdn(m);
  }

  lemma StabilityStep(k: nat)
    ensures Stability(k) - Stability(k + 1) == if k < 4 then 0.25 else 0.0
  {
  }

  lemma PenaltyStep(k: nat)
    ensures FailurePenalty(k + 1) - FailurePenalty(k) == if k == 1 then 20.0 else if 2 <= k < 5 then 10.0 else 0.0
  {
  }

  /** Routing through a CDN multiplies by 1.05, below zero too. */
  lemma CdnWorth(m: Metrics)
    ensures Raw(m.(cdnRouted := true)) == 1.05 * Raw(m.(cdnRouted := false))
  {
    hide Fade, LossScore, Stability, FailurePenalty;
  }

  lemma TenPercentLoss()
    ensures Score(Metrics(50.0, 0.0, 10.0, 0, false)) == 89.5
  {
    FadeTimes(50.0, 200.0);
    FadeTimes(0.0, 40.0);
  }
}
