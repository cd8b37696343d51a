/** Rolling performance metrics of one endpoint. Samples are durations, and arithmetic is over the reals. */
module Health {
  import opened Words
  import opened Wrappers

  type millis = x: real | 0.0 <= x witness 0.0

  const WINDOW := 20

  /** A quarter of the largest 32-bit float. */
  const UNMEASURED: real := 85070586659632214952926045871129231360.0

  function Sum(xs: seq<millis>): millis {
    if xs == [] then 0.0 else xs[0] + Sum(xs[1..])
  }

  function Distance(x: real, y: real): millis {
    if x <= y then y - x else x - y
  }

  /** The sum of the absolute successive differences. */
  function Travel(xs: seq<millis>): millis {
    if |xs| < 2 then 0.0 else Distance(xs[0], xs[1]) + Travel(xs[1..])
  }

  function MeanLatency(xs: seq<millis>): millis {
    if xs == [] then UNMEASURED else Sum(xs) / |xs| as real
  }

  function Jitter(xs: seq<millis>): millis {
    if |xs| < 2 then 0.0 else Travel(xs) / (|xs| - 1) as real
  }

  function SaturatingInc(n: u32): u32 {
    if n + 1 < U32_END then n + 1 else n
  }

  /** What the scorer looks at. */
  datatype Metrics = Metrics(latency: millis, jitter: millis, lossPct: real, failStreak: u32, cdnRouted: bool)

  class EndpointHealth {
    const id: string
    const cdnRouted: bool
    var latencies: seq<millis>
    var lossPct: real
    var failStreak: u32
    var successStreak: u32
    var lastFailAt: Option<i64>

    constructor (id: string, cdnRouted: bool)
      ensures this.id == id && this.cdnRouted == cdnRouted
      ensures latencies == [] && lossPct == 0.0 && failStreak == 0 && successStreak == 0 && lastFailAt.None?
    {
      this.id := id;
      this.cdnRouted := cdnRouted;
      latencies := [];
      lossPct := 0.0;
      failStreak := 0;
      successStreak := 0;
      lastFailAt := None;
    }

    function Snapshot(): Metrics
      reads this
    {
      Metrics(MeanLatency(latencies), Jitter(latencies), lossPct, failStreak, cdnRouted)
    }

    method PushLatency(ms: millis)
      modifies this`latencies
      ensures latencies == Pushed(old(latencies), ms)
    {
      latencies := latencies + [ms];
      if |latencies| > WINDOW {
        latencies := latencies[1..];
      }
    }

    method RecordSuccess()
      modifies this`failStreak, this`successStreak
      ensures failStreak == 0 && successStreak == SaturatingInc(old(successStreak))
      ensures Snapshot() == old(Snapshot()).(failStreak := 0)
    {
      failStreak := 0;
      successStreak := SaturatingInc(successStreak);
    }

    method RecordFailure(at: i64)
      modifies this`failStreak, this`successStreak, this`lastFailAt
      ensures successStreak == 0 && lastFailAt == Some(at)
      ensures Snapshot() == old(Snapshot()).(failStreak := SaturatingInc(old(failStreak)))
    {
      successStreak := 0;
      failStreak := SaturatingInc(failStreak);
      lastFailAt := Some(at);
    }
  }

  // ----- The window of samples

  /** The window after one more sample: at most one old sample goes. */
  function Pushed(xs: seq<millis>, ms: millis): seq<millis> {
    if |xs| < WINDOW then xs + [ms] else xs[1..] + [ms]
  }

  function PushedAll(xs: seq<millis>, more: seq<millis>): seq<millis>
    decreases |more|
  {
    if more == [] then xs else PushedAll(Pushed(xs, more[0]), more[1..])
  }

  function Latest(xs: seq<millis>, n: nat): seq<millis> {
    if |xs| <= n then xs else xs[|xs| - n..]
  }

  lemma {:induction false} PushingKeepsLatest(seen: seq<millis>, more: seq<millis>)
    ensures PushedAll(Latest(seen, WINDOW), more) == Latest(seen + more, WINDOW)
    decreases |more|
  {
    if more == [] {
      assert seen + more == seen;
    } else {
      assert Pushed(Latest(seen, WINDOW), more[0]) == Latest(seen + [more[0]], WINDOW);
      PushingKeepsLatest(seen + [more[0]], more[1..]);
      assert seen + [more[0]] + more[1..] == seen + more;
    }
  }

  /** Whatever is measured, an endpoint remembers exactly its latest twenty samples, in order. */
  lemma WindowIsLatest(samples: seq<millis>)
    ensures PushedAll([], samples) == Latest(samples, 20)
  {
    PushingKeepsLatest([], samples);
    assert [] + samples == samples;
  }

  // ----- What mean and jitter say about the samples

  predicate Within(xs: seq<millis>, lo: millis, hi: millis) {
    forall i :: 0 <= i < |xs| ==> lo <= xs[i] <= hi
  }

  ghost function Times(x: real, n: nat): real {
    if n == 0 then 0.0 else x + Times(x, n - 1)
  }

  lemma {:induction false} TimesIs(x: real, n: nat)
    ensures Times(x, n) == x * n as real
  {
    if n > 0 {
      TimesIs(x, n - 1);
      var m := (n - 1) as real;
      assert x * (m + 1.0) == x * m + x;
    }
  }

  lemma {:induction false} SumWithin(xs: seq<millis>, lo: millis, hi: millis)
    requires Within(xs, lo, hi)
    ensures Times(lo, |xs|) <= Sum(xs) <= Times(hi, |xs|)
  {
    if xs != [] {
      SumWithin(xs[1..], lo, hi);
      assert lo <= xs[0] <= hi;
    }
  }

  lemma Scaled(x: real, y: real, n: real)
    requires x < y && n > 0.0
    ensures x * n < y * n
  {
  }

  lemma Quotient(x: real, n: real, lo: real, hi: real)
    requires n > 0.0 && lo * n <= x <= hi * n
    ensures lo <= x / n <= hi
  {
    var q := x / n;
    assert q * n == x;
    if q < lo {
      Scaled(q, lo, n);
    } else if q > hi {
      Scaled(hi, q, n);
    }
  }

  lemma MeanWithin(xs: seq<millis>, lo: millis, hi: millis)
    requires xs != [] && Within(xs, lo, hi)
    ensures lo <= MeanLatency(xs) <= hi
  {
    SumWithin(xs, lo, hi);
    TimesIs(lo, |xs|);
    TimesIs(hi, |xs|);
    Quotient(Sum(xs), |xs| as real, lo, hi);
  }

  lemma {:induction false} TravelWithin(xs: seq<millis>, lo: millis, hi: millis)
    requires xs != [] && Within(xs, lo, hi)
    ensures Travel(xs) <= Times(hi - lo, |xs| - 1)
  {
    if |xs| > 1 {
      assert lo <= xs[0] <= hi && lo <= xs[1] <= hi;
      TravelWithin(xs[1..], lo, hi);
    }
  }

  /** Jitter never exceeds the spread of the samples. */
  lemma JitterWithin(xs: seq<millis>, lo: millis, hi: millis)
    requires xs != [] && Within(xs, lo, hi)
    ensures Jitter(xs) <= hi - lo
  {
    assert lo <= xs[0] <= hi;
    if |xs| > 1 {
      TravelWithin(xs, lo, hi);
      TimesIs(hi - lo, |xs| - 1);
      Quotient(Travel(xs), (|xs| - 1) as real, 0.0, hi - lo);
    }
  }

  lemma {:induction false} TravelNothing(xs: seq<millis>)
    ensures Travel(xs) == 0.0 <==> forall i :: 0 <= i < |xs| ==> xs[i] == xs[0]
  {
    if |xs| >= 2 {
      var t := xs[1..];
      TravelNothing(t);
      if xs[0] == xs[1] {
        assert forall i :: 0 < i < |xs| ==> xs[i] == t[i - 1];
        assert forall i :: 0 <= i < |t| ==> t[i] == xs[i + 1];
      }
    }
  }

  /** No jitter means a constant latency. */
  lemma JitterNothing(xs: seq<millis>)
    ensures Jitter(xs) == 0.0 <==> forall i :: 0 <= i < |xs| ==> xs[i] == xs[0]
  {
    TravelNothing(xs);
    if |xs| >= 2 {
      var n := (|xs| - 1) as real;
      assert Travel(xs) == (Travel(xs) / n) * n;
    }
  }

  // ----- The statistics, sample by sample

  lemma {:induction false} SumSnoc(xs: seq<millis>, x: millis)
    ensures Sum(xs + [x]) == Sum(xs) + x
  {
    if xs == [] {
      assert xs + [x] == [x] && [x][1..] == [];
    } else {
      SumSnoc(xs[1..], x);
      assert (xs + [x])[1..] == xs[1..] + [x];
    }
  }

  lemma {:induction false} TravelSnoc(xs: seq<millis>, x: millis)
    requires xs != []
    ensures Travel(xs + [x]) == Travel(xs) + if xs[|xs| - 1] <= x then x - xs[|xs| - 1] else xs[|xs| - 1] - x
  {
    var all := xs + [x];
    if |xs| == 1 {
      assert all[1..] == [x];
    } else {
      TravelSnoc(xs[1..], x);
      assert all[1..] == xs[1..] + [x];
    }
  }

  /** One sample is its own mean; each further one shifts the mean by its share. */
  lemma MeanSnoc(xs: seq<millis>, x: millis)
    ensures xs == [] ==> MeanLatency(xs + [x]) == x
    ensures xs != [] ==> MeanLatency(xs + [x]) * (|xs| as real + 1.0) == MeanLatency(xs) * |xs| as real + x
  {
    SumSnoc(xs, x);
    var n := |xs| as real;
    Undivide(Sum(xs + [x]), n + 1.0);
    if xs != [] { Undivide(Sum(xs), n); }
  }

  lemma Undivide(x: real, n: real)
    requires n != 0.0
    ensures x / n * n == x
  {
  }

  /** Two samples jitter by their distance; each further one adds the distance it moves. */
  lemma JitterSnoc(xs: seq<millis>, x: millis)
    requires xs != []
    ensures var moved := if xs[|xs| - 1] <= x then x - xs[|xs| - 1] else xs[|xs| - 1] - x;
            Jitter(xs + [x]) * |xs| as real == Jitter(xs) * (|xs| as real - 1.0) + moved
    ensures Jitter([x]) == 0.0
  {
    TravelSnoc(xs, x);
    var n := |xs| as real;
    Undivide(Travel(xs + [x]), n);
    if |xs| > 1 { Undivide(Travel(xs), n - 1.0); }
  }
}
