/** The online mean and mean-absolute-deviation tracker that projects the cost of the next pass. */
module CostProjector {
  import opened Common
  import opened AdaptiveTypes

  datatype Stats = Stats(n: u32, mean: real, mad: real)

  const NO_COSTS := Stats(0, 0.0, 0.0)

  function Abs(x: real): (r: real)
    ensures 0.0 <= r && x <= r && (r == x || r == -x)
  {
    if x < 0.0 then -x else x
  }

  /** One observation. The count saturates; the deviation is taken from the new mean. */
  function Observed(s: Stats, cost: real): Stats {
    var n: u32 := if s.n == U32_MAX then s.n else s.n + 1;
    var mean := s.mean + (cost - s.mean) / n as real;
    var mad := s.mad + (Abs(cost - mean) - s.mad) / n as real;
    Stats(n, mean, mad)
  }

  function ProjectNext(s: Stats, coldStartSeed: real): real {
    if s.n == 0 then coldStartSeed else s.mean + 4.0 * s.mad
  }

  function ValidateNonnegative(cost: real): Result<(), AdaptiveError> {
    if cost < 0.0 then Err(InvalidCost(cost)) else Ok(())
  }

  /** The tracker as the source keeps it: three fields updated in place. */
  class CostStats {
    var n: u32
    var mean: real
    var mad: real

    function View(): Stats
      reads this
    {
      Stats(n, mean, mad)
    }

    constructor ()
      ensures View() == NO_COSTS
    {
      n, mean, mad := 0, 0.0, 0.0;
    }

    method Observe(cost: real)
      requires ValidateNonnegative(cost).Ok?
      modifies this
      ensures View() == Observed(old(View()), cost)
    {
      if n != U32_MAX {
        n := n + 1;
      }
      var newMean := mean + (cost - mean) / n as real;
      var newMad := mad + (Abs(cost - newMean) - mad) / n as real;
      mean := newMean;
      mad := newMad;
    }
  }

  /* ---- What the three numbers mean ---- */

  function StatsOf(costs: seq<real>): Stats {
    if costs == [] then NO_COSTS else Observed(StatsOf(costs[..|costs| - 1]), costs[|costs| - 1])
  }

  function Sum(costs: seq<real>): real {
    if costs == [] then 0.0 else Sum(costs[..|costs| - 1]) + costs[|costs| - 1]
  }

  /** The total distance of each cost from the running mean just after it. */
  function TotalDeviation(costs: seq<real>): real {
    if costs == [] then 0.0
    else TotalDeviation(costs[..|costs| - 1]) + Abs(costs[|costs| - 1] - Sum(costs) / |costs| as real)
  }

  predicate Within(costs: seq<real>, lo: real, hi: real) {
    forall i :: 0 <= i < |costs| ==> lo <= costs[i] <= hi
  }

  lemma {:induction false} OneMoreCost(costs: seq<real>, c: real)
    ensures StatsOf(costs + [c]) == Observed(StatsOf(costs), c)
    ensures Sum(costs + [c]) == Sum(costs) + c
  {
    assert (costs + [c])[..|costs|] == costs;
  }

  /** An average over k values moves by 1/k of the distance to the new value. */
  lemma {:induction false} RunningAverage(k: real, before: real, avg: real, total: real, x: real, next: real)
    requires 0.0 < k && before == k - 1.0 && before * avg == total && next == avg + (x - avg) / k
    ensures k * next == total + x && next == (total + x) / k
  {
    var step := (x - avg) / k;
    assert k * step == x - avg;
    assert k * next == k * avg + k * step;
    assert before * avg == k * avg - avg;
    QuotientIsMean(k, next, total + x);
  }

  /** The mean and deviation of s are the averages of n values with these totals. */
  predicate Averages(s: Stats, n: nat, total: real, deviation: real) {
    && s.n == n
    && n as real * s.mean == total
    && n as real * s.mad == deviation
  }

  /** The tracked mean and deviation are exact averages: no history is needed to recover the totals. */
  lemma {:induction false} StatsAreAverages(costs: seq<real>)
    requires |costs| <= U32_MAX
    ensures Averages(StatsOf(costs), |costs|, Sum(costs), TotalDeviation(costs))
  {
    if costs != [] {
      var front, c := costs[..|costs| - 1], costs[|costs| - 1];
      StatsAreAverages(front);
      ObservedAverages(StatsOf(front), |front|, c, Sum(front), TotalDeviation(front));
    }
  }

  lemma {:induction false} ObservedAverages(s: Stats, n: nat, c: real, total: real, deviation: real)
    requires n < U32_MAX && Averages(s, n, total, deviation)
    ensures Averages(Observed(s, c), n + 1, total + c, deviation + Abs(c - (total + c) / (n + 1) as real))
  {
    var s' := Observed(s, c);
    var k := (n + 1) as real;
    RunningAverage(k, n as real, s.mean, total, c, s'.mean);
    RunningAverage(k, n as real, s.mad, deviation, Abs(c - s'.mean), s'.mad);
  }

  lemma {:induction false} QuotientIsMean(k: real, mean: real, total: real)
    requires 0.0 < k && k * mean == total
    ensures total / k == mean
  {
  }

  /** Past 2^32 - 1 observations the count stays put, and n*mean gains c - mean instead of c. */
  lemma {:induction false} SaturatedMeanDrifts(s: Stats, c: real)
    requires s.n == U32_MAX
    ensures var s' := Observed(s, c);
            s'.n == s.n && s'.n as real * s'.mean == s.n as real * s.mean + c - s.mean
  {
    var k := s.n as real;
    assert k * ((c - s.mean) / k) == c - s.mean;
    assert k * (s.mean + (c - s.mean) / k) == k * s.mean + k * ((c - s.mean) / k);
  }

  /** A step towards x stays between the bounds, whatever the count. */
  lemma {:induction false} StepWithin(k: real, avg: real, x: real, lo: real, hi: real)
    requires 1.0 <= k && lo <= avg <= hi && lo <= x <= hi
    ensures lo <= avg + (x - avg) / k <= hi
  {
    var step := (x - avg) / k;
    assert k * step == x - avg;
    if 0.0 <= x - avg {
      assert 0.0 <= step && step <= k * step;
    } else {
      assert step <= 0.0 && k * step <= step;
    }
  }

  /** For any history between lo and hi the projection lies between the mean and hi + 4(hi - lo). */
  lemma {:induction false} ProjectionBounds(costs: seq<real>, lo: real, hi: real, seed: real)
    requires costs != [] && Within(costs, lo, hi)
    ensures var s := StatsOf(costs);
            && lo <= s.mean <= hi && 0.0 <= s.mad <= hi - lo
            && s.mean <= ProjectNext(s, seed) <= hi + 4.0 * (hi - lo)
  {
    var front, c := costs[..|costs| - 1], costs[|costs| - 1];
    var s := StatsOf(front);
    var s' := StatsOf(costs);
    assert lo <= c <= hi;
    if front == [] {
      assert s'.mean == c;
    } else {
      ProjectionBounds(front, lo, hi, seed);
      StepWithin(s'.n as real, s.mean, c, lo, hi);
      StepWithin(s'.n as real, s.mad, Abs(c - s'.mean), 0.0, hi - lo);
    }
  }

  function Repeat(c: real, n: nat): seq<real> {
    seq(n, _ => c)
  }

  function Saturated(n: nat): u32 {
    if n <= U32_MAX then n else U32_MAX
  }

  lemma {:induction false} SteadyStep(s: Stats, c: real)
    requires s == NO_COSTS || s == Stats(s.n, c, 0.0)
    ensures Observed(s, c) == Stats(Saturated(s.n + 1), c, 0.0)
  {
    var n := Saturated(s.n + 1) as real;
    if s.n == 0 {
      assert s.mean + (c - s.mean) / n == c;
    } else {
      assert (c - c) / n == 0.0;
    }
  }

  /** A steady cost is its own projection, however often it was seen; only the count saturates. */
  lemma {:induction false} SteadyStats(c: real, n: nat)
    ensures StatsOf(Repeat(c, n)) == Stats(Saturated(n), if n == 0 then 0.0 else c, 0.0)
  {
    if n > 0 {
      SteadyStats(c, n - 1);
      assert Repeat(c, n) == Repeat(c, n - 1) + [c];
      OneMoreCost(Repeat(c, n - 1), c);
      SteadyStep(StatsOf(Repeat(c, n - 1)), c);
    }
  }

  /** Where a projection p stands after n - 1 costs of c and one of x. */
  predicate SpikeLaw(p: real, c: real, x: real, n: nat) {
    && (p - c) * (n * n) as real == (x - c) * (5 * n - 4) as real
    && (x <= p <==> n <= 4)
  }

  /** A spike x after n - 1 passes at c: the projection is c + (x - c)(5n - 4)/n^2, so it reaches the
      spike exactly when n <= 4. The claim that a spike always makes the next projection an
      over-estimate fails from the fifth pass on. */
  lemma {:induction false} SpikeProjection(c: real, x: real, n: nat, seed: real)
    requires 0 < n <= U32_MAX && c < x
    ensures SpikeLaw(ProjectNext(StatsOf(Repeat(c, n - 1) + [x]), seed), c, x, n)
  {
    SteadyStats(c, n - 1);
    OneMoreCost(Repeat(c, n - 1), x);
    if n == 1 {
      assert StatsOf(Repeat(c, n - 1) + [x]) == Stats(1, x, 0.0);
    } else {
      SpikeAfterSteady(c, x, n, seed);
    }
  }

  lemma {:induction false} SpikeAfterSteady(c: real, x: real, n: nat, seed: real)
    requires 2 <= n <= U32_MAX && c < x
    ensures SpikeLaw(ProjectNext(Observed(Stats(n - 1, c, 0.0), x), seed), c, x, n)
  {
    var k, d := n as real, x - c;
    var m := d / k;
    var v := (d - m) / k;
    assert k * m == d && k * v == d - m;
    SpikeObserved(c, x, n, m, v);
    SpikeArithmetic(d, k, m, v);
    assert (n * n) as real == k * k && (5 * n - 4) as real == 5.0 * k - 4.0;
    SpikeReached(d, n, m + 4.0 * v);
  }

  /** The first value that differs moves the mean by m, and makes the deviation v. */
  lemma {:induction false} SpikeObserved(c: real, x: real, n: nat, m: real, v: real)
    requires 2 <= n <= U32_MAX && c < x
    requires m == (x - c) / n as real && v == (x - c - m) / n as real
    ensures Observed(Stats(n - 1, c, 0.0), x) == Stats(n, c + m, v)
  {
    StepWithin(n as real, 0.0, x - c, 0.0, x - c);
    assert Abs(x - (c + m)) - 0.0 == x - c - m;
  }

  lemma {:induction false} SpikeArithmetic(d: real, k: real, m: real, v: real)
    requires 0.0 < k && k * m == d && k * v == d - m
    ensures (m + 4.0 * v) * (k * k) == d * (5.0 * k - 4.0)
  {
    calc {
      (m + 4.0 * v) * (k * k);
      k * (k * m) + 4.0 * k * (k * v);
      k * d + 4.0 * k * (d - m);
      k * d + 4.0 * (k * d) - 4.0 * (k * m);
      d * (5.0 * k - 4.0);
    }
  }

  lemma {:induction false} SignOfProduct(x: real, y: real)
    requires 0.0 < x
    ensures 0.0 <= x * y <==> 0.0 <= y
  {
  }

  lemma {:induction false} TimesDifference(a: real, b: real, c: real)
    ensures a * (b - c) == a * b - a * c
  {
  }

  /** 5k - 4 - k*k, in factors. */
  lemma {:induction false} GapInFactors(k: real)
    ensures 5.0 * k - 4.0 - k * k == (k - 1.0) * (4.0 - k)
  {
  }

  lemma {:induction false} SpikeReached(d: real, n: nat, rise: real)
    requires 0.0 < d && 2 <= n && rise * (n as real * n as real) == d * (5.0 * n as real - 4.0)
    ensures d <= rise <==> n <= 4
  {
    var k := n as real;
    var square, gap := k * k, 5.0 * k - 4.0 - k * k;
    SignOfProduct(k, k);
    assert 0.0 < square;
    TimesDifference(square, rise, d);
    TimesDifference(d, 5.0 * k - 4.0, square);
    assert square * (rise - d) == d * gap;
    SignOfProduct(square, rise - d);
    SignOfProduct(d, gap);
    GapInFactors(k);
    SignOfProduct(k - 1.0, 4.0 - k);
  }
}
