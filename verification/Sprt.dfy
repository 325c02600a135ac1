/** Wald's sequential probability ratio test over binary pass outcomes. */
module Sprt {
  import opened Common
  import opened AdaptiveTypes
  import opened Logarithm

  datatype SprtConfig = SprtConfig(
    priorAlpha: real, priorBeta: real, acceptThreshold: real, rejectThreshold: real)

  predicate ValidSprt(cfg: SprtConfig, minConfidence: real) {
    && 0.0 < minConfidence < 1.0
    && 0.0 < cfg.rejectThreshold < cfg.acceptThreshold
    && 0.0 < cfg.priorAlpha && 0.0 < cfg.priorBeta
  }

  /** The log-likelihood ratio of p = minConfidence against p = 1/2, as the code computes it. */
  function LogLr(ln: real -> real, minConfidence: real, successes: nat, failures: nat): real {
    successes as real * ln(minConfidence / 0.5) + failures as real * ln((1.0 - minConfidence) / (1.0 - 0.5))
  }

  function RunSprt(ln: real -> real, passes: seq<PassObservation>, cfg: SprtConfig, minConfidence: real)
    : (r: Result<HaltDecision, AdaptiveError>)
    ensures r.Ok? <==> ValidSprt(cfg, minConfidence)
    ensures r.Ok? ==> r.value.confidence <= CONFIDENCE_CEILING && (r.value.halt <==> r.value.reason.Some?)
  {
    if !(0.0 < minConfidence < 1.0) then
      Err(InvalidConfidence(minConfidence))
    else if cfg.acceptThreshold <= cfg.rejectThreshold || cfg.rejectThreshold <= 0.0 then
      Err(InvalidSprtThresholds(cfg.acceptThreshold, cfg.rejectThreshold))
    else if !(0.0 < cfg.priorAlpha && 0.0 < cfg.priorBeta) then
      Err(InvalidSprtPrior(cfg.priorAlpha, cfg.priorBeta))
    else
      var (successes, failures) := CountOutcomes(passes);
      var alpha := cfg.priorAlpha + successes as real;
      var beta := cfg.priorBeta + failures as real;
      var confidence := CapConfidence(alpha / (alpha + beta));
      if passes == [] then
        Ok(HaltDecision(false, None, confidence))
      else
        var logLr := LogLr(ln, minConfidence, successes, failures);
        if logLr > ln(cfg.acceptThreshold) then
          Ok(HaltDecision(true, Some(SprtConfidenceReached), confidence))
        else if logLr < ln(cfg.rejectThreshold) then
          Ok(HaltDecision(true, Some(SprtRejected), confidence))
        else
          Ok(HaltDecision(false, None, confidence))
  }

  predicate Accepts(ln: real -> real, passes: seq<PassObservation>, cfg: SprtConfig, minConfidence: real) {
    var r := RunSprt(ln, passes, cfg, minConfidence);
    r.Ok? && r.value.reason == Some(SprtConfidenceReached)
  }

  predicate Rejects(ln: real -> real, passes: seq<PassObservation>, cfg: SprtConfig, minConfidence: real) {
    var r := RunSprt(ln, passes, cfg, minConfidence);
    r.Ok? && r.value.reason == Some(SprtRejected)
  }

  /* ---- The test in product form ---- */

  /** How likely one outcome is when a pass succeeds with probability p. */
  function Chance(p: real, o: PassObservation): real {
    if o.Success? then p else 1.0 - p
  }

  /** The probability of seeing exactly this run of outcomes. */
  function Weight(p: real, run: seq<PassObservation>): real {
    if run == [] then 1.0 else Weight(p, run[..|run| - 1]) * Chance(p, run[|run| - 1])
  }

  /** The likelihood ratio of p against 1/2: one factor for each outcome, in order. */
  function Ratio(p: real, run: seq<PassObservation>): real {
    if run == [] then 1.0 else Ratio(p, run[..|run| - 1]) * (2.0 * Chance(p, run[|run| - 1]))
  }

  lemma {:induction false} WeightOneMore(p: real, run: seq<PassObservation>, o: PassObservation)
    ensures Weight(p, run + [o]) == Weight(p, run) * Chance(p, o)
    ensures Ratio(p, run + [o]) == Ratio(p, run) * (2.0 * Chance(p, o))
  {
    assert (run + [o])[..|run|] == run;
  }

  lemma {:induction false} RatioRelatesWeights(p: real, run: seq<PassObservation>)
    requires 0.0 < p < 1.0
    ensures IsRatio(Ratio(p, run), Weight(p, run), Weight(0.5, run))
  {
    if run != [] {
      var front, o := run[..|run| - 1], run[|run| - 1];
      RatioRelatesWeights(p, front);
      Regroup(Ratio(p, front), Weight(p, front), Weight(0.5, front), Chance(p, o));
    }
  }

  predicate IsRatio(ratio: real, w: real, w0: real) {
    0.0 < ratio && 0.0 < w && 0.0 < w0 && w == ratio * w0
  }

  lemma {:induction false} Regroup(r: real, w: real, w0: real, c: real)
    requires IsRatio(r, w, w0) && 0.0 < c
    ensures IsRatio(r * (2.0 * c), w * c, w0 * 0.5)
  {
    assert (r * w0) * c == r * (w0 * c);
    assert (r * (2.0 * c)) * (w0 * 0.5) == r * ((2.0 * c) * (w0 * 0.5));
    PositiveProduct(r, 2.0 * c);
    PositiveProduct(w, c);
  }

  lemma {:induction false} PositiveProduct(x: real, y: real)
    requires 0.0 < x && 0.0 < y
    ensures 0.0 < x * y
  {
  }

  /** The counted log ratio is the logarithm of the per-outcome product, whatever the order. */
  lemma {:induction false} LogLrIsLogOfRatio(ln: real -> real, p: real, run: seq<PassObservation>)
    requires IsLogarithm(ln) && 0.0 < p < 1.0
    ensures var (s, f) := CountOutcomes(run); LogLr(ln, p, s, f) == ln(Ratio(p, run))
  {
    if run == [] {
      LnOne(ln);
    } else {
      var front, o := run[..|run| - 1], run[|run| - 1];
      LogLrIsLogOfRatio(ln, p, front);
      RatioRelatesWeights(p, front);
      LnProduct(ln, Ratio(p, front), 2.0 * Chance(p, o), Ratio(p, run));
      var (s, f) := CountOutcomes(front);
      LogLrOneMore(ln, p, s, f);
    }
  }

  lemma {:induction false} LogLrOneMore(ln: real -> real, p: real, s: nat, f: nat)
    ensures LogLr(ln, p, s + 1, f) == LogLr(ln, p, s, f) + ln(2.0 * p)
    ensures LogLr(ln, p, s, f + 1) == LogLr(ln, p, s, f) + ln(2.0 * (1.0 - p))
  {
    var a, b := ln(2.0 * p), ln(2.0 * (1.0 - p));
    assert p / 0.5 == 2.0 * p && (1.0 - p) / (1.0 - 0.5) == 2.0 * (1.0 - p);
    assert (s + 1) as real * a == s as real * a + a;
    assert (f + 1) as real * b == f as real * b + b;
  }

  /** The log test of the code decides exactly as the product-form ratio test. */
  lemma {:induction false} DecisionIsRatioTest(ln: real -> real, run: seq<PassObservation>, cfg: SprtConfig, p: real)
    requires IsLogarithm(ln) && ValidSprt(cfg, p)
    ensures Accepts(ln, run, cfg, p) <==> run != [] && Ratio(p, run) > cfg.acceptThreshold
    ensures Rejects(ln, run, cfg, p) <==> run != [] && Ratio(p, run) < cfg.rejectThreshold
  {
    RatioRelatesWeights(p, run);
    LogLrIsLogOfRatio(ln, p, run);
    LnComparesLikeArguments(ln, cfg.acceptThreshold, Ratio(p, run));
    LnComparesLikeArguments(ln, Ratio(p, run), cfg.rejectThreshold);
    LnComparesLikeArguments(ln, cfg.rejectThreshold, cfg.acceptThreshold);
  }

  /** Two histories with the same outcomes in any order get the same answer, confidence included. */
  lemma {:induction false} OrderIrrelevant(ln: real -> real, a: seq<PassObservation>, b: seq<PassObservation>, cfg: SprtConfig, p: real)
    requires multiset(a) == multiset(b)
    ensures RunSprt(ln, a, cfg, p) == RunSprt(ln, b, cfg, p)
  {
    CountsAreMultiplicities(a);
    CountsAreMultiplicities(b);
    assert |a| == |multiset(a)| == |multiset(b)| == |b|;
  }

  /* ---- Error guarantees ---- */

  type Rule = seq<PassObservation> -> bool

  /** The probability that `hit` holds of the run, over all runs that extend `pre` by n passes. */
  ghost function HitMass(p: real, hit: Rule, pre: seq<PassObservation>, n: nat): real
    decreases n
  {
    if n == 0 then if hit(pre) then Weight(p, pre) else 0.0
    else HitMass(p, hit, pre + [Success], n - 1) + HitMass(p, hit, pre + [Failure], n - 1)
  }

  ghost predicate HitsAtSomePrefix(stop: Rule, run: seq<PassObservation>) {
    exists k :: 0 <= k <= |run| && stop(run[..k])
  }

  lemma {:induction false} HitsOneMore(stop: Rule, run: seq<PassObservation>, o: PassObservation)
    ensures HitsAtSomePrefix(stop, run + [o]) ==> HitsAtSomePrefix(stop, run) || stop(run + [o])
  {
    if HitsAtSomePrefix(stop, run + [o]) {
      var k :| 0 <= k <= |run| + 1 && stop((run + [o])[..k]);
      if k <= |run| {
        assert (run + [o])[..k] == run[..k];
      } else {
        assert (run + [o])[..k] == run + [o];
      }
    }
  }

  /** Conservation: extending a run by one pass splits its probability. */
  lemma {:induction false} ChildrenShareWeight(p: real, pre: seq<PassObservation>)
    ensures Weight(p, pre + [Success]) + Weight(p, pre + [Failure]) == Weight(p, pre)
  {
    WeightOneMore(p, pre, Success);
    WeightOneMore(p, pre, Failure);
  }

  lemma {:induction false} MassAtMostWeight(p: real, hit: Rule, pre: seq<PassObservation>, n: nat)
    requires 0.0 < p < 1.0
    ensures HitMass(p, hit, pre, n) <= Weight(p, pre)
    decreases n
  {
    RatioRelatesWeights(p, pre);
    if n > 0 {
      MassAtMostWeight(p, hit, pre + [Success], n - 1);
      MassAtMostWeight(p, hit, pre + [Failure], n - 1);
      ChildrenShareWeight(p, pre);
    }
  }

  /** Wherever `stop` holds, a run is at least c times as likely under q as under p. */
  ghost predicate FavoursAtStop(p: real, q: real, c: real, stop: Rule) {
    forall run: seq<PassObservation> :: stop(run) ==> ScaledWithin(c, Weight(p, run), Weight(q, run))
  }

  ghost predicate NeedsStop(hit: Rule, stop: Rule) {
    forall run: seq<PassObservation> :: hit(run) ==> HitsAtSomePrefix(stop, run)
  }

  /** A rule that needs a stop has mass at most 1/c under p: the likelihood ratio is conserved
      in expectation, so it cannot reach c more often than once in c runs. */
  lemma {:induction false} StoppingBound(
      p: real, q: real, c: real, stop: Rule, hit: Rule, pre: seq<PassObservation>, n: nat)
    requires 0.0 < p < 1.0 && 0.0 < q < 1.0 && 0.0 < c
    requires FavoursAtStop(p, q, c, stop) && NeedsStop(hit, stop)
    requires HitsAtSomePrefix(stop, pre) ==> stop(pre)
    ensures ScaledWithin(c, HitMass(p, hit, pre, n), Weight(q, pre))
    decreases n
  {
    if stop(pre) {
      StoppedMass(p, q, c, hit, pre, n);
    } else if n == 0 {
      assert !hit(pre);
      NoMass(p, q, c, hit, pre);
    } else {
      HitsOneMore(stop, pre, Success);
      HitsOneMore(stop, pre, Failure);
      StoppingBound(p, q, c, stop, hit, pre + [Success], n - 1);
      StoppingBound(p, q, c, stop, hit, pre + [Failure], n - 1);
      ChildrenShareWeight(q, pre);
      ScaledSum(c, HitMass(p, hit, pre + [Success], n - 1), Weight(q, pre + [Success]),
                HitMass(p, hit, pre + [Failure], n - 1), Weight(q, pre + [Failure]));
    }
  }

  lemma {:induction false} StoppedMass(p: real, q: real, c: real, hit: Rule, pre: seq<PassObservation>, n: nat)
    requires 0.0 < p < 1.0 && 0.0 < c && ScaledWithin(c, Weight(p, pre), Weight(q, pre))
    ensures ScaledWithin(c, HitMass(p, hit, pre, n), Weight(q, pre))
  {
    MassAtMostWeight(p, hit, pre, n);
    ScaledBound(c, HitMass(p, hit, pre, n), Weight(p, pre));
  }

  lemma {:induction false} NoMass(p: real, q: real, c: real, hit: Rule, pre: seq<PassObservation>)
    requires 0.0 < q < 1.0 && !hit(pre)
    ensures ScaledWithin(c, HitMass(p, hit, pre, 0), Weight(q, pre))
  {
    assert HitMass(p, hit, pre, 0) == 0.0;
    RatioRelatesWeights(q, pre);
  }

  predicate ScaledWithin(c: real, x: real, y: real) {
    c * x <= y
  }

  lemma {:induction false} ScaledSum(c: real, x: real, y: real, x': real, y': real)
    requires ScaledWithin(c, x, y) && ScaledWithin(c, x', y')
    ensures ScaledWithin(c, x + x', y + y')
  {
    Distribute(c, x, x');
  }

  lemma {:induction false} ScaledBound(c: real, x: real, y: real)
    requires 0.0 < c && x <= y
    ensures c * x <= c * y
  {
  }

  lemma {:induction false} Distribute(c: real, x: real, y: real)
    ensures c * (x + y) == c * x + c * y
  {
  }

  /** Where the test accepts, the run is at least A times as likely under p as by chance; */
  lemma {:induction false} AcceptFavours(ln: real -> real, run: seq<PassObservation>, cfg: SprtConfig, p: real)
    requires IsLogarithm(ln) && ValidSprt(cfg, p) && Accepts(ln, run, cfg, p)
    ensures ScaledWithin(cfg.acceptThreshold, Weight(0.5, run), Weight(p, run))
  {
    assert Ratio(p, run) > cfg.acceptThreshold by {
      DecisionIsRatioTest(ln, run, cfg, p);
    }
    RatioRelatesWeights(p, run);
    RatioAbove(cfg.acceptThreshold, Ratio(p, run), Weight(p, run), Weight(0.5, run));
  }

  lemma {:induction false} RatioAbove(a: real, ratio: real, w: real, w0: real)
    requires IsRatio(ratio, w, w0) && a < ratio
    ensures ScaledWithin(a, w0, w)
  {
    ScaledRight(a, ratio, w0);
  }

  lemma {:induction false} RatioBelow(b: real, ratio: real, w: real, w0: real)
    requires IsRatio(ratio, w, w0) && 0.0 < b && ratio < b
    ensures ScaledWithin(1.0 / b, w, w0)
  {
    ScaledRight(ratio, b, w0);
    DivideThrough(b, w, w0);
  }

  /** where it rejects, it is at least 1/B times as likely by chance. */
  lemma {:induction false} RejectFavours(ln: real -> real, run: seq<PassObservation>, cfg: SprtConfig, p: real)
    requires IsLogarithm(ln) && ValidSprt(cfg, p) && Rejects(ln, run, cfg, p)
    ensures ScaledWithin(1.0 / cfg.rejectThreshold, Weight(p, run), Weight(0.5, run))
  {
    assert Ratio(p, run) < cfg.rejectThreshold by {
      DecisionIsRatioTest(ln, run, cfg, p);
    }
    RatioRelatesWeights(p, run);
    RatioBelow(cfg.rejectThreshold, Ratio(p, run), Weight(p, run), Weight(0.5, run));
  }

  /** Wald's first bound. Under pure chance, over runs of any length N, any rule that requires
      the test to have accepted at some point fires with probability at most 1/A. */
  lemma {:induction false} FalseAcceptBound(ln: real -> real, cfg: SprtConfig, p: real, hit: Rule, n: nat)
    requires IsLogarithm(ln) && ValidSprt(cfg, p)
    requires NeedsStop(hit, run => Accepts(ln, run, cfg, p))
    ensures HitMass(0.5, hit, [], n) <= 1.0 / cfg.acceptThreshold
  {
    var a, stop := cfg.acceptThreshold, (run: seq<PassObservation>) => Accepts(ln, run, cfg, p);
    forall run: seq<PassObservation> | stop(run) ensures ScaledWithin(a, Weight(0.5, run), Weight(p, run)) {
      AcceptFavours(ln, run, cfg, p);
    }
    StoppingBound(0.5, p, a, stop, hit, [], n);
    DivideBy(a, HitMass(0.5, hit, [], n));
  }

  /** Wald's second bound. If passes really succeed with probability minConfidence, any rule that
      requires the test to have rejected at some point fires with probability at most B. */
  lemma {:induction false} FalseRejectBound(ln: real -> real, cfg: SprtConfig, p: real, hit: Rule, n: nat)
    requires IsLogarithm(ln) && ValidSprt(cfg, p)
    requires NeedsStop(hit, run => Rejects(ln, run, cfg, p))
    ensures HitMass(p, hit, [], n) <= cfg.rejectThreshold
  {
    var b, stop := cfg.rejectThreshold, (run: seq<PassObservation>) => Rejects(ln, run, cfg, p);
    var c := 1.0 / b;
    forall run: seq<PassObservation> | stop(run) ensures ScaledWithin(c, Weight(p, run), Weight(0.5, run)) {
      RejectFavours(ln, run, cfg, p);
    }
    StoppingBound(p, 0.5, c, stop, hit, [], n);
    MultiplyThrough(b, HitMass(p, hit, [], n));
  }

  lemma {:induction false} ScaledRight(x: real, y: real, w: real)
    requires x <= y && 0.0 < w
    ensures x * w <= y * w
  {
  }

  lemma {:induction false} DivideBy(a: real, x: real)
    requires 0.0 < a && a * x <= 1.0
    ensures x <= 1.0 / a
  {
    assert (1.0 / a) * (a * x) == x;
    assert (1.0 / a) * (a * x) <= 1.0 / a;
  }

  lemma {:induction false} DivideThrough(b: real, x: real, y: real)
    requires 0.0 < b && x <= b * y
    ensures (1.0 / b) * x <= y
  {
    assert (1.0 / b) * (b * y) == y;
    ScaledBound(1.0 / b, x, b * y);
  }

  lemma {:induction false} MultiplyThrough(b: real, x: real)
    requires 0.0 < b && (1.0 / b) * x <= 1.0
    ensures x <= b
  {
    assert b * ((1.0 / b) * x) == x;
    ScaledBound(b, (1.0 / b) * x, 1.0);
  }

  /* ---- How evidence moves the decision ---- */

  /** From min_confidence = 1/2 upwards, one more success keeps an accept and one more failure
      keeps a reject. */
  lemma {:induction false} EvidenceNeverUndoes(ln: real -> real, run: seq<PassObservation>, cfg: SprtConfig, p: real)
    requires IsLogarithm(ln) && ValidSprt(cfg, p) && 0.5 <= p
    ensures Accepts(ln, run, cfg, p) ==> Accepts(ln, run + [Success], cfg, p)
    ensures Rejects(ln, run, cfg, p) ==> Rejects(ln, run + [Failure], cfg, p)
  {
    DecisionIsRatioTest(ln, run, cfg, p);
    DecisionIsRatioTest(ln, run + [Success], cfg, p);
    DecisionIsRatioTest(ln, run + [Failure], cfg, p);
    EvidenceMovesRatio(p, run);
  }

  lemma {:induction false} EvidenceMovesRatio(p: real, run: seq<PassObservation>)
    requires 0.5 <= p < 1.0
    ensures Ratio(p, run + [Success]) >= Ratio(p, run) >= Ratio(p, run + [Failure])
  {
    var r, up, down := Ratio(p, run), 2.0 * Chance(p, Success), 2.0 * Chance(p, Failure);
    assert Ratio(p, run + [Success]) == r * up by { WeightOneMore(p, run, Success); }
    assert Ratio(p, run + [Failure]) == r * down by { WeightOneMore(p, run, Failure); }
    assert 0.0 < r by { RatioRelatesWeights(p, run); }
    Stretch(r, up, down);
  }

  lemma {:induction false} Stretch(r: real, up: real, down: real)
    requires 0.0 < r && down <= 1.0 <= up
    ensures r * up >= r >= r * down
  {
    ScaledBound(r, 1.0, up);
    ScaledBound(r, down, 1.0);
  }

  ghost predicate SuccessKeepsAccepts(ln: real -> real, p: real) {
    forall run: seq<PassObservation>, cfg: SprtConfig ::
      ValidSprt(cfg, p) && Accepts(ln, run, cfg, p) ==> Accepts(ln, run + [Success], cfg, p)
  }

  /** min_confidence >= 1/2 is exactly what that needs: below 1/2 a failure is evidence for
      acceptance, and a following success takes it away. The code admits the whole of (0, 1). */
  lemma {:induction false} SuccessKeepsAcceptsExactlyFromHalf(ln: real -> real, p: real)
    requires IsLogarithm(ln) && 0.0 < p < 1.0
    ensures SuccessKeepsAccepts(ln, p) <==> 0.5 <= p
  {
    if 0.5 <= p {
      forall run: seq<PassObservation>, cfg: SprtConfig | ValidSprt(cfg, p) && Accepts(ln, run, cfg, p)
        ensures Accepts(ln, run + [Success], cfg, p)
      {
        EvidenceNeverUndoes(ln, run, cfg, p);
      }
    } else {
      var cfg, run := SprtConfig(1.0, 1.0, 1.0, 0.5), [] + [Failure];
      DecisionIsRatioTest(ln, run, cfg, p);
      DecisionIsRatioTest(ln, run + [Success], cfg, p);
      WeightOneMore(p, [], Failure);
      WeightOneMore(p, run, Success);
      BelowHalf(p);
      assert ValidSprt(cfg, p) && Accepts(ln, run, cfg, p) && !Accepts(ln, run + [Success], cfg, p);
    }
  }

  lemma {:induction false} BelowHalf(p: real)
    requires 0.0 < p < 0.5
    ensures (2.0 * (1.0 - p)) * (2.0 * p) <= 1.0
  {
    var d := 0.5 - p;
    assert (2.0 * (1.0 - p)) * (2.0 * p) == 1.0 - 4.0 * (d * d);
    assert 0.0 <= d * d;
  }

  function Straight(o: PassObservation, n: nat): (run: seq<PassObservation>)
    ensures |run| == n && (forall i :: 0 <= i < n ==> run[i] == o)
  {
    seq(n, _ => o)
  }

  lemma {:induction false} StraightOneMore(o: PassObservation, n: nat)
    ensures Straight(o, n + 1) == Straight(o, n) + [o]
  {
  }

  /** Bernoulli's inequality for a straight run: the ratio grows at least linearly. */
  lemma {:induction false} StraightSuccessRatio(p: real, n: nat)
    requires 0.5 < p < 1.0
    ensures GrowsLinearly(Ratio(p, Straight(Success, n)), n, 2.0 * p - 1.0)
  {
    if n > 0 {
      StraightSuccessRatio(p, n - 1);
      StraightOneMore(Success, n - 1);
      WeightOneMore(p, Straight(Success, n - 1), Success);
      Compound(Ratio(p, Straight(Success, n - 1)), n - 1, 2.0 * p - 1.0);
    } else {
      assert Straight(Success, n) == [];
    }
  }

  predicate GrowsLinearly(r: real, n: nat, d: real) {
    r >= 1.0 + n as real * d
  }

  lemma {:induction false} Compound(r: real, n: nat, d: real)
    requires 0.0 <= d && GrowsLinearly(r, n, d)
    ensures GrowsLinearly(r * (1.0 + d), n + 1, d)
  {
    var e := n as real * d;
    NonnegativeProduct(n as real, d);
    NonnegativeProduct(d, e);
    OneMoreTimes(n, d);
    Expand(d, e);
    ScaledBound(1.0 + d, 1.0 + e, r);
    Swap(r, 1.0 + d);
  }

  lemma {:induction false} NonnegativeProduct(x: real, y: real)
    requires 0.0 <= x && 0.0 <= y
    ensures 0.0 <= x * y
  {
  }

  lemma {:induction false} OneMoreTimes(n: nat, d: real)
    ensures (n + 1) as real * d == n as real * d + d
  {
  }

  lemma {:induction false} Expand(d: real, e: real)
    ensures (1.0 + d) * (1.0 + e) == 1.0 + e + d + d * e
  {
  }

  lemma {:induction false} Swap(x: real, y: real)
    ensures x * y == y * x
  {
  }

  /** Dually, n straight failures shrink the ratio at least as fast as 1 / (1 + n*e). */
  lemma {:induction false} StraightFailureRatio(p: real, n: nat, e: real)
    requires 0.5 < p < 1.0 && 0.0 <= e && 2.0 * (1.0 - p) * (1.0 + e) == 1.0
    ensures Decays(Ratio(p, Straight(Failure, n)), n, e)
  {
    if n > 0 {
      StraightFailureRatio(p, n - 1, e);
      StraightOneMore(Failure, n - 1);
      FailureDecays(p, Straight(Failure, n - 1), n - 1, e);
    } else {
      assert Straight(Failure, n) == [];
    }
  }

  lemma {:induction false} FailureDecays(p: real, run: seq<PassObservation>, n: nat, e: real)
    requires 0.5 < p < 1.0 && 0.0 <= e && 2.0 * (1.0 - p) * (1.0 + e) == 1.0 && Decays(Ratio(p, run), n, e)
    ensures Decays(Ratio(p, run + [Failure]), n + 1, e)
  {
    var c := 2.0 * Chance(p, Failure);
    assert c == 2.0 * (1.0 - p);
    Decay(Ratio(p, run), n, c, e);
    WeightOneMore(p, run, Failure);
  }

  predicate Decays(r: real, n: nat, e: real) {
    0.0 < r && r * (1.0 + n as real * e) <= 1.0
  }

  lemma {:induction false} Decay(r: real, n: nat, c: real, e: real)
    requires 0.0 < c && 0.0 <= e && c * (1.0 + e) == 1.0 && Decays(r, n, e)
    ensures Decays(r * c, n + 1, e)
  {
    var k := n as real;
    PositiveProduct(r, c);
    var rest := k * (e * e);
    assert 0.0 <= e * e && 0.0 <= rest;
    assert (1.0 + k * e) * (1.0 + e) == 1.0 + (k + 1.0) * e + rest;
    var rc := r * c;
    assert 0.0 < rc && 0.0 <= rc * rest;
    calc {
      rc * (1.0 + (k + 1.0) * e) + rc * rest;
      rc * ((1.0 + k * e) * (1.0 + e));
      (r * (1.0 + k * e)) * (c * (1.0 + e));
      r * (1.0 + k * e);
    }
  }

  /** More than (A - 1) / (2p - 1) straight successes force acceptance. */
  lemma {:induction false} StraightSuccessesAccept(ln: real -> real, cfg: SprtConfig, p: real, n: nat)
    requires IsLogarithm(ln) && ValidSprt(cfg, p) && 0.5 < p
    requires 0 < n && n as real * (2.0 * p - 1.0) > cfg.acceptThreshold - 1.0
    ensures Accepts(ln, Straight(Success, n), cfg, p)
  {
    StraightSuccessRatio(p, n);
    DecisionIsRatioTest(ln, Straight(Success, n), cfg, p);
  }

  /** More than (1/B - 1) * 2(1-p) / (2p - 1) straight failures force rejection. */
  lemma {:induction false} StraightFailuresReject(ln: real -> real, cfg: SprtConfig, p: real, n: nat)
    requires IsLogarithm(ln) && ValidSprt(cfg, p) && 0.5 < p
    requires 0 < n
    requires n as real * ((2.0 * p - 1.0) / (2.0 * (1.0 - p))) > 1.0 / cfg.rejectThreshold - 1.0
    ensures Rejects(ln, Straight(Failure, n), cfg, p)
  {
    var e, b, run := (2.0 * p - 1.0) / (2.0 * (1.0 - p)), cfg.rejectThreshold, Straight(Failure, n);
    var c := 2.0 * (1.0 - p);
    assert c * e == 2.0 * p - 1.0;
    assert c * (1.0 + e) == c + c * e == 1.0;
    StraightFailureRatio(p, n, e);
    BelowThreshold(Ratio(p, run), 1.0 + n as real * e, b);
    DecisionIsRatioTest(ln, run, cfg, p);
  }

  lemma {:induction false} BelowThreshold(r: real, g: real, b: real)
    requires 0.0 < r && 0.0 < b && r * g <= 1.0 && 1.0 / b < g
    ensures r < b
  {
    assert b * (1.0 / b) == 1.0;
    assert 0.0 < b * (g - 1.0 / b) == b * g - 1.0;
    assert (b - r) * g == b * g - r * g;
  }
}
