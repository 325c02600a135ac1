/** Verification entropy convergence: stop when one more pass would barely change the entropy of
    the Beta posterior. */
module VerificationEntropy {
  import opened Common
  import opened AdaptiveTypes
  import opened Logarithm

  const PRIOR_ALPHA: real := 1.0
  const PRIOR_BETA: real := 1.0
  const PI: real := 3.14159265358979323846264338327950288

  datatype VecConfig = VecConfig(entropyFloor: real)

  /* ---- Digamma and log-gamma ---- */

  function DigammaSeries(ln: real -> real, y: real): real
    requires 0.0 < y
  {
    var inv := 1.0 / y;
    var inv2 := inv * inv;
    var inv4 := inv2 * inv2;
    var inv6 := inv4 * inv2;
    ln(y) - 0.5 * inv - inv2 / 12.0 + inv4 / 120.0 - inv6 / 252.0
  }

  /** Digamma: the recurrence below 6, the asymptotic series from 6 on. */
  function Digamma(ln: real -> real, x: real): real
    requires 0.0 < x
    decreases 6.0 - x
  {
    if x < 6.0 then Digamma(ln, x + 1.0) - 1.0 / x else DigammaSeries(ln, x)
  }

  method ComputeDigamma(ln: real -> real, x: real) returns (r: real)
    requires 0.0 < x
    ensures r == Digamma(ln, x)
  {
    var y, shift := x, 0.0;
    while y < 6.0
      invariant x <= y
      invariant Digamma(ln, y) + shift == Digamma(ln, x)
      decreases 6.0 - y
    {
      shift := shift - 1.0 / y;
      y := y + 1.0;
    }
    r := DigammaSeries(ln, y) + shift;
  }

  function LnGammaSeries(ln: real -> real, y: real): real
    requires 0.0 < y
  {
    var inv := 1.0 / y;
    var inv2 := inv * inv;
    var inv3 := inv * inv2;
    var inv5 := inv3 * inv2;
    (y - 0.5) * ln(y) - y + 0.5 * ln(2.0 * PI) + inv / 12.0 - inv3 / 360.0 + inv5 / 1260.0
  }

  /** Log-gamma: the recurrence below 7, Stirling's series from 7 on. */
  function LnGamma(ln: real -> real, x: real): real
    requires 0.0 < x
    decreases 7.0 - x
  {
    if x < 7.0 then LnGamma(ln, x + 1.0) - ln(x) else LnGammaSeries(ln, x)
  }

  method ComputeLnGamma(ln: real -> real, x: real) returns (r: real)
    requires 0.0 < x
    ensures r == LnGamma(ln, x)
  {
    var y, shift := x, 0.0;
    while y < 7.0
      invariant x <= y
      invariant LnGamma(ln, y) + shift == LnGamma(ln, x)
      decreases 7.0 - y
    {
      shift := shift - ln(y);
      y := y + 1.0;
    }
    r := LnGammaSeries(ln, y) + shift;
  }

  /* ---- Where the coefficients come from ---- */

  /** The Bernoulli number with index 2k, up to 6. */
  function Bernoulli(k: nat): real
    requires 1 <= k <= 3
  {
    if k == 1 then 1.0 / 6.0 else if k == 2 then -1.0 / 30.0 else 1.0 / 42.0
  }

  /** They solve the equations that define them: for n = 2, 4 and 6 the sum of the first n numbers and B(n), each times
      its binomial coefficient of n + 1, is zero. */
  lemma {:induction false} BernoulliEquations()
    ensures 1.0 - 3.0 / 2.0 + 3.0 * Bernoulli(1) == 0.0
    ensures 1.0 - 5.0 / 2.0 + 10.0 * Bernoulli(1) + 5.0 * Bernoulli(2) == 0.0
    ensures 1.0 - 7.0 / 2.0 + 21.0 * Bernoulli(1) + 35.0 * Bernoulli(2) + 7.0 * Bernoulli(3) == 0.0
  {
  }

  function Power(y: real, n: nat): (p: real)
    ensures 0.0 < y ==> 0.0 < p
  {
    if n == 0 then 1.0 else Power(y, n - 1) * y
  }

  /** One over a power of y is that power of one over y. */
  lemma {:induction false} PowerOfInverse(y: real, n: nat)
    requires 0.0 < y
    ensures Power(1.0 / y, n) == 1.0 / Power(y, n)
  {
    if n > 0 {
      PowerOfInverse(y, n - 1);
      InverseOfProduct(Power(y, n - 1), y);
    }
  }

  lemma {:induction false} InverseOfProduct(a: real, b: real)
    requires 0.0 < a && 0.0 < b
    ensures (1.0 / a) * (1.0 / b) == 1.0 / (a * b)
  {
    var x, y := 1.0 / a, 1.0 / b;
    assert x * a == 1.0 && y * b == 1.0;
    assert (x * y) * (a * b) == (x * a) * (y * b);
    UniqueInverse(a * b, x * y);
  }

  lemma {:induction false} UniqueInverse(c: real, z: real)
    requires 0.0 < c && z * c == 1.0
    ensures z == 1.0 / c
  {
    var w := 1.0 / c;
    assert w * c == 1.0;
    assert (z - w) * c == 0.0;
  }

  lemma {:induction false} PowersByHand(x: real)
    ensures var x2 := x * x; var x3 := x * x2; var x4 := x2 * x2; var x5 := x3 * x2; var x6 := x4 * x2;
            && Power(x, 1) == x && Power(x, 2) == x2 && Power(x, 3) == x3
            && Power(x, 4) == x4 && Power(x, 5) == x5 && Power(x, 6) == x6
  {
    var x2 := x * x;
    assert Power(x, 2) == x2 && Power(x, 3) == x2 * x;
    assert Power(x, 4) == (x2 * x) * x == x2 * x2;
    assert Power(x, 5) == (x2 * x2) * x == (x * x2) * x2;
    assert Power(x, 6) == ((x2 * x2) * x) * x == (x2 * x2) * x2;
  }

  /** The k-th term of the expansion of digamma, B(2k) / (2k y^2k), */
  function DigammaTerm(y: real, k: nat): real
    requires 0.0 < y && 1 <= k <= 3
  {
    Bernoulli(k) / (2 * k) as real * (1.0 / Power(y, 2 * k))
  }

  /** and of log-gamma, B(2k) / (2k (2k - 1) y^(2k-1)). */
  function LnGammaTerm(y: real, k: nat): real
    requires 0.0 < y && 1 <= k <= 3
  {
    Bernoulli(k) / (2 * k * (2 * k - 1)) as real * (1.0 / Power(y, 2 * k - 1))
  }

  /** From 6 on digamma is the asymptotic expansion of the literature, cut after its third Bernoulli term; */
  lemma {:induction false} DigammaIsExpansion(ln: real -> real, y: real)
    requires 6.0 <= y
    ensures Digamma(ln, y) == ln(y) - 1.0 / (2.0 * y) - (DigammaTerm(y, 1) + DigammaTerm(y, 2) + DigammaTerm(y, 3))
  {
    PowersByHand(1.0 / y);
    PowerOfInverse(y, 2);
    PowerOfInverse(y, 4);
    PowerOfInverse(y, 6);
    InverseOfProduct(2.0, y);
    assert DigammaTerm(y, 1) == Power(1.0 / y, 2) / 12.0;
    assert DigammaTerm(y, 2) == -Power(1.0 / y, 4) / 120.0;
    assert DigammaTerm(y, 3) == Power(1.0 / y, 6) / 252.0;
  }

  /** and from 7 on log-gamma is Stirling's series, cut likewise. */
  lemma {:induction false} LnGammaIsExpansion(ln: real -> real, y: real)
    requires 7.0 <= y
    ensures LnGamma(ln, y) == (y - 0.5) * ln(y) - y + 0.5 * ln(2.0 * PI)
                              + (LnGammaTerm(y, 1) + LnGammaTerm(y, 2) + LnGammaTerm(y, 3))
  {
    StirlingTerms(y);
    assert LnGamma(ln, y) == LnGammaSeries(ln, y);
  }

  lemma {:induction false} StirlingTerms(y: real)
    requires 0.0 < y
    ensures var inv := 1.0 / y;
            var inv2 := inv * inv; var inv3 := inv * inv2; var inv5 := inv3 * inv2;
            && LnGammaTerm(y, 1) == inv / 12.0 && LnGammaTerm(y, 2) == -inv3 / 360.0 && LnGammaTerm(y, 3) == inv5 / 1260.0
  {
    PowersByHand(1.0 / y);
    PowerOfInverse(y, 1);
    PowerOfInverse(y, 3);
    PowerOfInverse(y, 5);
  }

  /* ---- The posterior's entropy ---- */

  function BetaEntropyNats(ln: real -> real, alpha: real, beta: real): real
    requires 0.0 < alpha && 0.0 < beta
  {
    var lnB := LnGamma(ln, alpha) + LnGamma(ln, beta) - LnGamma(ln, alpha + beta);
    EntropyFormula(lnB, alpha, beta, Digamma(ln, alpha), Digamma(ln, beta), Digamma(ln, alpha + beta))
  }

  function EntropyFormula(lnB: real, alpha: real, beta: real, psiA: real, psiB: real, psiSum: real): real {
    lnB - (alpha - 1.0) * psiA - (beta - 1.0) * psiB + (alpha + beta - 2.0) * psiSum
  }

  function BetaEntropyBits(ln: real -> real, alpha: real, beta: real): real
    requires 0.0 < alpha && 0.0 < beta && ln(2.0) != 0.0
  {
    BetaEntropyNats(ln, alpha, beta) / ln(2.0)
  }

  function Distance(x: real, y: real): real {
    if x < y then y - x else x - y
  }

  function RunVec(ln: real -> real, passes: seq<PassObservation>, cfg: VecConfig)
    : (r: Result<HaltDecision, AdaptiveError>)
    requires ln(2.0) != 0.0
    ensures r.Ok? <==> 0.0 < cfg.entropyFloor
    ensures r.Ok? ==> r.value.confidence <= CONFIDENCE_CEILING && (r.value.halt <==> r.value.reason.Some?)
    ensures r.Ok? && r.value.halt ==> r.value.reason == Some(VecEntropy) && 2 <= |passes|
  {
    if cfg.entropyFloor <= 0.0 then Err(InvalidEntropyFloor(cfg.entropyFloor))
    else
      var (sN, fN) := CountOutcomes(passes);
      var alphaN, betaN := PRIOR_ALPHA + sN as real, PRIOR_BETA + fN as real;
      var confidence := CapConfidence(alphaN / (alphaN + betaN));
      if |passes| < 2 then Ok(HaltDecision(false, None, confidence))
      else
        var (sPrev, fPrev) := match passes[|passes| - 1]
          case Success => (sN - 1, fN)
          case Failure => (sN, fN - 1);
        var alphaPrev, betaPrev := PRIOR_ALPHA + sPrev as real, PRIOR_BETA + fPrev as real;
        var deltaH := Distance(BetaEntropyBits(ln, alphaN, betaN), BetaEntropyBits(ln, alphaPrev, betaPrev));
        if deltaH < cfg.entropyFloor then Ok(HaltDecision(true, Some(VecEntropy), confidence))
        else Ok(HaltDecision(false, None, confidence))
  }

  /* ---- What the decision compares ---- */

  /** The posterior entropy, in bits, after a whole history. */
  function PosteriorEntropy(ln: real -> real, passes: seq<PassObservation>): real
    requires ln(2.0) != 0.0
  {
    PosteriorNats(ln, passes) / ln(2.0)
  }

  function PosteriorNats(ln: real -> real, passes: seq<PassObservation>): real {
    var (s, f) := CountOutcomes(passes);
    NatsAt(ln, s, f)
  }

  function NatsAt(ln: real -> real, successes: nat, failures: nat): real {
    BetaEntropyNats(ln, PRIOR_ALPHA + successes as real, PRIOR_BETA + failures as real)
  }

  predicate VecHalts(ln: real -> real, passes: seq<PassObservation>, cfg: VecConfig)
    requires ln(2.0) != 0.0
  {
    var r := RunVec(ln, passes, cfg);
    r.Ok? && r.value.halt
  }

  /** Rolling back the counts is the same as forgetting the last pass: the run halts exactly when that pass has
      moved the entropy, up or down, by less than the floor. */
  lemma {:induction false} RollbackForgetsLastPass(ln: real -> real, passes: seq<PassObservation>, cfg: VecConfig)
    requires ln(2.0) != 0.0 && 2 <= |passes| && 0.0 < cfg.entropyFloor
    ensures VecHalts(ln, passes, cfg) <==>
            -cfg.entropyFloor < PosteriorEntropy(ln, passes) - PosteriorEntropy(ln, passes[..|passes| - 1])
                              < cfg.entropyFloor
  {
  }

  /* ---- The exact change of entropy on a success ---- */

  /** Below the series thresholds the change is a closed form in ln and digamma only. */
  lemma {:induction false} EntropyStep(ln: real -> real, alpha: real, beta: real)
    requires 0.0 < alpha && 0.0 < beta && alpha + beta < 6.0
    ensures BetaEntropyNats(ln, alpha + 1.0, beta) - BetaEntropyNats(ln, alpha, beta)
         == ln(alpha) - ln(alpha + beta) + Digamma(ln, alpha + beta) - Digamma(ln, alpha) - 1.0 / (alpha + beta)
  {
    var s := alpha + beta;
    assert alpha + 1.0 + beta == s + 1.0;
    var lnB := LnGamma(ln, alpha) + LnGamma(ln, beta) - LnGamma(ln, s);
    assert LnGamma(ln, alpha + 1.0) == LnGamma(ln, alpha) + ln(alpha);
    assert LnGamma(ln, s + 1.0) == LnGamma(ln, s) + ln(s);
    FormulaStep(lnB, lnB + ln(alpha) - ln(s), alpha, beta, Digamma(ln, alpha), Digamma(ln, alpha + 1.0),
                Digamma(ln, beta), Digamma(ln, s), Digamma(ln, s + 1.0));
  }

  lemma {:induction false} FormulaStep(lnB: real, lnB': real, alpha: real, beta: real, psiA: real, psiA': real, psiB: real, psiS: real, psiS': real)
    requires 0.0 < alpha && 0.0 < beta
    requires psiA' == psiA + 1.0 / alpha && psiS' == psiS + 1.0 / (alpha + beta)
    ensures EntropyFormula(lnB', alpha + 1.0, beta, psiA', psiB, psiS') - EntropyFormula(lnB, alpha, beta, psiA, psiB, psiS)
         == lnB' - lnB + psiS - psiA - 1.0 / (alpha + beta)
  {
    var s := alpha + beta;
    WeightedShift(alpha, psiA', psiA, 1.0);
    WeightedShift(s, psiS', psiS, 2.0);
  }

  lemma {:induction false} WeightedShift(x: real, next: real, here: real, c: real)
    requires 0.0 < x && next == here + 1.0 / x
    ensures (x + 1.0 - c) * next - (x - c) * here == here + 1.0 + (1.0 - c) / x
  {
    var inv := 1.0 / x;
    assert x * inv == 1.0;
    assert (1.0 - c) / x == (1.0 - c) * inv;
    calc {
      (x + 1.0 - c) * next - (x - c) * here;
      (x + 1.0 - c) * (here + inv) - (x - c) * here;
      here + x * inv + (1.0 - c) * inv;
    }
  }

  lemma {:induction false} EntropyIsSymmetric(ln: real -> real, alpha: real, beta: real)
    requires 0.0 < alpha && 0.0 < beta
    ensures BetaEntropyNats(ln, alpha, beta) == BetaEntropyNats(ln, beta, alpha)
  {
    assert alpha + beta == beta + alpha;
  }

  /** 1/m + 1/(m+1) + ... + 1/(n-1). */
  function Harmonic(m: nat, n: nat): real
    requires 0 < m <= n
  {
    if m == n then 0.0 else Harmonic(m, n - 1) + 1.0 / (n - 1) as real
  }

  /** At whole numbers up to 6 the truncated series cancels out of every digamma difference. */
  lemma {:induction false} DigammaDifference(ln: real -> real, m: nat, n: nat)
    requires 0 < m <= n <= 6
    ensures Digamma(ln, n as real) - Digamma(ln, m as real) == Harmonic(m, n)
  {
    if m < n {
      DigammaDifference(ln, m, n - 1);
      assert (n - 1) as real + 1.0 == n as real;
    }
  }

  /** The change of entropy, in nats, when an outcome already seen `seen` times among `before`
      passes is seen once more. */
  function EntropyChange(ln: real -> real, seen: nat, before: nat): real
    requires seen <= before
  {
    var s := before + 2;
    ln((1 + seen) as real) - ln(s as real) + Harmonic(1 + seen, s) - 1.0 / s as real
  }

  function Count(o: PassObservation, passes: seq<PassObservation>): (n: nat)
    ensures n <= |passes|
  {
    var (s, f) := CountOutcomes(passes);
    if o.Success? then s else f
  }

  /** On runs of two to four passes the decision involves no series at all: it is the closed form. */
  lemma {:induction false} ShortRunDecision(ln: real -> real, passes: seq<PassObservation>, cfg: VecConfig)
    requires IsLogarithm(ln) && 2 <= |passes| <= 4 && 0.0 < cfg.entropyFloor
    ensures ln(2.0) != 0.0
    ensures var front := passes[..|passes| - 1];
            VecHalts(ln, passes, cfg) <==>
            -cfg.entropyFloor < EntropyChange(ln, Count(passes[|passes| - 1], front), |front|) / ln(2.0) < cfg.entropyFloor
  {
    LnOne(ln);
    LnComparesLikeArguments(ln, 1.0, 2.0);
    var front, o := passes[..|passes| - 1], passes[|passes| - 1];
    RollbackForgetsLastPass(ln, passes, cfg);
    assert passes == front + [o];
    OneMorePass(ln, front, o);
    SplitQuotient(PosteriorNats(ln, passes), PosteriorNats(ln, front), ln(2.0));
  }

  lemma {:induction false} OneMorePass(ln: real -> real, front: seq<PassObservation>, o: PassObservation)
    requires |front| <= 3
    ensures PosteriorNats(ln, front + [o]) == PosteriorNats(ln, front) + EntropyChange(ln, Count(o, front), |front|)
  {
    CountOneMore(front, o);
    var (s, f) := CountOutcomes(front);
    if o.Success? {
      SuccessStep(ln, s, f);
    } else {
      FailureStep(ln, s, f);
    }
  }

  lemma {:induction false} SuccessStep(ln: real -> real, s: nat, f: nat)
    requires s + f <= 3
    ensures NatsAt(ln, s + 1, f) == NatsAt(ln, s, f) + EntropyChange(ln, s, s + f)
  {
    var alpha, beta, n := 1.0 + s as real, 1.0 + f as real, s + f + 2;
    assert PRIOR_ALPHA + (s + 1) as real == alpha + 1.0;
    EntropyStep(ln, alpha, beta);
    DigammaDifference(ln, 1 + s, n);
    assert alpha == (1 + s) as real && alpha + beta == n as real;
  }

  lemma {:induction false} FailureStep(ln: real -> real, s: nat, f: nat)
    requires s + f <= 3
    ensures NatsAt(ln, s, f + 1) == NatsAt(ln, s, f) + EntropyChange(ln, f, s + f)
  {
    SuccessStep(ln, f, s);
    EntropyIsSymmetric(ln, PRIOR_ALPHA + s as real, PRIOR_BETA + f as real);
    EntropyIsSymmetric(ln, PRIOR_ALPHA + s as real, PRIOR_BETA + (f + 1) as real);
  }

  lemma {:induction false} SplitQuotient(x: real, y: real, d: real)
    requires 0.0 < d
    ensures x / d - y / d == (x - y) / d
  {
  }
}
