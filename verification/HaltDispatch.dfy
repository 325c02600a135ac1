/** The halt dispatcher: budget first, then the pass limit, then the configured algorithm. */
module HaltDispatch {
  import opened Common
  import opened AdaptiveTypes
  import opened CostProjector
  import opened Logarithm
  import opened Sprt
  import opened VerificationEntropy

  datatype AdaptiveAlgo = BayesianSprt | Adts | Vec | NoAlgo

  datatype HaltConfig = HaltConfig(
    algo: AdaptiveAlgo, sprt: SprtConfig, vec: VecConfig, minConfidence: real, maxPasses: u32, budgetUsd: real)

  function PosteriorMeanCapped(passes: seq<PassObservation>): (c: real)
    ensures c <= CONFIDENCE_CEILING
  {
    var (s, f) := CountOutcomes(passes);
    var alpha, beta := 1.0 + s as real, 1.0 + f as real;
    CapConfidence(alpha / (alpha + beta))
  }

  function ColdStartSeed(cfg: HaltConfig): (seed: real)
    requires 0 < cfg.maxPasses
    ensures seed * cfg.maxPasses as real == cfg.budgetUsd
  {
    cfg.budgetUsd / cfg.maxPasses as real
  }

  /** Whether the projected cost of one more call still fits; a zero budget enforces nothing. */
  predicate FitsBudget(cfg: HaltConfig, accumulated: real, stats: Stats)
    requires 0 < cfg.maxPasses
  {
    cfg.budgetUsd > 0.0 ==> accumulated + ProjectNext(stats, ColdStartSeed(cfg)) <= cfg.budgetUsd
  }

  function DecideHalt(ln: real -> real, cfg: HaltConfig, passes: seq<PassObservation>, accumulated: real, stats: Stats)
    : (r: Result<HaltDecision, AdaptiveError>)
    requires ln(2.0) != 0.0
    ensures r.Ok? ==> r.value.confidence <= CONFIDENCE_CEILING && (r.value.halt <==> r.value.reason.Some?)
  {
    if cfg.maxPasses == 0 then Err(InvalidMaxPasses)
    else if cfg.budgetUsd < 0.0 then Err(InvalidBudget(cfg.budgetUsd))
    else
      var confidence := PosteriorMeanCapped(passes);
      if cfg.budgetUsd > 0.0 && accumulated + ProjectNext(stats, ColdStartSeed(cfg)) > cfg.budgetUsd then
        Ok(HaltDecision(true, Some(Budget), confidence))
      else if |passes| % 0x1_0000_0000 >= cfg.maxPasses then
        Ok(HaltDecision(true, Some(MaxPasses), confidence))
      else
        match cfg.algo
        case BayesianSprt => RunSprt(ln, passes, cfg.sprt, cfg.minConfidence)
        case Vec => RunVec(ln, passes, cfg.vec)
        case Adts => Ok(HaltDecision(false, None, confidence))
        case NoAlgo => Ok(HaltDecision(false, None, confidence))
  }

  /** No algorithm can talk past the budget or the pass limit, and the two reasons mean exactly
      their guards. */
  lemma {:induction false} GuardsComeFirst(ln: real -> real, cfg: HaltConfig, passes: seq<PassObservation>, accumulated: real, stats: Stats)
    requires ln(2.0) != 0.0 && 0 < cfg.maxPasses && 0.0 <= cfg.budgetUsd && |passes| <= U32_MAX
    ensures var r := DecideHalt(ln, cfg, passes, accumulated, stats);
            && (r.Ok? && r.value.reason == Some(Budget) <==> !FitsBudget(cfg, accumulated, stats))
            && (r.Ok? && r.value.reason == Some(MaxPasses) <==>
                FitsBudget(cfg, accumulated, stats) && cfg.maxPasses <= |passes|)
            && (r.Ok? && r.value.reason == Some(SprtConfidenceReached) ==>
                Accepts(ln, passes, cfg.sprt, cfg.minConfidence))
            && (r.Ok? && r.value.reason == Some(SprtRejected) ==>
                Rejects(ln, passes, cfg.sprt, cfg.minConfidence))
            && !(r.Ok? && r.value.reason == Some(AdtsEscalationExhausted))
  {
  }

  /** The configurations that no halt rule finds fault with. */
  predicate ValidConfig(cfg: HaltConfig) {
    && 0 < cfg.maxPasses && 0.0 <= cfg.budgetUsd
    && (cfg.algo == BayesianSprt ==> ValidSprt(cfg.sprt, cfg.minConfidence))
    && (cfg.algo == Vec ==> 0.0 < cfg.vec.entropyFloor)
  }

  /** Neither the budget nor the pass limit stops the run. */
  predicate WithinLimits(cfg: HaltConfig, passes: seq<PassObservation>, accumulated: real, stats: Stats)
    requires 0 < cfg.maxPasses
  {
    FitsBudget(cfg, accumulated, stats) && |passes| < cfg.maxPasses
  }

  /** What each reason stands for: one more call would not fit the budget; the passes are used up; the likelihood
      ratio has crossed a threshold; the last pass has moved the entropy by less than the floor. */
  predicate Warrants(
    ln: real -> real, cfg: HaltConfig, passes: seq<PassObservation>, accumulated: real, stats: Stats, reason: HaltReason)
    requires 0 < cfg.maxPasses && ln(2.0) != 0.0
  {
    match reason
    case Budget => !FitsBudget(cfg, accumulated, stats)
    case MaxPasses => FitsBudget(cfg, accumulated, stats) && |passes| >= cfg.maxPasses
    case SprtConfidenceReached =>
      WithinLimits(cfg, passes, accumulated, stats) && cfg.algo == BayesianSprt
      && passes != [] && Ratio(cfg.minConfidence, passes) > cfg.sprt.acceptThreshold
    case SprtRejected =>
      WithinLimits(cfg, passes, accumulated, stats) && cfg.algo == BayesianSprt
      && passes != [] && Ratio(cfg.minConfidence, passes) < cfg.sprt.rejectThreshold
    case VecEntropy =>
      WithinLimits(cfg, passes, accumulated, stats) && cfg.algo == Vec && 2 <= |passes|
      && -cfg.vec.entropyFloor < PosteriorEntropy(ln, passes) - PosteriorEntropy(ln, passes[..|passes| - 1])
                               < cfg.vec.entropyFloor
    case AdtsEscalationExhausted => false
  }

  /** The confidence that goes with a reason, or with none: the SPRT's own prior in its own decisions, else the
      uniform one. */
  predicate ConfidenceFits(cfg: HaltConfig, passes: seq<PassObservation>, reason: Option<HaltReason>, c: real)
    requires ValidConfig(cfg)
  {
    if cfg.algo == BayesianSprt && reason != Some(Budget) && reason != Some(MaxPasses)
    then IsConfidence(c, cfg.sprt.priorAlpha, cfg.sprt.priorBeta, passes)
    else IsConfidence(c, 1.0, 1.0, passes)
  }

  /** Under a valid configuration each reason is given exactly when it is warranted. */
  lemma {:induction false} DecidesExactly(
      ln: real -> real, cfg: HaltConfig, passes: seq<PassObservation>, accumulated: real, stats: Stats, reason: HaltReason)
    requires IsLogarithm(ln) && ln(2.0) != 0.0 && ValidConfig(cfg) && |passes| <= U32_MAX
    ensures var r := DecideHalt(ln, cfg, passes, accumulated, stats);
            && r.Ok? && (r.value.halt <==> r.value.reason.Some?)
            && (r.value.reason == Some(reason) <==> Warrants(ln, cfg, passes, accumulated, stats, reason))
            && ConfidenceFits(cfg, passes, r.value.reason, r.value.confidence)
  {
    CountsGiveConfidence(1.0, 1.0, passes);
    if cfg.algo == BayesianSprt {
      CountsGiveConfidence(cfg.sprt.priorAlpha, cfg.sprt.priorBeta, passes);
      DecisionIsRatioTest(ln, passes, cfg.sprt, cfg.minConfidence);
    } else if cfg.algo == Vec && 2 <= |passes| {
      RollbackForgetsLastPass(ln, passes, cfg.vec);
    }
  }

  /** A faulty configuration is reported before the first pass, the pass limit first, then the budget, then the
      parameters of the algorithm. */
  lemma {:induction false} FaultsReported(ln: real -> real, cfg: HaltConfig)
    requires ln(2.0) != 0.0
    ensures var r := DecideHalt(ln, cfg, [], 0.0, NO_COSTS);
            && (r.Err? <==> !ValidConfig(cfg))
            && (cfg.maxPasses == 0 ==> r == Err(InvalidMaxPasses))
            && (cfg.maxPasses > 0 && cfg.budgetUsd < 0.0 ==> r == Err(InvalidBudget(cfg.budgetUsd)))
            && (r.Err? && cfg.maxPasses > 0 && cfg.budgetUsd >= 0.0 && cfg.algo == Vec ==>
                  r.error == InvalidEntropyFloor(cfg.vec.entropyFloor))
            && (r.Err? && cfg.maxPasses > 0 && cfg.budgetUsd >= 0.0 && cfg.algo == BayesianSprt ==>
                  r.error == SprtFault(cfg.sprt, cfg.minConfidence))
  {
    if 0 < cfg.maxPasses {
      FirstPassAlwaysFits(cfg);
    }
  }

  /** What is wrong with the parameters of the SPRT: the confidence, then the thresholds, then the prior. */
  function SprtFault(cfg: SprtConfig, minConfidence: real): AdaptiveError {
    if minConfidence <= 0.0 || 1.0 <= minConfidence then InvalidConfidence(minConfidence)
    else if !(0.0 < cfg.rejectThreshold < cfg.acceptThreshold) then
      InvalidSprtThresholds(cfg.acceptThreshold, cfg.rejectThreshold)
    else InvalidSprtPrior(cfg.priorAlpha, cfg.priorBeta)
  }

  /** The cold-start seed is one share of the budget, so it can never block the first pass. */
  lemma {:induction false} FirstPassAlwaysFits(cfg: HaltConfig)
    requires 0 < cfg.maxPasses
    ensures ProjectNext(NO_COSTS, ColdStartSeed(cfg)) * cfg.maxPasses as real == cfg.budgetUsd
    ensures FitsBudget(cfg, 0.0, NO_COSTS)
  {
    if cfg.budgetUsd > 0.0 {
      ShareIsNoMore(cfg.budgetUsd, cfg.maxPasses as real);
    }
  }

  lemma {:induction false} ShareIsNoMore(whole: real, parts: real)
    requires 0.0 < whole && 1.0 <= parts
    ensures whole / parts <= whole
  {
    var share := whole / parts;
    assert parts * share == whole;
    assert 0.0 < share;
    assert (parts - 1.0) * share >= 0.0;
  }
}
