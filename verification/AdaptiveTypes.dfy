/** Observations, halt decisions and errors shared by the adaptive algorithms. */
module AdaptiveTypes {
  import opened Common

  datatype PassObservation = Success | Failure

  datatype HaltReason =
    | SprtConfidenceReached
    | SprtRejected
    | VecEntropy
    | AdtsEscalationExhausted
    | Budget
    | MaxPasses

  datatype HaltDecision = HaltDecision(halt: bool, reason: Option<HaltReason>, confidence: real)

  datatype AdaptiveError =
    | InvalidConfidence(value: real)
    | InvalidSprtThresholds(accept: real, reject: real)
    | InvalidSprtPrior(alpha: real, beta: real)
    | InvalidEntropyFloor(floor: real)
    | InvalidDivergenceThreshold(threshold: real)
    | InvalidAdtsScore(claude: real, codex: real)
    | InvalidCost(cost: real)
    | InvalidMaxPasses
    | InvalidBudget(budget: real)

  const CONFIDENCE_CEILING: real := 0.966

  function CapConfidence(raw: real): (c: real)
    ensures c <= CONFIDENCE_CEILING && c <= raw && (c == raw || c == CONFIDENCE_CEILING)
  {
    if raw < CONFIDENCE_CEILING then raw else CONFIDENCE_CEILING
  }

  /** The (successes, failures) fold over a pass history. */
  function CountOutcomes(passes: seq<PassObservation>): (counts: (nat, nat))
    ensures counts.0 + counts.1 == |passes|
  {
    if passes == [] then (0, 0)
    else
      var (s, f) := CountOutcomes(passes[..|passes| - 1]);
      match passes[|passes| - 1]
      case Success => (s + 1, f)
      case Failure => (s, f + 1)
  }

  /** The fold counts occurrences, so it cannot see the order of the passes. */
  lemma {:induction false} CountsAreMultiplicities(passes: seq<PassObservation>)
    ensures CountOutcomes(passes) == (multiset(passes)[Success], multiset(passes)[Failure])
  {
    if passes != [] {
      var front := passes[..|passes| - 1];
      CountsAreMultiplicities(front);
      assert passes == front + [passes[|passes| - 1]];
    }
  }

  /** The mean of the posterior that a Beta(alpha, beta) prior becomes by these outcomes. */
  function PosteriorMean(alpha: real, beta: real, passes: seq<PassObservation>): real
    requires 0.0 < alpha && 0.0 < beta
  {
    (alpha + multiset(passes)[Success] as real) / (alpha + beta + |passes| as real)
  }

  /** c is that mean, and no more than 0.966. */
  predicate IsConfidence(c: real, alpha: real, beta: real, passes: seq<PassObservation>)
    requires 0.0 < alpha && 0.0 < beta
  {
    c == if PosteriorMean(alpha, beta, passes) <= 0.966 then PosteriorMean(alpha, beta, passes) else 0.966
  }

  lemma {:induction false} CountsGiveConfidence(alpha: real, beta: real, passes: seq<PassObservation>)
    requires 0.0 < alpha && 0.0 < beta
    ensures var (s, f) := CountOutcomes(passes);
            IsConfidence(CapConfidence((alpha + s as real) / (alpha + s as real + (beta + f as real))), alpha, beta, passes)
  {
    CountsAreMultiplicities(passes);
    var (s, f) := CountOutcomes(passes);
    assert alpha + s as real + (beta + f as real) == alpha + beta + |passes| as real;
  }

  /** Folding one more pass changes exactly one of the two counts. */
  lemma {:induction false} CountOneMore(passes: seq<PassObservation>, o: PassObservation)
    ensures var (s, f) := CountOutcomes(passes);
            CountOutcomes(passes + [o]) == if o.Success? then (s + 1, f) else (s, f + 1)
  {
    assert (passes + [o])[..|passes|] == passes;
  }
}
