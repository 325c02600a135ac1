/** What becomes of a layer when its adaptive loop has ended and its seams have been checked. */
module LayerVerdicts {
  import opened Common
  import opened AdaptiveTypes
  import opened HaltDispatch
  import opened AdaptiveLoop
  import opened AdaptiveRuns
  import opened AdaptiveAnswers
  import opened AdaptiveGuarantees
  import opened Logarithm
  import opened Sprt
  import GateCohort

  type Status = GateCohort.LayerStatus

  /** Why a layer has its status: a seam failed, the loop gave a reason, it failed with an error, or it was
      cancelled. */
  datatype Ground = Seam(name: string) | Halting(halt: Halt) | Erring(error: AdaptiveError) | CancelledInFlight

  /** The reason that the loop gives decides, but for the entropy rule, which only says that more passes would tell
      nothing new. */
  function StatusOf(o: AdaptiveOutcome, minConfidence: real): Status {
    match o.haltedBy
    case Runtime(MetricsPersistFailed(_)) => GateCohort.LayerPending
    case Runtime(_) => GateCohort.Failed
    case ByReason(SprtConfidenceReached) => GateCohort.Passed
    case ByReason(VecEntropy) =>
      (match o.finalConfidence
       case Some(c) => if c >= minConfidence then GateCohort.Passed else GateCohort.Failed
       case None => GateCohort.LayerPending)
    case ByReason(SprtRejected) => GateCohort.Failed
    case ByReason(AdtsEscalationExhausted) => GateCohort.Failed
    case _ => GateCohort.LayerPending
  }

  /** A cancelled layer has no seams checked; else a failed seam comes before everything that the loop says. */
  function LayerEnd(answer: Option<Result<AdaptiveOutcome, AdaptiveError>>, failedSeam: Option<string>, minConfidence: real)
    : (Status, Ground)
  {
    match answer
    case None => (GateCohort.Failed, CancelledInFlight)
    case Some(result) =>
      match failedSeam
      case Some(name) => (GateCohort.Failed, Seam(name))
      case None =>
        match result
        case Ok(o) => (StatusOf(o, minConfidence), Halting(o.haltedBy))
        case Err(e) => (GateCohort.Failed, Erring(e))
  }

  function EndOfLayer(ln: real -> real, cfg: LoopConfig, scripts: Scripts, failedSeam: Option<string>): (Status, Ground)
    requires ln(2.0) != 0.0
  {
    LayerEnd(Answer(ln, cfg, scripts), failedSeam, cfg.halt.minConfidence)
  }

  /** seen out of k is at least x. */
  predicate Reaches(x: real, seen: real, k: real) {
    x * k <= seen
  }

  /** After n passes the mean of the posterior reaches the confidence that the layer asks for, which is no more than
      can be reported. */
  predicate Convinces(cfg: LoopConfig, scripts: Scripts, n: nat) {
    && cfg.halt.minConfidence <= 0.966
    && Reaches(cfg.halt.minConfidence, 1.0 + multiset(Observations(scripts, n))[Success] as real, (n + 2) as real)
  }

  lemma {:induction false} ConfidenceConvinces(cfg: LoopConfig, scripts: Scripts, n: nat, c: real)
    requires IsConfidence(c, 1.0, 1.0, Observations(scripts, n))
    ensures cfg.halt.minConfidence <= c <==> Convinces(cfg, scripts, n)
  {
    MeanReaches(cfg.halt.minConfidence, Observations(scripts, n));
    CappedReaches(cfg.halt.minConfidence, PosteriorMean(1.0, 1.0, Observations(scripts, n)), c);
  }

  lemma {:induction false} MeanReaches(x: real, obs: seq<PassObservation>)
    ensures x <= PosteriorMean(1.0, 1.0, obs) <==> Reaches(x, 1.0 + multiset(obs)[Success] as real, (|obs| + 2) as real)
  {
    var seen, k := 1.0 + multiset(obs)[Success] as real, 1.0 + 1.0 + |obs| as real;
    assert k == (|obs| + 2) as real;
    QuotientReaches(x, seen, k);
  }

  lemma {:induction false} CappedReaches(x: real, mean: real, c: real)
    requires c == if mean <= 0.966 then mean else 0.966
    ensures x <= c <==> x <= mean && x <= 0.966
  {
  }

  lemma {:induction false} QuotientReaches(x: real, seen: real, k: real)
    requires 0.0 < k
    ensures x <= seen / k <==> Reaches(x, seen, k)
  {
    var q := seen / k;
    assert q * k == seen;
    assert (q - x) * k == seen - x * k;
  }

  /** Pass n, once started, ends the run in favour of the layer. */
  predicate Approves(ln: real -> real, cfg: LoopConfig, scripts: Scripts, n: nat)
    requires ln(2.0) != 0.0 && 0 < cfg.halt.maxPasses
  {
    || EndsFor(ln, cfg, scripts, n, ByReason(SprtConfidenceReached))
    || (EndsFor(ln, cfg, scripts, n, ByReason(VecEntropy)) && Convinces(cfg, scripts, n))
  }

  lemma {:induction false} OutcomeApproves(ln: real -> real, cfg: LoopConfig, scripts: Scripts, n: nat, o: AdaptiveOutcome)
    requires ln(2.0) != 0.0 && ValidConfig(cfg.halt) && 0 < n && OutcomeIs(ln, cfg, scripts, n, o)
    ensures StatusOf(o, cfg.halt.minConfidence) == GateCohort.Passed <==>
              o.haltedBy == ByReason(SprtConfidenceReached)
              || (o.haltedBy == ByReason(VecEntropy) && Convinces(cfg, scripts, n))
  {
    if o.haltedBy == ByReason(VecEntropy) {
      ConfidenceConvinces(cfg, scripts, n, o.finalConfidence.value);
    }
  }

  /** A layer passes exactly when no seam failed and its run ends, in a pass that starts, with the SPRT accepting, or
      with the entropy settled and the mean of the posterior high enough. */
  lemma {:induction false} PassesExactly(ln: real -> real, cfg: LoopConfig, scripts: Scripts, failedSeam: Option<string>)
    requires IsLogarithm(ln) && ln(2.0) != 0.0
    ensures EndOfLayer(ln, cfg, scripts, failedSeam).0 == GateCohort.Passed <==>
              && failedSeam.None? && 0 < cfg.halt.maxPasses
              && exists n :: Starts(ln, cfg, scripts, n) && Approves(ln, cfg, scripts, n)
  {
    if cfg.halt.maxPasses == 0 {
      NoPassAllowed(ln, cfg, scripts);
    } else if ValidConfig(cfg.halt) {
      var n := LastPassExists(ln, cfg, scripts, 1);
      LastPassApproves(ln, cfg, scripts, failedSeam, n);
      forall m | Starts(ln, cfg, scripts, m) && Approves(ln, cfg, scripts, m) ensures m == n {
        ApprovingPassIsLast(ln, cfg, scripts, m);
        LastPassIsUnique(ln, cfg, scripts, m, n);
      }
    } else {
      FaultIsAnswered(ln, cfg, scripts);
    }
  }

  lemma {:induction false} ApprovingPassIsLast(ln: real -> real, cfg: LoopConfig, scripts: Scripts, n: nat)
    requires IsLogarithm(ln) && ln(2.0) != 0.0 && Starts(ln, cfg, scripts, n) && Approves(ln, cfg, scripts, n)
    ensures !Continues(ln, cfg, scripts, n)
  {
    if EndsFor(ln, cfg, scripts, n, ByReason(SprtConfidenceReached)) {
      EndedPassIsLast(ln, cfg, scripts, n, ByReason(SprtConfidenceReached));
    } else {
      EndedPassIsLast(ln, cfg, scripts, n, ByReason(VecEntropy));
    }
  }

  lemma {:induction false} LastPassApproves(
      ln: real -> real, cfg: LoopConfig, scripts: Scripts, failedSeam: Option<string>, n: nat)
    requires IsLogarithm(ln) && ln(2.0) != 0.0 && Starts(ln, cfg, scripts, n) && !Continues(ln, cfg, scripts, n)
    ensures EndOfLayer(ln, cfg, scripts, failedSeam).0 == GateCohort.Passed <==>
              failedSeam.None? && Approves(ln, cfg, scripts, n)
  {
    AnswerOfLastPass(ln, cfg, scripts, n, ByReason(SprtConfidenceReached));
    AnswerOfLastPass(ln, cfg, scripts, n, ByReason(VecEntropy));
    var r := Answer(ln, cfg, scripts);
    if r.Some? && r.value.Ok? {
      OutcomeApproves(ln, cfg, scripts, n, r.value.value);
    }
  }

  /** Pass n, once started, ends the run without a word on the layer: the budget or the passes are used up, or a row
      could not be written. */
  ghost predicate Postpones(ln: real -> real, cfg: LoopConfig, scripts: Scripts, n: nat)
    requires ln(2.0) != 0.0 && 0 < cfg.halt.maxPasses
  {
    || EndsFor(ln, cfg, scripts, n, ByReason(Budget)) || EndsFor(ln, cfg, scripts, n, ByReason(MaxPasses))
    || exists lost :: EndsFor(ln, cfg, scripts, n, Runtime(MetricsPersistFailed(lost)))
  }

  predicate IsPostponement(halt: Halt) {
    halt == ByReason(Budget) || halt == ByReason(MaxPasses) || (halt.Runtime? && halt.failure.MetricsPersistFailed?)
  }

  /** A layer is to be evaluated again exactly when no seam failed and its run ends so, or no pass is allowed; in all
      other cases that do not pass it, cancellation and errors included, it fails. */
  lemma {:induction false} PendsExactly(ln: real -> real, cfg: LoopConfig, scripts: Scripts, failedSeam: Option<string>)
    requires IsLogarithm(ln) && ln(2.0) != 0.0
    ensures var status := EndOfLayer(ln, cfg, scripts, failedSeam).0;
            && (status == GateCohort.LayerPending <==>
                  failedSeam.None? && (cfg.halt.maxPasses == 0
                                       || exists n :: Starts(ln, cfg, scripts, n) && Postpones(ln, cfg, scripts, n)))
            && (status == GateCohort.Passed || status == GateCohort.LayerPending || status == GateCohort.Failed)
  {
    if cfg.halt.maxPasses == 0 {
      NoPassAllowed(ln, cfg, scripts);
    } else if ValidConfig(cfg.halt) {
      var n := LastPassExists(ln, cfg, scripts, 1);
      LastPassPostpones(ln, cfg, scripts, failedSeam, n);
      forall m | Starts(ln, cfg, scripts, m) && Postpones(ln, cfg, scripts, m) ensures m == n {
        PostponingPassIsLast(ln, cfg, scripts, m);
        LastPassIsUnique(ln, cfg, scripts, m, n);
      }
    } else {
      FaultIsAnswered(ln, cfg, scripts);
    }
  }

  lemma {:induction false} PostponingPassIsLast(ln: real -> real, cfg: LoopConfig, scripts: Scripts, n: nat)
    requires IsLogarithm(ln) && ln(2.0) != 0.0 && Starts(ln, cfg, scripts, n) && Postpones(ln, cfg, scripts, n)
    ensures !Continues(ln, cfg, scripts, n)
  {
    if lost :| EndsFor(ln, cfg, scripts, n, Runtime(MetricsPersistFailed(lost))) {
      EndedPassIsLast(ln, cfg, scripts, n, Runtime(MetricsPersistFailed(lost)));
    } else if EndsFor(ln, cfg, scripts, n, ByReason(Budget)) {
      EndedPassIsLast(ln, cfg, scripts, n, ByReason(Budget));
    } else {
      EndedPassIsLast(ln, cfg, scripts, n, ByReason(MaxPasses));
    }
  }

  lemma {:induction false} LastPassPostpones(
      ln: real -> real, cfg: LoopConfig, scripts: Scripts, failedSeam: Option<string>, n: nat)
    requires IsLogarithm(ln) && ln(2.0) != 0.0 && Starts(ln, cfg, scripts, n) && !Continues(ln, cfg, scripts, n)
    ensures EndOfLayer(ln, cfg, scripts, failedSeam).0 == GateCohort.LayerPending <==>
              failedSeam.None? && Postpones(ln, cfg, scripts, n)
  {
    var r := Answer(ln, cfg, scripts);
    AnswerOfLastPass(ln, cfg, scripts, n, ByReason(Budget));
    AnswerOfLastPass(ln, cfg, scripts, n, ByReason(MaxPasses));
    if lost :| EndsFor(ln, cfg, scripts, n, Runtime(MetricsPersistFailed(lost))) {
      AnswerOfLastPass(ln, cfg, scripts, n, Runtime(MetricsPersistFailed(lost)));
    }
    if r.Some? && r.value.Ok? {
      OutcomePostpones(ln, cfg, scripts, n, r.value.value);
    }
  }

  lemma {:induction false} OutcomePostpones(ln: real -> real, cfg: LoopConfig, scripts: Scripts, n: nat, o: AdaptiveOutcome)
    requires ln(2.0) != 0.0 && ValidConfig(cfg.halt) && 0 < n && OutcomeIs(ln, cfg, scripts, n, o)
    ensures StatusOf(o, cfg.halt.minConfidence) == GateCohort.LayerPending <==> IsPostponement(o.haltedBy)
    ensures IsPostponement(o.haltedBy) ==> Postpones(ln, cfg, scripts, n)
  {
    PostponedStatus(o, cfg.halt.minConfidence);
    if IsPostponement(o.haltedBy) {
      PostponingHalt(ln, cfg, scripts, n, o.haltedBy);
    }
  }

  lemma {:induction false} PostponedStatus(o: AdaptiveOutcome, minConfidence: real)
    requires o.haltedBy != NaturalExit && (o.haltedBy == ByReason(VecEntropy) ==> o.finalConfidence.Some?)
    ensures StatusOf(o, minConfidence) == GateCohort.LayerPending <==> IsPostponement(o.haltedBy)
  {
  }

  lemma {:induction false} PostponingHalt(ln: real -> real, cfg: LoopConfig, scripts: Scripts, n: nat, halt: Halt)
    requires ln(2.0) != 0.0 && 0 < cfg.halt.maxPasses && EndsFor(ln, cfg, scripts, n, halt) && IsPostponement(halt)
    ensures Postpones(ln, cfg, scripts, n)
  {
    if halt.Runtime? {
      assert EndsFor(ln, cfg, scripts, n, Runtime(MetricsPersistFailed(halt.failure.unrecordedCost)));
    }
  }

  /** `hit` holds only of outcomes on which, in the environment they bring about, the layer passes. */
  ghost predicate HitsNeedPass(
      ln: real -> real, cfg: LoopConfig, env: seq<PassObservation> -> Scripts, failedSeam: Option<string>, hit: Rule)
    requires ln(2.0) != 0.0
  {
    forall run: seq<PassObservation> ::
      Replays(env(run), run)
      && (hit(run) ==> cfg.halt.maxPasses <= |run| && EndOfLayer(ln, cfg, env(run), failedSeam).0 == GateCohort.Passed)
  }

  /** End to end: under pure chance a layer passes with probability at most 1/A, unless the entropy rule decides. */
  lemma {:induction false} LayerFalsePassBound(
      ln: real -> real, cfg: LoopConfig, env: seq<PassObservation> -> Scripts, failedSeam: Option<string>, hit: Rule)
    requires IsLogarithm(ln) && ln(2.0) != 0.0 && ValidSprt(cfg.halt.sprt, cfg.halt.minConfidence) && cfg.halt.algo != Vec
    requires HitsNeedPass(ln, cfg, env, failedSeam, hit)
    ensures HitMass(0.5, hit, [], cfg.halt.maxPasses) <= 1.0 / cfg.halt.sprt.acceptThreshold
  {
    forall run: seq<PassObservation>
      ensures Replays(env(run), run)
      ensures hit(run) ==> cfg.halt.maxPasses <= |run| && HaltsWith(ln, cfg, env(run), ByReason(SprtConfidenceReached))
    {
      if hit(run) {
        PassNeedsAccept(ln, cfg, env(run), failedSeam);
      }
    }
    LoopFalseAcceptBound(ln, cfg, env, hit);
  }

  lemma {:induction false} PassNeedsAccept(ln: real -> real, cfg: LoopConfig, scripts: Scripts, failedSeam: Option<string>)
    requires IsLogarithm(ln) && ln(2.0) != 0.0 && cfg.halt.algo != Vec
    requires EndOfLayer(ln, cfg, scripts, failedSeam).0 == GateCohort.Passed
    ensures HaltsWith(ln, cfg, scripts, ByReason(SprtConfidenceReached))
  {
    PassesExactly(ln, cfg, scripts, failedSeam);
    HaltedByExactly(ln, cfg, scripts, ByReason(SprtConfidenceReached));
  }

  /** The entropy rule can never pass a layer that asks for more confidence than is ever reported. */
  lemma {:induction false} CeilingBlocksEntropy(ln: real -> real, cfg: LoopConfig, scripts: Scripts, failedSeam: Option<string>)
    requires IsLogarithm(ln) && ln(2.0) != 0.0 && cfg.halt.algo == Vec && 0.966 < cfg.halt.minConfidence
    ensures EndOfLayer(ln, cfg, scripts, failedSeam).0 != GateCohort.Passed
  {
    PassesExactly(ln, cfg, scripts, failedSeam);
  }
}
