/** What the adaptive loop guarantees over whole runs, for every provider behaviour. */
module AdaptiveGuarantees {
  import opened Common
  import opened AdaptiveTypes
  import opened CostProjector
  import opened Escalation
  import opened HaltDispatch
  import opened AdaptiveLoop
  import opened AdaptiveRuns
  import opened AdaptiveAnswers
  import opened Logarithm
  import opened Sprt

  /** Every end of every run, halt or configuration error, is reached with books, budget and escalation
      in order. */
  lemma {:induction false} RunKeepsInvariant(ln: real -> real, cfg: LoopConfig, scripts: Scripts)
    requires ln(2.0) != 0.0 && 0 < cfg.halt.maxPasses
    ensures EndsWell(cfg, Run(ln, cfg, scripts), cfg.halt.maxPasses)
  {
    RunEndsWell(ln, cfg, scripts, INITIAL, 1);
  }

  /* ---- Configuration errors ---- */

  predicate BadPair(cfg: LoopConfig, script: PassScript) {
    NewPair(cfg, script) != [] && !ValidPair(NewPair(cfg, script)[0])
  }

  /** Pass n is reached and its calls land, but the scores of the two evaluators cannot be compared. */
  ghost predicate AbortsAfterCalls(ln: real -> real, cfg: LoopConfig, scripts: Scripts, n: nat)
    requires ln(2.0) != 0.0
  {
    && Starts(ln, cfg, scripts, n) && CallsLand(cfg, scripts(n))
    && cfg.halt.algo == Adts
    && (!(0.0 <= cfg.adts.divergenceThreshold <= 10.0) || BadPair(cfg, scripts(n)))
  }

  lemma {:induction false} FirstInvalidOfMore(pairs: seq<PairedScore>, more: seq<PairedScore>)
    requires FirstInvalid(pairs).None? && |more| <= 1
    ensures FirstInvalid(pairs + more) == FirstInvalid(more)
  {
    if pairs == [] {
      assert pairs + more == more;
    } else {
      assert (pairs + more)[1..] == pairs[1..] + more;
      FirstInvalidOfMore(pairs[1..], more);
    }
  }

  lemma {:induction false} NewestPairDecides(ln: real -> real, cfg: LoopConfig, scripts: Scripts, n: nat)
    requires ln(2.0) != 0.0 && Starts(ln, cfg, scripts, n) && cfg.halt.algo == Adts
    ensures ScoresValid(cfg, scripts, n) <==>
            0.0 <= cfg.adts.divergenceThreshold <= 10.0 && !BadPair(cfg, scripts(n))
    ensures 0.0 <= cfg.adts.divergenceThreshold <= 10.0 && BadPair(cfg, scripts(n)) ==>
              var bad := NewPair(cfg, scripts(n))[0];
              ScoreError(cfg, Pairs(cfg, scripts, n)) == InvalidAdtsScore(bad.0, bad.1)
  {
    if 0.0 <= cfg.adts.divergenceThreshold <= 10.0 {
      if n > 1 {
        assert Continues(ln, cfg, scripts, n - 1);
      }
      FirstInvalidOfMore(Pairs(cfg, scripts, n - 1), NewPair(cfg, scripts(n)));
    }
  }

  /** Such a pass ends the run with an error, all its calls being in the durable store. */
  lemma {:induction false} AbortKeepsRows(ln: real -> real, cfg: LoopConfig, scripts: Scripts, n: nat)
    requires ln(2.0) != 0.0 && AbortsAfterCalls(ln, cfg, scripts, n)
    ensures var end := Run(ln, cfg, scripts);
            && end.Aborted? && |end.st.sink| == CallsPerPass(cfg) * n
            && CostsOf(end.st.sink) == Costs(cfg, scripts, n)
            && (0.0 <= cfg.adts.divergenceThreshold <= 10.0 ==>
                  var bad := NewPair(cfg, scripts(n))[0]; end.error == InvalidAdtsScore(bad.0, bad.1))
  {
    NewestPairDecides(ln, cfg, scripts, n);
    RunEnds(ln, cfg, scripts, n);
  }

  /** A run fails before its first call exactly when the configuration is at fault, and after calls that
      the durable store has recorded exactly when it reaches scores that cannot be compared. */
  lemma {:induction false} AbortsExactly(ln: real -> real, cfg: LoopConfig, scripts: Scripts)
    requires ln(2.0) != 0.0
    ensures var end := Run(ln, cfg, scripts);
            && (end.Aborted? && end.st.sink == [] <==> 0 < cfg.halt.maxPasses && !ValidConfig(cfg.halt))
            && (end.Aborted? && end.st.sink == [] ==> end.st == INITIAL)
            && (end.Aborted? && end.st.sink != [] <==> exists n :: AbortsAfterCalls(ln, cfg, scripts, n))
  {
    ValidConfigDecides(ln, cfg.halt, [], 0.0, NO_COSTS);
    if ValidConfig(cfg.halt) {
      var n := LastPassExists(ln, cfg, scripts, 1);
      LastPassAborts(ln, cfg, scripts, n);
    }
    if i :| AbortsAfterCalls(ln, cfg, scripts, i) {
      AbortKeepsRows(ln, cfg, scripts, i);
      assert 0 < CallsPerPass(cfg) * i;
    }
  }

  lemma {:induction false} LastPassAborts(ln: real -> real, cfg: LoopConfig, scripts: Scripts, n: nat)
    requires ln(2.0) != 0.0 && Starts(ln, cfg, scripts, n) && !Continues(ln, cfg, scripts, n)
    ensures Run(ln, cfg, scripts).Aborted? <==> AbortsAfterCalls(ln, cfg, scripts, n)
    ensures Run(ln, cfg, scripts).Aborted? ==> Run(ln, cfg, scripts).st.sink != []
  {
    RunEnds(ln, cfg, scripts, n);
    if cfg.halt.algo == Adts {
      NewestPairDecides(ln, cfg, scripts, n);
    }
    if AbortsAfterCalls(ln, cfg, scripts, n) {
      AbortKeepsRows(ln, cfg, scripts, n);
      assert 0 < CallsPerPass(cfg) * n;
    }
  }

  /* ---- Cost reconciliation ---- */

  /** What the manifest says of the layer: the rows of its calls, whether a row stands in for the passes of a
      layer that failed with an error, and the total cost. */
  datatype LayerReport = LayerReport(rows: seq<PassResult>, placeholder: bool, total: Option<real>)

  /** The outcome of the loop; after an error the placeholder; and nothing when the loop was dropped. */
  function ReportOf(cfg: LoopConfig, end: PassEnd): LayerReport
    requires !end.Again?
  {
    match Outcome(cfg, end)
    case Some(Ok(o)) => LayerReport(o.passes, false, o.totalCostUsd)
    case Some(Err(_)) => LayerReport([], true, None)
    case None => LayerReport([], false, None)
  }

  /** The manifest has the rows of the durable store; its total is the sum of their costs, and is missing
      exactly when none of them has a cost. */
  predicate Reconciles(report: LayerReport, sink: seq<PassResult>) {
    && report.rows == sink
    && match report.total
       case None => !AnyRecordedCost(sink)
       case Some(total) => AnyRecordedCost(sink) && total == Sum(CostsOf(sink))
  }

  /** The run of a layer. It can be cancelled while a call is under way, which the scripts say, or later,
      while its providers shut down; either way the loop's future is dropped with all it knows. */
  function LayerRun(ln: real -> real, cfg: LoopConfig, scripts: Scripts, late: bool): (end: PassEnd)
    requires ln(2.0) != 0.0
    ensures !end.Again? && end.st == Run(ln, cfg, scripts).st
  {
    var end := Run(ln, cfg, scripts);
    if late then Cancelled(end.st) else end
  }

  predicate PricedButNotPersisted(cfg: LoopConfig, call: Call) {
    Priced(cfg, call) && !call.persisted
  }

  /** The first call with a cost is one of this pass, is not persisted, and is not the first call of all. */
  predicate LosesPriceIn(cfg: LoopConfig, script: PassScript, anyCallBefore: bool) {
    || (anyCallBefore && PricedButNotPersisted(cfg, script.primary))
    || (CallsAdversary(cfg) && Lands(cfg, script.primary) && !Priced(cfg, script.primary)
        && PricedButNotPersisted(cfg, script.adversary))
  }

  /** Costs are told but no budget is enforced, all calls before pass n landed without a cost, and pass n
      loses the first one. */
  ghost predicate LosesFirstPrice(ln: real -> real, cfg: LoopConfig, scripts: Scripts, n: nat)
    requires ln(2.0) != 0.0
  {
    && cfg.halt.budgetUsd == 0.0 && cfg.costTelemetry
    && Starts(ln, cfg, scripts, n) && !PricedWithin(cfg, scripts, n - 1)
    && LosesPriceIn(cfg, scripts(n), 1 < n)
  }

  /** Pass n is reached, and the layer is cancelled during one of its calls. */
  ghost predicate InterruptedIn(ln: real -> real, cfg: LoopConfig, scripts: Scripts, n: nat)
    requires ln(2.0) != 0.0
  {
    Starts(ln, cfg, scripts, n) && PassInterrupted(cfg, scripts(n))
  }

  ghost predicate IsCancelled(ln: real -> real, cfg: LoopConfig, scripts: Scripts, late: bool)
    requires ln(2.0) != 0.0
  {
    late || exists n :: InterruptedIn(ln, cfg, scripts, n)
  }

  predicate FirstCallLands(cfg: LoopConfig, scripts: Scripts) {
    ValidConfig(cfg.halt) && Lands(cfg, scripts(1).primary)
  }

  /** The durable store gets a row exactly when the very first call lands. */
  lemma {:induction false} SinkFilledExactly(ln: real -> real, cfg: LoopConfig, scripts: Scripts)
    requires ln(2.0) != 0.0
    ensures Run(ln, cfg, scripts).st.sink != [] <==> FirstCallLands(cfg, scripts)
  {
    if ValidConfig(cfg.halt) {
      var n := LastPassExists(ln, cfg, scripts, 1);
      LastPassFillsSink(ln, cfg, scripts, n);
    } else {
      InvalidConfigEnds(ln, cfg, scripts);
    }
  }

  lemma {:induction false} InvalidConfigEnds(ln: real -> real, cfg: LoopConfig, scripts: Scripts)
    requires ln(2.0) != 0.0 && !ValidConfig(cfg.halt)
    ensures var end := Run(ln, cfg, scripts);
            end.st == INITIAL && (end.Aborted? <==> 0 < cfg.halt.maxPasses) && (end.Halted? <==> cfg.halt.maxPasses == 0)
  {
    ValidConfigDecides(ln, cfg.halt, [], 0.0, NO_COSTS);
    RunFromStep(ln, cfg, scripts, INITIAL, 1);
  }

  lemma {:induction false} LastPassFillsSink(ln: real -> real, cfg: LoopConfig, scripts: Scripts, n: nat)
    requires ln(2.0) != 0.0 && Starts(ln, cfg, scripts, n) && !Continues(ln, cfg, scripts, n)
    ensures Run(ln, cfg, scripts).st.sink != [] <==> FirstCallLands(cfg, scripts)
  {
    var st := StateBefore(ln, cfg, scripts, n);
    RunEnds(ln, cfg, scripts, n);
    if n > 1 {
      EarlierPassContinues(ln, cfg, scripts, 1, n);
      assert 0 < CallsPerPass(cfg) * (n - 1);
      CallsOnlyAppend(cfg, scripts(n), st, n);
      assert 0 < CallsPerPass(cfg) * n;
    }
    if !CallsLand(cfg, scripts(n)) {
      StoppedRows(cfg, scripts(n), st, n, Costs(cfg, scripts, n - 1), PricedWithin(cfg, scripts, n - 1));
    }
  }

  lemma {:induction false} StoppedRows(cfg: LoopConfig, script: PassScript, st: LoopState, n: nat, costs: seq<real>, priced: bool)
    requires BooksHold(st, costs, priced) && !CallsLand(cfg, script)
    ensures var called := MakeCalls(cfg, script, st, n).0;
            && called.sink == called.passes
            && (called.sink == [] <==> st.sink == [] && !Lands(cfg, script.primary))
  {
    RecordedCall(cfg, st, n, Primary, script.primary, costs, priced);
    var (st1, stop1) := RecordCall(cfg, st, n, Primary, script.primary);
    if stop1.None? {
      RecordedCall(cfg, st1, n, Adversary, script.adversary, costs + [Charge(cfg, script.primary)],
                   priced || Priced(cfg, script.primary));
    }
  }

  lemma {:induction false} ReachedAfterFirstCall(ln: real -> real, cfg: LoopConfig, scripts: Scripts, n: nat)
    requires ln(2.0) != 0.0 && Starts(ln, cfg, scripts, n) && (1 < n || Lands(cfg, scripts(n).primary))
    ensures FirstCallLands(cfg, scripts)
  {
    if 1 < n {
      EarlierPassContinues(ln, cfg, scripts, 1, n);
    }
  }

  /** A run ends cancelled exactly when it reaches a call during which it is cancelled. */
  lemma {:induction false} CancelledExactly(ln: real -> real, cfg: LoopConfig, scripts: Scripts)
    requires ln(2.0) != 0.0
    ensures Run(ln, cfg, scripts).Cancelled? <==> exists n :: InterruptedIn(ln, cfg, scripts, n)
  {
    if ValidConfig(cfg.halt) {
      var n := LastPassExists(ln, cfg, scripts, 1);
      LastPassCancels(ln, cfg, scripts, n);
      forall m | InterruptedIn(ln, cfg, scripts, m) ensures m == n {
        LastPassIsUnique(ln, cfg, scripts, m, n);
      }
    } else {
      InvalidConfigEnds(ln, cfg, scripts);
    }
  }

  lemma {:induction false} LastPassCancels(ln: real -> real, cfg: LoopConfig, scripts: Scripts, n: nat)
    requires ln(2.0) != 0.0 && Starts(ln, cfg, scripts, n) && !Continues(ln, cfg, scripts, n)
    ensures Run(ln, cfg, scripts).Cancelled? <==> InterruptedIn(ln, cfg, scripts, n)
  {
    var st := StateBefore(ln, cfg, scripts, n);
    RunEnds(ln, cfg, scripts, n);
    if !CallsLand(cfg, scripts(n)) {
      StopOfCalls(cfg, scripts(n), st, n);
    }
  }

  lemma {:induction false} StopOfCalls(cfg: LoopConfig, script: PassScript, st: LoopState, n: nat)
    ensures MakeCalls(cfg, script, st, n).1 == Some(Cancellation) <==> PassInterrupted(cfg, script)
  {
  }

  /** Manifest and durable store agree on rows and costs after every run of a layer but three kinds: one that
      loses the first cost it is told, one that meets scores it cannot compare, and one that is cancelled
      after its first call landed. */
  lemma {:induction false} CostsReconcile(ln: real -> real, cfg: LoopConfig, scripts: Scripts, late: bool)
    requires ln(2.0) != 0.0
    ensures var end := LayerRun(ln, cfg, scripts, late);
            Reconciles(ReportOf(cfg, end), end.st.sink) <==>
              && !(exists n :: LosesFirstPrice(ln, cfg, scripts, n))
              && !(exists n :: AbortsAfterCalls(ln, cfg, scripts, n))
              && !(IsCancelled(ln, cfg, scripts, late) && FirstCallLands(cfg, scripts))
  {
    SinkFilledExactly(ln, cfg, scripts);
    CancelledExactly(ln, cfg, scripts);
    ExceptionsFillSink(ln, cfg, scripts);
    AbortsExactly(ln, cfg, scripts);
    var end := LayerRun(ln, cfg, scripts, late);
    if end.Halted? {
      HaltedRunReconciles(ln, cfg, scripts);
    } else {
      LostReportReconciles(cfg, end);
    }
  }

  /** A layer that was dropped or failed reports no row, so it reconciles exactly when there is none. */
  lemma {:induction false} LostReportReconciles(cfg: LoopConfig, end: PassEnd)
    requires end.Cancelled? || end.Aborted?
    ensures Reconciles(ReportOf(cfg, end), end.st.sink) <==> end.st.sink == []
  {
  }

  lemma {:induction false} ExceptionsFillSink(ln: real -> real, cfg: LoopConfig, scripts: Scripts)
    requires ln(2.0) != 0.0
    ensures (exists n :: LosesFirstPrice(ln, cfg, scripts, n)) ==> FirstCallLands(cfg, scripts)
    ensures (exists n :: AbortsAfterCalls(ln, cfg, scripts, n)) ==> FirstCallLands(cfg, scripts)
    ensures (exists n :: LosesFirstPrice(ln, cfg, scripts, n)) ==> !Run(ln, cfg, scripts).Aborted?
  {
    if n :| LosesFirstPrice(ln, cfg, scripts, n) {
      ReachedAfterFirstCall(ln, cfg, scripts, n);
      LastPassAborts(ln, cfg, scripts, n);
    }
    if n :| AbortsAfterCalls(ln, cfg, scripts, n) {
      ReachedAfterFirstCall(ln, cfg, scripts, n);
    }
  }

  lemma {:induction false} HaltedRunReconciles(ln: real -> real, cfg: LoopConfig, scripts: Scripts)
    requires ln(2.0) != 0.0 && Run(ln, cfg, scripts).Halted?
    ensures var end := Run(ln, cfg, scripts);
            Reconciles(ReportOf(cfg, end), end.st.sink) <==> !(exists n :: LosesFirstPrice(ln, cfg, scripts, n))
  {
    if ValidConfig(cfg.halt) {
      var n := LastPassExists(ln, cfg, scripts, 1);
      LastPassReconciles(ln, cfg, scripts, n);
      forall m | LosesFirstPrice(ln, cfg, scripts, m) ensures m == n {
        LastPassIsUnique(ln, cfg, scripts, m, n);
      }
    } else {
      InvalidConfigEnds(ln, cfg, scripts);
    }
  }

  lemma {:induction false} LastPassReconciles(ln: real -> real, cfg: LoopConfig, scripts: Scripts, n: nat)
    requires ln(2.0) != 0.0 && Starts(ln, cfg, scripts, n) && !Continues(ln, cfg, scripts, n)
    requires Run(ln, cfg, scripts).Halted?
    ensures var end := Run(ln, cfg, scripts);
            Reconciles(ReportOf(cfg, end), end.st.sink) <==> !LosesFirstPrice(ln, cfg, scripts, n)
  {
    var st := StateBefore(ln, cfg, scripts, n);
    RunEnds(ln, cfg, scripts, n);
    if !CallsLand(cfg, scripts(n)) {
      FailedPassReconciles(ln, cfg, scripts, st, n);
    }
  }

  /** A call that lands without a cost shows that no budget is enforced. */
  lemma {:induction false} UnpricedMeansNoBudget(cfg: LoopConfig, call: Call)
    requires 0.0 <= cfg.halt.budgetUsd
    ensures Lands(cfg, call) && !Priced(cfg, call) ==> cfg.halt.budgetUsd == 0.0
    ensures Priced(cfg, call) ==> cfg.costTelemetry
  {
  }

  lemma {:induction false} LossMeansNoBudget(ln: real -> real, cfg: LoopConfig, scripts: Scripts, n: nat)
    requires ln(2.0) != 0.0 && Starts(ln, cfg, scripts, n) && !PricedWithin(cfg, scripts, n - 1)
    requires LosesPriceIn(cfg, scripts(n), 1 < n)
    ensures LosesFirstPrice(ln, cfg, scripts, n)
  {
    if n > 1 {
      assert Continues(ln, cfg, scripts, n - 1);
      UnpricedMeansNoBudget(cfg, scripts(n - 1).primary);
    }
    UnpricedMeansNoBudget(cfg, scripts(n).primary);
    UnpricedMeansNoBudget(cfg, scripts(n).adversary);
  }

  lemma {:induction false} FailedPassReconciles(ln: real -> real, cfg: LoopConfig, scripts: Scripts, st: LoopState, n: nat)
    requires ln(2.0) != 0.0 && Starts(ln, cfg, scripts, n) && Matches(cfg, scripts, st, n - 1)
    requires !CallsLand(cfg, scripts(n))
    ensures var (called, stop) := MakeCalls(cfg, scripts(n), st, n);
            stop.Some? && stop.value.FailedBy? ==>
              (Reconciles(ReportOf(cfg, StoppedBy(called, stop.value)), called.sink)
               <==> !LosesFirstPrice(ln, cfg, scripts, n))
  {
    FailedCallsReconcile(cfg, scripts(n), st, n, Costs(cfg, scripts, n - 1), PricedWithin(cfg, scripts, n - 1));
    assert st.passes != [] <==> 1 < n by {
      if n > 1 {
        assert 0 < CallsPerPass(cfg) * (n - 1);
      }
    }
    if !PricedWithin(cfg, scripts, n - 1) && LosesPriceIn(cfg, scripts(n), 1 < n) {
      LossMeansNoBudget(ln, cfg, scripts, n);
    }
  }

  lemma {:induction false} FailedCallsReconcile(
      cfg: LoopConfig, script: PassScript, st: LoopState, n: nat, costs: seq<real>, priced: bool)
    requires BooksHold(st, costs, priced) && !CallsLand(cfg, script)
    ensures var (called, stop) := MakeCalls(cfg, script, st, n);
            stop.Some? && stop.value.FailedBy? ==>
              (Reconciles(ReportOf(cfg, StoppedBy(called, stop.value)), called.sink)
               <==> priced || !LosesPriceIn(cfg, script, st.passes != []))
  {
    RecordedCall(cfg, st, n, Primary, script.primary, costs, priced);
    var (st1, stop1) := RecordCall(cfg, st, n, Primary, script.primary);
    if stop1.Some? {
      FailureReconciles(cfg, st, st1, stop1.value, priced, Priced(cfg, script.primary));
    } else {
      var costs1, priced1 := costs + [Charge(cfg, script.primary)], priced || Priced(cfg, script.primary);
      RecordedCall(cfg, st1, n, Adversary, script.adversary, costs1, priced1);
      var (st2, stop2) := RecordCall(cfg, st1, n, Adversary, script.adversary);
      assert CostsOf(st1.passes) != [];
      FailureReconciles(cfg, st1, st2, stop2.value, priced1, Priced(cfg, script.adversary));
    }
  }

  /** What a failed call leaves behind reconciles unless it was the first one with a cost. */
  lemma {:induction false} FailureReconciles(
      cfg: LoopConfig, st: LoopState, st': LoopState, stop: Stop, priced: bool, now: bool)
    requires BooksHold(st, CostsOf(st.passes), priced)
    requires st' == st.(anyRealCost := priced || now)
    ensures stop.FailedBy? ==> (Reconciles(ReportOf(cfg, StoppedBy(st', stop)), st'.sink) <==> !(now && !priced && st.passes != []))
  {
  }

  /** With an enforced budget, or without cost telemetry, only a cancellation or scores that cannot be
      compared come between manifest and store. */
  lemma {:induction false} EnforcedBudgetsReconcile(ln: real -> real, cfg: LoopConfig, scripts: Scripts)
    requires ln(2.0) != 0.0
    requires cfg.halt.budgetUsd > 0.0 || !cfg.costTelemetry
    requires cfg.halt.algo == Adts ==>
               0.0 <= cfg.adts.divergenceThreshold <= 10.0 && forall n: nat :: !BadPair(cfg, scripts(n))
    requires !IsCancelled(ln, cfg, scripts, false)
    ensures var end := LayerRun(ln, cfg, scripts, false); Reconciles(ReportOf(cfg, end), end.st.sink)
  {
    CostsReconcile(ln, cfg, scripts, false);
  }

  /** The configurations that the workflow validator lets through: standalone ADTS is not among them. */
  predicate Validated(cfg: LoopConfig) {
    ValidConfig(cfg.halt) && cfg.halt.algo != Adts
  }

  /** Under those, and with an enforced budget, a layer's costs reconcile exactly when it is not cancelled
      after its first call landed. */
  lemma {:induction false} ValidatedBudgetsReconcileExactly(ln: real -> real, cfg: LoopConfig, scripts: Scripts, late: bool)
    requires ln(2.0) != 0.0 && Validated(cfg) && cfg.halt.budgetUsd > 0.0
    ensures var end := LayerRun(ln, cfg, scripts, late);
            Reconciles(ReportOf(cfg, end), end.st.sink) <==>
              !(IsCancelled(ln, cfg, scripts, late) && FirstCallLands(cfg, scripts))
  {
    CostsReconcile(ln, cfg, scripts, late);
  }

  /** Whatever the costs: a layer that is cancelled after its first call landed has paid for calls, and its
      report has neither row nor total. */
  lemma {:induction false} CancelledLayerLosesRows(ln: real -> real, cfg: LoopConfig, scripts: Scripts, late: bool)
    requires ln(2.0) != 0.0 && IsCancelled(ln, cfg, scripts, late) && FirstCallLands(cfg, scripts)
    ensures var end := LayerRun(ln, cfg, scripts, late);
            && end.st.sink != [] && ReportOf(cfg, end) == LayerReport([], false, None)
            && !Reconciles(ReportOf(cfg, end), end.st.sink)
  {
    SinkFilledExactly(ln, cfg, scripts);
    CancelledExactly(ln, cfg, scripts);
  }

  /** The first call lands and costs c, and the layer is cancelled during the first call of the next pass. */
  predicate CancelledInSecondPass(cfg: LoopConfig, scripts: Scripts, c: real) {
    && Lands(cfg, scripts(1).primary) && Charge(cfg, scripts(1).primary) == c
    && scripts(2).primary.Interrupted?
  }

  /** Two passes of one such call are allowed and affordable. */
  predicate AffordsTwoPasses(cfg: HaltConfig, c: real) {
    && ValidConfig(cfg) && cfg.algo == NoAlgo && 2 <= cfg.maxPasses
    && 0.0 < cfg.budgetUsd && c + c <= cfg.budgetUsd
  }

  /** For one: the first call is paid for and recorded, the second is cancelled, and no cost is reported. */
  lemma {:induction false} SecondCallCancelled(ln: real -> real, cfg: LoopConfig, scripts: Scripts, c: real)
    requires ln(2.0) != 0.0 && AffordsTwoPasses(cfg.halt, c) && CancelledInSecondPass(cfg, scripts, c)
    ensures var end := LayerRun(ln, cfg, scripts, false);
            CostsOf(end.st.sink) == [c] && ReportOf(cfg, end) == LayerReport([], false, None)
  {
    FirstPassGoesOn(ln, cfg, scripts, c);
    SecondPassStarts(ln, cfg, scripts);
    InterruptedRunEnds(ln, cfg, scripts, 2);
    FirstCosts(cfg, scripts, c);
  }

  lemma {:induction false} SecondPassStarts(ln: real -> real, cfg: LoopConfig, scripts: Scripts)
    requires ln(2.0) != 0.0 && ValidConfig(cfg.halt) && Continues(ln, cfg, scripts, 1)
    ensures Starts(ln, cfg, scripts, 2)
  {
  }

  lemma {:induction false} InterruptedRunEnds(ln: real -> real, cfg: LoopConfig, scripts: Scripts, n: nat)
    requires ln(2.0) != 0.0 && Starts(ln, cfg, scripts, n) && scripts(n).primary.Interrupted?
    ensures var end := LayerRun(ln, cfg, scripts, false);
            CostsOf(end.st.sink) == Costs(cfg, scripts, n - 1) && ReportOf(cfg, end) == LayerReport([], false, None)
  {
    RunEnds(ln, cfg, scripts, n);
  }

  lemma {:induction false} FirstPassGoesOn(ln: real -> real, cfg: LoopConfig, scripts: Scripts, c: real)
    requires ln(2.0) != 0.0 && AffordsTwoPasses(cfg.halt, c) && CancelledInSecondPass(cfg, scripts, c)
    ensures Continues(ln, cfg, scripts, 1)
  {
    FirstCosts(cfg, scripts, c);
    FirstPassUndecided(ln, cfg.halt, Observations(scripts, 1), c);
  }

  lemma {:induction false} FirstCosts(cfg: LoopConfig, scripts: Scripts, c: real)
    requires cfg.halt.algo == NoAlgo && Charge(cfg, scripts(1).primary) == c
    ensures Costs(cfg, scripts, 1) == [c]
  {
    assert Costs(cfg, scripts, 0) == [];
  }

  lemma {:induction false} FirstPassUndecided(ln: real -> real, cfg: HaltConfig, obs: seq<PassObservation>, c: real)
    requires ln(2.0) != 0.0 && AffordsTwoPasses(cfg, c) && |obs| == 1
    ensures var r := DecideHalt(ln, cfg, obs, Sum([c]), StatsOf([c]));
            r.Ok? && !r.value.halt
  {
    OneMoreFits(cfg, c);
  }

  lemma {:induction false} OneMoreFits(cfg: HaltConfig, c: real)
    requires 0 < cfg.maxPasses && c + c <= cfg.budgetUsd
    ensures FitsBudget(cfg, Sum([c]), StatsOf([c]))
  {
    assert Repeat(c, 1) == [c];
    SteadyStats(c, 1);
    SteadySum(c, 1);
  }

  /** Some pass with outcome o can be followed by another. */
  predicate LetsSecondPass(ln: real -> real, cfg: LoopConfig, o: PassObservation) {
    && 2 <= cfg.halt.maxPasses
    && (cfg.halt.algo == Adts ==> 0.0 <= cfg.adts.divergenceThreshold <= 10.0)
    && (cfg.halt.algo == BayesianSprt ==>
          !Accepts(ln, [o], cfg.halt.sprt, cfg.halt.minConfidence) && !Rejects(ln, [o], cfg.halt.sprt, cfg.halt.minConfidence))
  }

  /** Calls without a cost that are persisted, then calls with one that are not. */
  function LosingScripts(o: PassObservation): Scripts {
    var unpriced, lost := Returned(PassOutcome(None, None, o), true), Returned(PassOutcome(None, Some(1.0), o), false);
    i => if i <= 1 then PassScript(unpriced, unpriced) else PassScript(lost, lost)
  }

  /** Without an enforced budget the first exception is real, wherever a second pass is possible: such a run
      reports a total of zero over rows that record no cost at all. */
  lemma {:induction false} LostCostReportsZero(ln: real -> real, cfg: LoopConfig, o: PassObservation)
    requires ln(2.0) != 0.0 && ValidConfig(cfg.halt) && cfg.halt.budgetUsd == 0.0 && cfg.costTelemetry
    requires LetsSecondPass(ln, cfg, o)
    ensures var end := Run(ln, cfg, LosingScripts(o));
            && end.st.sink != [] && !AnyRecordedCost(end.st.sink)
            && ReportOf(cfg, end) == LayerReport(end.st.sink, false, Some(0.0))
  {
    LosingRunReachesSecondPass(ln, cfg, o);
    LosingRunEnds(ln, cfg, o);
    SecondPassLoses(cfg, o, StateBefore(ln, cfg, LosingScripts(o), 2));
  }

  lemma {:induction false} LosingRunLoses(ln: real -> real, cfg: LoopConfig, o: PassObservation)
    requires ln(2.0) != 0.0 && ValidConfig(cfg.halt) && cfg.halt.budgetUsd == 0.0 && cfg.costTelemetry
    requires LetsSecondPass(ln, cfg, o)
    ensures LosesFirstPrice(ln, cfg, LosingScripts(o), 2)
  {
    LosingRunReachesSecondPass(ln, cfg, o);
    FirstLosingPass(cfg, o);
  }

  lemma {:induction false} LosingRunEnds(ln: real -> real, cfg: LoopConfig, o: PassObservation)
    requires ln(2.0) != 0.0 && Starts(ln, cfg, LosingScripts(o), 2) && !Continues(ln, cfg, LosingScripts(o), 2)
    ensures var st := StateBefore(ln, cfg, LosingScripts(o), 2);
            var (called, stop) := MakeCalls(cfg, LosingScripts(o)(2), st, 2);
            && st.passes != [] && BooksHold(st, CostsOf(st.passes), false) && Sum(CostsOf(st.passes)) == 0.0
            && stop.Some? && Run(ln, cfg, LosingScripts(o)) == StoppedBy(called, stop.value)
  {
    RunEnds(ln, cfg, LosingScripts(o), 2);
    FirstLosingPass(cfg, o);
  }

  lemma {:induction false} FirstLosingPass(cfg: LoopConfig, o: PassObservation)
    ensures Sum(Costs(cfg, LosingScripts(o), 1)) == 0.0 && !PricedWithin(cfg, LosingScripts(o), 1)
  {
    var scripts := LosingScripts(o);
    ChargesOfUnpriced(cfg, scripts(1));
    assert Costs(cfg, scripts, 1) == [] + Charges(cfg, scripts(1));
  }

  lemma {:induction false} SecondPassLoses(cfg: LoopConfig, o: PassObservation, st: LoopState)
    requires cfg.costTelemetry && st.passes != []
    requires BooksHold(st, CostsOf(st.passes), false) && Sum(CostsOf(st.passes)) == 0.0
    ensures var (called, stop) := MakeCalls(cfg, LosingScripts(o)(2), st, 2);
            && called == st.(anyRealCost := true)
            && (stop.Some? ==>
                  ReportOf(cfg, StoppedBy(called, stop.value)) == LayerReport(st.sink, false, Some(0.0)))
  {
  }

  lemma {:induction false} LosingRunReachesSecondPass(ln: real -> real, cfg: LoopConfig, o: PassObservation)
    requires ln(2.0) != 0.0 && ValidConfig(cfg.halt) && cfg.halt.budgetUsd == 0.0 && cfg.costTelemetry
    requires LetsSecondPass(ln, cfg, o)
    ensures Starts(ln, cfg, LosingScripts(o), 2) && !Continues(ln, cfg, LosingScripts(o), 2)
  {
    var scripts := LosingScripts(o);
    assert Pairs(cfg, scripts, 1) == [];
    var costs := Costs(cfg, scripts, 1);
    FirstDecision(ln, cfg, Observations(scripts, 1), o, Sum(costs), StatsOf(costs));
    assert Divergent(cfg, scripts, 1) == 0 && CallsLand(cfg, scripts(1));
    var decision := DecisionAfter(ln, cfg, scripts, 1);
    assert decision == DecideHalt(ln, cfg.halt, Observations(scripts, 1), Sum(costs), StatsOf(costs));
    assert Continues(ln, cfg, scripts, 1);
  }

  /** What the halt rules make of a single pass when no budget is enforced. */
  lemma {:induction false} FirstDecision(
      ln: real -> real, cfg: LoopConfig, obs: seq<PassObservation>, o: PassObservation, total: real, stats: Stats)
    requires obs == [o]
    requires ln(2.0) != 0.0 && ValidConfig(cfg.halt) && cfg.halt.budgetUsd == 0.0
    requires cfg.halt.algo == Adts ==> 0.0 <= cfg.adts.divergenceThreshold <= 10.0
    ensures var r := DecideHalt(ln, cfg.halt, obs, total, stats);
            r.Ok? && (r.value.halt <==> !LetsSecondPass(ln, cfg, o))
  {
    ValidConfigDecides(ln, cfg.halt, obs, total, stats);
  }

  /** A primary call without a cost, then an adversary's with one that is not persisted. */
  function LosingPairScripts(): Scripts {
    _ => PassScript(Returned(PassOutcome(None, None, Success), true), Returned(PassOutcome(None, Some(1.0), Success), false))
  }

  /** The configurations under which a run can lose its first cost: costs are told, no budget is enforced, and
      there can be a call after the first. */
  lemma {:induction false} LossPossibleExactly(ln: real -> real, cfg: LoopConfig)
    requires ln(2.0) != 0.0
    ensures (exists scripts, n :: LosesFirstPrice(ln, cfg, scripts, n)) <==>
              && ValidConfig(cfg.halt) && cfg.halt.budgetUsd == 0.0 && cfg.costTelemetry
              && (CallsAdversary(cfg) || exists o :: LetsSecondPass(ln, cfg, o))
  {
    if scripts, n :| LosesFirstPrice(ln, cfg, scripts, n) {
      if 1 < n {
        SecondPassWasLet(ln, cfg, scripts);
      }
    }
    if ValidConfig(cfg.halt) && cfg.halt.budgetUsd == 0.0 && cfg.costTelemetry {
      if CallsAdversary(cfg) {
        assert LosesFirstPrice(ln, cfg, LosingPairScripts(), 1);
      } else if o :| LetsSecondPass(ln, cfg, o) {
        LosingRunLoses(ln, cfg, o);
      }
    }
  }

  lemma {:induction false} SecondPassWasLet(ln: real -> real, cfg: LoopConfig, scripts: Scripts)
    requires ln(2.0) != 0.0 && ValidConfig(cfg.halt) && cfg.halt.budgetUsd == 0.0 && Continues(ln, cfg, scripts, 1)
    ensures LetsSecondPass(ln, cfg, ObservationOf(scripts(1)))
  {
    var costs := Costs(cfg, scripts, 1);
    FirstDecision(ln, cfg, Observations(scripts, 1), ObservationOf(scripts(1)), Sum(costs), StatsOf(costs));
  }

  lemma {:induction false} ChargesOfUnpriced(cfg: LoopConfig, script: PassScript)
    requires !AnyCallPriced(cfg, script)
    ensures Sum(Charges(cfg, script)) == 0.0
  {
    OneMoreCost([], 0.0);
    assert Charges(cfg, script) == if CallsAdversary(cfg) then [0.0] + [0.0] else [] + [0.0];
    OneMoreCost([0.0], 0.0);
  }

  /** A primary that scores 11 out of 10, at c a call. */
  function UnscorableScripts(c: real): Scripts {
    _ => PassScript(Returned(PassOutcome(Some(11.0), Some(c), Success), true),
                    Returned(PassOutcome(Some(5.0), Some(c), Success), true))
  }

  /** The second exception is real too: such a score fails the layer after its calls have been paid for
      and recorded, and its report knows nothing of them. */
  lemma {:induction false} BadScoreLosesRows(ln: real -> real, cfg: LoopConfig, c: real)
    requires ln(2.0) != 0.0 && ValidConfig(cfg.halt) && CallsAdversary(cfg) && cfg.costTelemetry && 0.0 <= c
    requires 0.0 <= cfg.adts.divergenceThreshold <= 10.0
    ensures var end := Run(ln, cfg, UnscorableScripts(c));
            && end.Aborted? && end.error == InvalidAdtsScore(11.0, 5.0)
            && CostsOf(end.st.sink) == [c, c]
            && ReportOf(cfg, end) == LayerReport([], true, None)
  {
    var scripts := UnscorableScripts(c);
    assert AbortsAfterCalls(ln, cfg, scripts, 1);
    AbortKeepsRows(ln, cfg, scripts, 1);
    assert Costs(cfg, scripts, 1) == [] + Charges(cfg, scripts(1));
  }

  /* ---- Budget ---- */

  /** n costs with this mean make up the total, and one more call at the mean is within the budget. */
  predicate HasRoom(mean: real, n: nat, total: real, budget: real) {
    n as real * mean == total && (n + 1) as real * mean <= budget
  }

  /** Under an enforced budget every pass of every run, whatever its end, starts only when what was spent
      before its first call and the projected cost of that call fit the budget; so the first pass
      always starts, and a later one only with room for one more call at the mean. */
  lemma {:induction false} PassesStartWithinBudget(ln: real -> real, cfg: LoopConfig, scripts: Scripts, i: nat)
    requires ln(2.0) != 0.0 && 0 < cfg.halt.maxPasses && 0.0 < cfg.halt.budgetUsd
    requires IsPassStart(Run(ln, cfg, scripts).st.passes, i)
    ensures var before := CostsOf(Run(ln, cfg, scripts).st.passes)[..i];
            && Sum(before) + ProjectNext(StatsOf(before), ColdStartSeed(cfg.halt)) <= cfg.halt.budgetUsd
            && (0 < i <= U32_MAX ==> HasRoom(StatsOf(before).mean, i, Sum(before), cfg.halt.budgetUsd))
  {
    var rows := Run(ln, cfg, scripts).st.passes;
    RunSpends(ln, cfg, scripts);
    assert StartFits(cfg, rows[..i]);
    assert CostsOf(rows[..i]) == CostsOf(rows)[..i];
    if 0 < i <= U32_MAX {
      RoomForOneMore(cfg.halt, CostsOf(rows)[..i]);
    }
  }

  lemma {:induction false} RunSpends(ln: real -> real, cfg: LoopConfig, scripts: Scripts)
    requires ln(2.0) != 0.0 && 0 < cfg.halt.maxPasses
    ensures var rows := Run(ln, cfg, scripts).st.passes;
            && SpendJustified(cfg, rows) && PassByPass(rows, CallsPerPass(cfg), cfg.halt.maxPasses)
            && |rows| <= CallsPerPass(cfg) * cfg.halt.maxPasses
  {
    RunKeepsInvariant(ln, cfg, scripts);
  }

  lemma {:induction false} RoomForOneMore(cfg: HaltConfig, before: seq<real>)
    requires 0 < cfg.maxPasses && 0.0 < cfg.budgetUsd && 0 < |before| <= U32_MAX
    requires FitsBudget(cfg, Sum(before), StatsOf(before))
    ensures HasRoom(StatsOf(before).mean, |before|, Sum(before), cfg.budgetUsd)
  {
    StatsAreAverages(before);
    DeviationNonnegative(before);
    OneMoreMean(cfg, StatsOf(before), |before|, Sum(before), TotalDeviation(before));
  }

  lemma {:induction false} DeviationNonnegative(costs: seq<real>)
    ensures 0.0 <= StatsOf(costs).mad
  {
    if costs != [] {
      var front, c := costs[..|costs| - 1], costs[|costs| - 1];
      DeviationNonnegative(front);
      var s, s' := StatsOf(front), StatsOf(costs);
      StepWithin(s'.n as real, s.mad, Abs(c - s'.mean), 0.0, s.mad + Abs(c - s'.mean));
    }
  }

  lemma {:induction false} OneMoreMean(cfg: HaltConfig, s: Stats, n: nat, total: real, deviation: real)
    requires 0 < cfg.maxPasses && 0.0 < cfg.budgetUsd && 0 < n
    requires Averages(s, n, total, deviation) && 0.0 <= s.mad && FitsBudget(cfg, total, s)
    ensures HasRoom(s.mean, n, total, cfg.budgetUsd)
  {
    assert (n + 1) as real * s.mean == n as real * s.mean + s.mean;
  }

  /** Counting from call k: the total exceeds the budget by at most what these calls cost beyond the
      one projected before them. */
  predicate OverspendFrom(cfg: LoopConfig, costs: seq<real>, k: nat)
    requires 0 < cfg.halt.maxPasses && k <= |costs|
  {
    Sum(costs) <= cfg.halt.budgetUsd + Sum(costs[k..]) - ProjectNext(StatsOf(costs[..k]), ColdStartSeed(cfg.halt))
  }

  /** Row k is the first of the last pass. */
  predicate StartsLastPass(rows: seq<PassResult>, k: int) {
    IsPassStart(rows, k) && forall j :: k <= j < |rows| ==> rows[j].index == rows[k].index
  }

  /** A run is over budget by at most what its last pass cost beyond the one projected call. */
  lemma {:induction false} SpendBound(ln: real -> real, cfg: LoopConfig, scripts: Scripts)
    requires ln(2.0) != 0.0 && 0 < cfg.halt.maxPasses && 0.0 < cfg.halt.budgetUsd
    ensures var rows := Run(ln, cfg, scripts).st.passes;
            && |rows| <= CallsPerPass(cfg) * cfg.halt.maxPasses
            && (rows != [] ==> exists k :: StartsLastPass(rows, k) && |rows| <= k + CallsPerPass(cfg)
                                           && OverspendFrom(cfg, CostsOf(rows), k))
  {
    RunSpends(ln, cfg, scripts);
    RowsBound(cfg, Run(ln, cfg, scripts).st.passes, cfg.halt.maxPasses);
  }

  lemma {:induction false} RowsBound(cfg: LoopConfig, rows: seq<PassResult>, last: nat)
    requires 0 < cfg.halt.maxPasses && 0.0 < cfg.halt.budgetUsd
    requires SpendJustified(cfg, rows) && PassByPass(rows, CallsPerPass(cfg), last)
    ensures rows != [] ==> exists k :: StartsLastPass(rows, k) && |rows| <= k + CallsPerPass(cfg)
                                       && OverspendFrom(cfg, CostsOf(rows), k)
  {
    if rows != [] {
      var k := LastPassStart(rows, |rows| - 1);
      assert StartFits(cfg, rows[..k]);
      assert CostsOf(rows[..k]) == CostsOf(rows)[..k];
      SumSplits(CostsOf(rows), k);
      assert rows[k].index == rows[|rows| - 1].index;
    }
  }

  lemma {:induction false} LastPassStart(rows: seq<PassResult>, from: nat) returns (k: nat)
    requires from < |rows| && forall j :: from <= j < |rows| ==> rows[j].index == rows[from].index
    ensures StartsLastPass(rows, k)
  {
    if from == 0 || rows[from - 1].index != rows[from].index {
      k := from;
    } else {
      k := LastPassStart(rows, from - 1);
    }
  }

  lemma {:induction false} SumSplits(costs: seq<real>, k: nat)
    requires k <= |costs|
    ensures Sum(costs) == Sum(costs[..k]) + Sum(costs[k..])
  {
    if k == |costs| {
      assert costs[..k] == costs && costs[k..] == [];
    } else {
      var front := costs[..|costs| - 1];
      SumSplits(front, k);
      assert front[..k] == costs[..k];
      assert costs[k..] == front[k..] + [costs[|costs| - 1]];
      OneMoreCost(front[k..], costs[|costs| - 1]);
    }
  }

  predicate IsMultiple(x: real, n: nat, c: real) {
    x == n as real * c
  }

  lemma {:induction false} SteadySum(c: real, n: nat)
    ensures IsMultiple(Sum(Repeat(c, n)), n, c)
  {
    if n > 0 {
      SteadySum(c, n - 1);
      assert Repeat(c, n) == Repeat(c, n - 1) + [c];
      OneMoreCost(Repeat(c, n - 1), c);
      OneMoreTerm(Sum(Repeat(c, n - 1)), n - 1, c);
    }
  }

  lemma {:induction false} OneMoreTerm(x: real, n: nat, c: real)
    requires IsMultiple(x, n, c)
    ensures IsMultiple(x + c, n + 1, c)
  {
  }

  /** With one call per pass and a steady cost that fits the budget once, the budget is never overspent. */
  lemma {:induction false} SteadyRunsStayWithinBudget(ln: real -> real, cfg: LoopConfig, scripts: Scripts, c: real)
    requires ln(2.0) != 0.0 && 0 < cfg.halt.maxPasses && 0.0 <= c <= cfg.halt.budgetUsd && 0.0 < cfg.halt.budgetUsd
    requires !CallsAdversary(cfg)
    requires var costs := CostsOf(Run(ln, cfg, scripts).st.passes); costs == Repeat(c, |costs|)
    ensures Sum(CostsOf(Run(ln, cfg, scripts).st.passes)) <= cfg.halt.budgetUsd
  {
    SpendBound(ln, cfg, scripts);
    var rows := Run(ln, cfg, scripts).st.passes;
    if rows != [] {
      var k :| StartsLastPass(rows, k) && |rows| <= k + CallsPerPass(cfg) && OverspendFrom(cfg, CostsOf(rows), k);
      SteadyOverspend(cfg, c, CostsOf(rows), k);
    }
  }

  lemma {:induction false} SteadyOverspend(cfg: LoopConfig, c: real, costs: seq<real>, k: nat)
    requires 0 < cfg.halt.maxPasses && c <= cfg.halt.budgetUsd
    requires costs == Repeat(c, k + 1) && OverspendFrom(cfg, costs, k)
    ensures Sum(costs) <= cfg.halt.budgetUsd
  {
    assert costs[..k] == Repeat(c, k);
    assert costs[k..] == [] + [c];
    OneMoreCost([], c);
    SteadyStats(c, k);
    if k == 0 {
      assert costs == costs[k..];
    }
  }

  /* ---- Two evaluators, one projection ---- */

  /** A persisted call that costs c. */
  predicate CostsExactly(call: Call, c: real) {
    call.Returned? && call.persisted && call.outcome.cost == Some(c)
  }

  /** Both evaluators cost c a call, every row is persisted, and the scores never diverge. */
  ghost predicate SteadyPairs(cfg: LoopConfig, scripts: Scripts, c: real) {
    && 0.0 <= cfg.adts.divergenceThreshold <= 10.0
    && forall n: nat ::
         && CostsExactly(scripts(n).primary, c) && CostsExactly(scripts(n).adversary, c)
         && forall pair :: pair in NewPair(cfg, scripts(n)) ==> ValidPair(pair) && !Apart(pair, cfg.adts.divergenceThreshold)
  }

  lemma {:induction false} SteadyCosts(cfg: LoopConfig, scripts: Scripts, c: real, n: nat)
    requires CallsAdversary(cfg) && cfg.costTelemetry && 0.0 <= c && SteadyPairs(cfg, scripts, c)
    ensures Costs(cfg, scripts, n) == Repeat(c, 2 * n) && CallsLand(cfg, scripts(n))
  {
    assert CostsExactly(scripts(n).primary, c) && CostsExactly(scripts(n).adversary, c);
    if n > 0 {
      SteadyCosts(cfg, scripts, c, n - 1);
      assert Repeat(c, 2 * n) == Repeat(c, 2 * n - 2) + [c, c];
    }
  }

  lemma {:induction false} SteadyScores(cfg: LoopConfig, scripts: Scripts, c: real, n: nat)
    requires SteadyPairs(cfg, scripts, c)
    ensures ValidInput(Pairs(cfg, scripts, n), cfg.adts) && !Diverges(Pairs(cfg, scripts, n), cfg.adts)
    ensures Divergent(cfg, scripts, n) == 0
  {
    if n > 0 {
      SteadyScores(cfg, scripts, c, n - 1);
      var more := NewPair(cfg, scripts(n));
      FirstInvalidOfMore(Pairs(cfg, scripts, n - 1), more);
      if more != [] {
        assert more[0] in more;
        assert FirstInvalid(more[1..]).None?;
      }
    }
  }

  predicate Affords(budget: real, c: real, calls: nat) {
    calls as real * c <= budget
  }

  lemma {:induction false} SteadyProjection(cfg: HaltConfig, c: real, n: nat)
    requires 0 < cfg.maxPasses && 0.0 < cfg.budgetUsd && 0 < n
    ensures FitsBudget(cfg, Sum(Repeat(c, 2 * n)), StatsOf(Repeat(c, 2 * n))) <==> Affords(cfg.budgetUsd, c, 2 * n + 1)
  {
    SteadySum(c, 2 * n);
    SteadyStats(c, 2 * n);
    assert (2 * n + 1) as real * c == (2 * n) as real * c + c;
  }

  lemma {:induction false} SteadyContinues(ln: real -> real, cfg: LoopConfig, scripts: Scripts, c: real, n: nat)
    requires ln(2.0) != 0.0 && ValidConfig(cfg.halt) && 0.0 < cfg.halt.budgetUsd && 0.0 <= c
    requires CallsAdversary(cfg) && cfg.costTelemetry && SteadyPairs(cfg, scripts, c)
    requires 0 < n <= cfg.halt.maxPasses
    ensures Continues(ln, cfg, scripts, n) <==> n < cfg.halt.maxPasses && Affords(cfg.halt.budgetUsd, c, 2 * n + 1)
  {
    SteadyCosts(cfg, scripts, c, n);
    SteadyScores(cfg, scripts, c, n);
    SteadyProjection(cfg.halt, c, n);
    var costs := Costs(cfg, scripts, n);
    ValidConfigDecides(ln, cfg.halt, Observations(scripts, n), Sum(costs), StatsOf(costs));
  }

  /** Pass n + 1 starts, and its two calls do not fit. */
  predicate OverspendsAfter(cfg: HaltConfig, c: real, n: nat) {
    && n < cfg.maxPasses && (n == 0 || Affords(cfg.budgetUsd, c, 2 * n + 1))
    && !Affords(cfg.budgetUsd, c, 2 * n + 2)
  }

  lemma {:induction false} FewerCallsCostLess(budget: real, c: real, m: nat, n: nat)
    requires 0.0 <= c && m <= n && Affords(budget, c, n)
    ensures Affords(budget, c, m)
  {
    assert n as real * c == m as real * c + (n - m) as real * c;
  }

  /** The run makes passes until one more call at c would not fit, so it may end with a call too many. */
  lemma {:induction false} SteadyRun(ln: real -> real, cfg: LoopConfig, scripts: Scripts, c: real) returns (n: nat)
    requires ln(2.0) != 0.0 && ValidConfig(cfg.halt) && 0.0 < cfg.halt.budgetUsd && 0.0 <= c
    requires CallsAdversary(cfg) && cfg.costTelemetry && SteadyPairs(cfg, scripts, c)
    ensures 0 < n <= cfg.halt.maxPasses
    ensures n == cfg.halt.maxPasses || !Affords(cfg.halt.budgetUsd, c, 2 * n + 1)
    ensures n == 1 || Affords(cfg.halt.budgetUsd, c, 2 * n - 1)
    ensures IsMultiple(Sum(CostsOf(Run(ln, cfg, scripts).st.passes)), 2 * n, c)
  {
    n := SteadyLastPass(ln, cfg, scripts, c);
    SteadyCosts(cfg, scripts, c, n);
    LandedRunCosts(ln, cfg, scripts, n);
    SteadySum(c, 2 * n);
  }

  lemma {:induction false} SteadyLastPass(ln: real -> real, cfg: LoopConfig, scripts: Scripts, c: real) returns (n: nat)
    requires ln(2.0) != 0.0 && ValidConfig(cfg.halt) && 0.0 < cfg.halt.budgetUsd && 0.0 <= c
    requires CallsAdversary(cfg) && cfg.costTelemetry && SteadyPairs(cfg, scripts, c)
    ensures Starts(ln, cfg, scripts, n) && !Continues(ln, cfg, scripts, n) && 0 < n <= cfg.halt.maxPasses
    ensures n == cfg.halt.maxPasses || !Affords(cfg.halt.budgetUsd, c, 2 * n + 1)
    ensures n == 1 || Affords(cfg.halt.budgetUsd, c, 2 * n - 1)
  {
    n := LastPassExists(ln, cfg, scripts, 1);
    SteadyStart(ln, cfg, scripts, c, n);
    SteadyContinues(ln, cfg, scripts, c, n);
  }

  lemma {:induction false} SteadyStart(ln: real -> real, cfg: LoopConfig, scripts: Scripts, c: real, n: nat)
    requires ln(2.0) != 0.0 && Starts(ln, cfg, scripts, n) && 0.0 < cfg.halt.budgetUsd && 0.0 <= c
    requires CallsAdversary(cfg) && cfg.costTelemetry && SteadyPairs(cfg, scripts, c)
    ensures n <= cfg.halt.maxPasses && (n == 1 || Affords(cfg.halt.budgetUsd, c, 2 * n - 1))
  {
    StartedPassFits(ln, cfg, scripts, n);
    if n > 1 {
      SteadyContinues(ln, cfg, scripts, c, n - 1);
    }
  }

  /** A pass with an adversary makes two calls, but the check before it projects only one. At a steady
      cost c the run overspends exactly when some pass may start and its two calls do not fit. */
  lemma {:induction false} AdversaryOverspends(ln: real -> real, cfg: LoopConfig, scripts: Scripts, c: real)
    requires ln(2.0) != 0.0 && ValidConfig(cfg.halt) && 0.0 < cfg.halt.budgetUsd && 0.0 <= c
    requires CallsAdversary(cfg) && cfg.costTelemetry && SteadyPairs(cfg, scripts, c)
    ensures Sum(CostsOf(Run(ln, cfg, scripts).st.passes)) > cfg.halt.budgetUsd <==>
            exists n :: OverspendsAfter(cfg.halt, c, n)
  {
    var last := SteadyRun(ln, cfg, scripts, c);
    LastPassOverspends(cfg.halt, c, last, Sum(CostsOf(Run(ln, cfg, scripts).st.passes)));
  }

  lemma {:induction false} LastPassOverspends(cfg: HaltConfig, c: real, last: nat, spent: real)
    requires 0.0 <= c && 0 < last <= cfg.maxPasses
    requires last == cfg.maxPasses || !Affords(cfg.budgetUsd, c, 2 * last + 1)
    requires last == 1 || Affords(cfg.budgetUsd, c, 2 * last - 1)
    requires IsMultiple(spent, 2 * last, c)
    ensures spent > cfg.budgetUsd <==> exists n :: OverspendsAfter(cfg, c, n)
  {
    forall n: nat | OverspendsAfter(cfg, c, n) ensures last == n + 1 {
      if last <= n {
        FewerCallsCostLess(cfg.budgetUsd, c, 2 * last + 1, 2 * n + 1);
      } else if n + 1 < last {
        FewerCallsCostLess(cfg.budgetUsd, c, 2 * n + 2, 2 * last - 1);
      }
    }
    if !Affords(cfg.budgetUsd, c, 2 * last) {
      assert OverspendsAfter(cfg, c, last - 1);
    }
  }

  /** In terms of what the budget buys: it overspends exactly when the budget buys no call at all, or an odd
      number of calls within the pass limit. */
  lemma {:induction false} OverspendsOnOddQuotient(cfg: HaltConfig, c: real)
    requires 0 < cfg.maxPasses && 0.0 < cfg.budgetUsd && 0.0 < c
    ensures var calls := (cfg.budgetUsd / c).Floor;
            (exists n :: OverspendsAfter(cfg, c, n)) <==>
              calls == 0 || (calls % 2 == 1 && calls / 2 < cfg.maxPasses)
  {
    var calls := (cfg.budgetUsd / c).Floor;
    forall k: nat ensures Affords(cfg.budgetUsd, c, k) <==> k <= calls {
      BuysExactly(cfg.budgetUsd, c, k);
    }
    BuysExactly(cfg.budgetUsd, c, 0);
    if calls == 0 {
      assert OverspendsAfter(cfg, c, 0);
    } else if calls % 2 == 1 && calls / 2 < cfg.maxPasses {
      assert OverspendsAfter(cfg, c, calls / 2);
    }
  }

  lemma {:induction false} BuysExactly(budget: real, c: real, k: nat)
    requires 0.0 < budget && 0.0 < c
    ensures 0 <= (budget / c).Floor
    ensures Affords(budget, c, k) <==> k <= (budget / c).Floor
  {
    var q := budget / c;
    var rest := q - k as real;
    assert q * c == budget && 0.0 < q;
    assert rest * c == budget - k as real * c;
    if k as real <= q {
      assert 0.0 <= rest * c;
    } else {
      assert rest * c < 0.0;
    }
  }

  /** For one: a budget for three calls, and two passes, pays for four. */
  lemma {:induction false} ThreeCallsBuyFour(ln: real -> real, cfg: LoopConfig, scripts: Scripts, c: real)
    requires ln(2.0) != 0.0 && ValidConfig(cfg.halt) && 0.0 < c
    requires CallsAdversary(cfg) && cfg.costTelemetry && SteadyPairs(cfg, scripts, c)
    requires cfg.halt.maxPasses == 2 && cfg.halt.budgetUsd == 3.0 * c
    ensures Sum(CostsOf(Run(ln, cfg, scripts).st.passes)) == 4.0 * c > cfg.halt.budgetUsd
  {
    var n := SteadyRun(ln, cfg, scripts, c);
    FourCalls(cfg.halt.budgetUsd, c, n, Sum(CostsOf(Run(ln, cfg, scripts).st.passes)));
  }

  lemma {:induction false} FourCalls(budget: real, c: real, n: nat, spent: real)
    requires 0.0 < c && budget == 3.0 * c && 0 < n <= 2 && IsMultiple(spent, 2 * n, c)
    requires n == 2 || !Affords(budget, c, 2 * n + 1)
    ensures spent == 4.0 * c > budget
  {
    assert Affords(budget, c, 3);
  }

  /** A budget halt never comes before the first pass: the cold-start seed cannot block it. */
  lemma {:induction false} BudgetHaltHasSpent(ln: real -> real, cfg: LoopConfig, scripts: Scripts)
    requires ln(2.0) != 0.0 && 0 < cfg.halt.maxPasses
    ensures HaltsWith(ln, cfg, scripts, ByReason(Budget)) ==> Answer(ln, cfg, scripts).value.value.passes != []
  {
    RunKeepsInvariant(ln, cfg, scripts);
  }

  /** The fall-through after the last pass is reached exactly when no pass was allowed at all. */
  lemma {:induction false} NaturalExitNeedsZeroPasses(ln: real -> real, cfg: LoopConfig, scripts: Scripts)
    requires ln(2.0) != 0.0
    ensures HaltsWith(ln, cfg, scripts, NaturalExit) <==> cfg.halt.maxPasses == 0
  {
    if 0 < cfg.halt.maxPasses {
      RunKeepsInvariant(ln, cfg, scripts);
    }
  }

  /* ---- Escalation ---- */

  /** Over any run the escalation events climb the ladder in pass order, and each request carries
      the escalated flags exactly in the pass right after the event that asked for them. */
  lemma {:induction false} EscalationsClimb(ln: real -> real, cfg: LoopConfig, scripts: Scripts)
    requires ln(2.0) != 0.0 && 0 < cfg.halt.maxPasses
    ensures var st := Run(ln, cfg, scripts).st;
            && Verdicts(st.events) <= LadderOf(cfg.adts.maxDivergenceEscalations)
            && InPassOrder(st.events, cfg.halt.maxPasses)
            && FlagsFollowEvents(st.passes, st.events, cfg.halt.maxPasses)
            && (cfg.halt.algo != Adts ==> st.events == [])
  {
    RunKeepsInvariant(ln, cfg, scripts);
  }

  /* ---- Statistical error of the whole loop ---- */

  /** Providers whose pass outcomes are those of `run`; scores, costs and failures are arbitrary. */
  ghost predicate Replays(scripts: Scripts, run: seq<PassObservation>) {
    forall i :: 0 < i <= |run| ==>
      scripts(i).primary.Returned? ==> scripts(i).primary.outcome.observation == run[i - 1]
  }

  /** The two verdicts of the SPRT, as a halt reason and as a rule on the outcomes. */
  predicate SprtSays(ln: real -> real, cfg: HaltConfig, verdict: HaltReason, run: seq<PassObservation>) {
    match verdict
    case SprtConfidenceReached => Accepts(ln, run, cfg.sprt, cfg.minConfidence)
    case SprtRejected => Rejects(ln, run, cfg.sprt, cfg.minConfidence)
    case _ => false
  }

  predicate IsSprtVerdict(verdict: HaltReason) {
    verdict == SprtConfidenceReached || verdict == SprtRejected
  }

  /** The loop reports a verdict of the SPRT only on a prefix of the outcomes on which the SPRT itself
      gives it. */
  lemma {:induction false} VerdictNeedsSprt(
      ln: real -> real, cfg: LoopConfig, scripts: Scripts, run: seq<PassObservation>, verdict: HaltReason,
      st: LoopState, index: nat)
    requires ln(2.0) != 0.0 && IsSprtVerdict(verdict) && Replays(scripts, run) && cfg.halt.maxPasses <= |run|
    requires 0 < index <= |run| + 1 && st.observations == run[..index - 1]
    ensures var end := RunFrom(ln, cfg, scripts, st, index);
            end.Halted? && end.halt == ByReason(verdict) ==> HitsAtSomePrefix(r => SprtSays(ln, cfg.halt, verdict, r), run)
    decreases cfg.halt.maxPasses + 1 - index
  {
    if index <= cfg.halt.maxPasses {
      var end := RunPass(ln, cfg, scripts(index), st, index);
      PassObserves(ln, cfg, scripts(index), st, index, verdict);
      assert run[..index] == run[..index - 1] + [run[index - 1]];
      match end {
        case Again(st') => VerdictNeedsSprt(ln, cfg, scripts, run, verdict, st', index + 1);
        case Halted(st', halt, _) =>
          var says := (r: seq<PassObservation>) => SprtSays(ln, cfg.halt, verdict, r);
          assert halt == ByReason(verdict) ==> says(run[..index]);
        case _ =>
      }
    }
  }

  /** A pass that goes on, or that halts on the verdict, has observed exactly the outcome of its primary
      call; and it halts so only if that is what the SPRT says of all that was observed. */
  lemma {:induction false} PassObserves(
      ln: real -> real, cfg: LoopConfig, script: PassScript, st: LoopState, index: nat, verdict: HaltReason)
    requires ln(2.0) != 0.0 && IsSprtVerdict(verdict)
    ensures var end := RunPass(ln, cfg, script, st, index);
            (end.Again? || (end.Halted? && end.halt == ByReason(verdict))) ==>
              && script.primary.Returned?
              && end.st.observations == st.observations + [script.primary.outcome.observation]
              && (end.Halted? ==> SprtSays(ln, cfg.halt, verdict, end.st.observations))
  {
    CallsOnlyAppend(cfg, script, st, index);
    var (called, stop) := MakeCalls(cfg, script, st, index);
    EscalateLeavesBooks(cfg, script, called, index);
    PostCheckReason(ln, cfg, Escalate(cfg, script, called, index), verdict);
  }

  lemma {:induction false} PostCheckReason(ln: real -> real, cfg: LoopConfig, end: PassEnd, verdict: HaltReason)
    requires ln(2.0) != 0.0 && IsSprtVerdict(verdict) && (end.Halted? ==> end.halt == ByReason(AdtsEscalationExhausted))
    ensures var r := PostCheck(ln, cfg, end);
            && (r.Again? ==> r == end)
            && (r.Halted? && r.halt == ByReason(verdict) ==>
                  end.Again? && r.st == end.st && SprtSays(ln, cfg.halt, verdict, r.st.observations))
  {
  }

  /** `hit` holds only of outcomes on which the loop, in the environment they bring about, reports the
      verdict. */
  ghost predicate HitsNeedReport(
      ln: real -> real, cfg: LoopConfig, env: seq<PassObservation> -> Scripts, verdict: HaltReason, hit: Rule)
    requires ln(2.0) != 0.0
  {
    forall run: seq<PassObservation> ::
      Replays(env(run), run) && (hit(run) ==> cfg.halt.maxPasses <= |run| && HaltsWith(ln, cfg, env(run), ByReason(verdict)))
  }

  lemma {:induction false} HitsNeedVerdict(
      ln: real -> real, cfg: LoopConfig, env: seq<PassObservation> -> Scripts, verdict: HaltReason, hit: Rule)
    requires ln(2.0) != 0.0 && IsSprtVerdict(verdict) && HitsNeedReport(ln, cfg, env, verdict, hit)
    ensures NeedsStop(hit, r => SprtSays(ln, cfg.halt, verdict, r))
  {
    var says := (r: seq<PassObservation>) => SprtSays(ln, cfg.halt, verdict, r);
    forall run: seq<PassObservation> | hit(run) ensures HitsAtSomePrefix(says, run) {
      assert Replays(env(run), run);
      assert run[..0] == [];
      VerdictNeedsSprt(ln, cfg, env(run), run, verdict, INITIAL, 1);
    }
  }

  lemma {:induction false} SameRule(hit: Rule, a: Rule, b: Rule)
    requires NeedsStop(hit, a) && forall run: seq<PassObservation> :: a(run) ==> b(run)
    ensures NeedsStop(hit, b)
  {
  }

  /** End to end: if passes succeed by pure chance, the whole loop reports "confidence reached" with
      probability at most 1/A, for every algorithm, pass limit, budget, cost stream and failure
      pattern, even when these depend on the outcomes. */
  lemma {:induction false} LoopFalseAcceptBound(
      ln: real -> real, cfg: LoopConfig, env: seq<PassObservation> -> Scripts, hit: Rule)
    requires IsLogarithm(ln) && ln(2.0) != 0.0 && ValidSprt(cfg.halt.sprt, cfg.halt.minConfidence)
    requires HitsNeedReport(ln, cfg, env, SprtConfidenceReached, hit)
    ensures HitMass(0.5, hit, [], cfg.halt.maxPasses) <= 1.0 / cfg.halt.sprt.acceptThreshold
  {
    HitsNeedVerdict(ln, cfg, env, SprtConfidenceReached, hit);
    SameRule(hit, r => SprtSays(ln, cfg.halt, SprtConfidenceReached, r),
             r => Accepts(ln, r, cfg.halt.sprt, cfg.halt.minConfidence));
    FalseAcceptBound(ln, cfg.halt.sprt, cfg.halt.minConfidence, hit, cfg.halt.maxPasses);
  }

  /** Dually, if passes succeed with probability min_confidence, it reports "rejected" with probability at
      most B. */
  lemma {:induction false} LoopFalseRejectBound(
      ln: real -> real, cfg: LoopConfig, env: seq<PassObservation> -> Scripts, hit: Rule)
    requires IsLogarithm(ln) && ln(2.0) != 0.0 && ValidSprt(cfg.halt.sprt, cfg.halt.minConfidence)
    requires HitsNeedReport(ln, cfg, env, SprtRejected, hit)
    ensures HitMass(cfg.halt.minConfidence, hit, [], cfg.halt.maxPasses) <= cfg.halt.sprt.rejectThreshold
  {
    HitsNeedVerdict(ln, cfg, env, SprtRejected, hit);
    SameRule(hit, r => SprtSays(ln, cfg.halt, SprtRejected, r),
             r => Rejects(ln, r, cfg.halt.sprt, cfg.halt.minConfidence));
    FalseRejectBound(ln, cfg.halt.sprt, cfg.halt.minConfidence, hit, cfg.halt.maxPasses);
  }
}
