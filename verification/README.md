# Verification of PICE's decision logic

These Dafny modules model the parts of PICE whose correctness is not visible from any one function, and prove what
they promise over all inputs, all runs and all interleavings:

* the adaptive evaluator: the sequential probability ratio test, the entropy rule, the escalation ladder, the cost
  projector, the budget dispatcher, the pass loop that puts them together, what it answers, and what becomes of the
  layer (`Sprt`, `VerificationEntropy`, `Escalation`, `CostProjector`, `HaltDispatch`, `AdaptiveLoop`, `AdaptiveRuns`,
  `AdaptiveAnswers`, `AdaptiveGuarantees`, `LayerVerdicts`);
* the diff filter that isolates layers from each other (`DiffSections`, `DiffPath`, `DiffFilter`);
* the life of review gates: firing, decisions, timeouts, the reject budget and the audit store (`GateTypes`,
  `GateCohort`, `GateRuns`, `GateHistory`, `GateBudget`, `GateAudit`);
* three concurrent protocols: the test clock, the daemon's start-up and shut-down, and the recovery of a stale socket
  (`MockClock`, `DaemonLifecycle`, `SocketRecovery`);
* the layer graph: cycle detection, validation, cohorts, activation, and the configuration emitted by detection
  (`LayerCycles`, `LayerValidation`, `LayerCohorts`, `LayerActivation`, `LayerDetect`, `LayerEmit`);
* the plan parser and the notification debounce (`PlanParser`, `Debounce`);
* two client state machines: waiting for a background run, and the Codex child registry and stream
  (`BackgroundWait`, `CodexWorkflow`).

`Common`, `Text`, `NameOrder`, `Logarithm`, `LayerConfig` and `AdaptiveTypes` hold what several of them share.
`dafny verify dfyconfig.toml` checks everything.

Code that changes things in place is modelled by classes and loops (`CostStats`, `Manifest`, `LayerMap`,
`NotificationState`, `ChildRegistry`, the scans, searches and the pass loop); each such method is tied by its
`ensures` to a function of its inputs or of the old state, and the promises are proved about that function. Each
concurrent protocol is a state machine whose steps are the atomic steps of the code, in any order.

## Where code and documentation differ

The model follows the code. The differences it makes precise:

* `cost.rs` cites RFC 6298 section 3.4; the rule is that of section 2, and the deviation is updated with the new
  mean where section 2.3 uses the old one.
* `vec.rs` halts on entropy whatever the confidence; the layer passes only if `stack_loops.rs` finds the confidence high
  enough, which it never does for a min_confidence above the ceiling of 0.966: `CeilingBlocksEntropy`.
* `cost.rs` promises that a spike makes the next projection over-estimate; `SpikeProjection` shows that this holds
  exactly up to the fourth pass.
* `adaptive_loop.rs` says the cold-start seed may block the first pass; `FirstPassAlwaysFits` shows that it cannot.
* The budget check projects one call, but a pass with an adversary makes two: `AdversaryOverspends` says exactly
  when a run overspends for it, `ThreeCallsBuyFour` gives one that does.
* `adaptive_loop.rs` promises that the manifest's costs are those of the durable rows. `CostsReconcile` says exactly
  when they are not: when the first call with a cost is not persisted (`LostCostReportsZero`), when the layer fails
  on a score or a divergence threshold outside [0, 10] after its calls were recorded (`BadScoreLosesRows`), and when
  the layer is cancelled after its first call landed (`CancelledLayerLosesRows`, `SecondCallCancelled`).
* `validate.rs` rejects such a threshold and, for now, standalone ADTS, so under a validated workflow with an enforced
  budget only a cancellation is left (`ValidatedBudgetsReconcileExactly`). `AdversaryOverspends`, `ThreeCallsBuyFour`
  and `BadScoreLosesRows` are about the support for ADTS that the loop has all the same.
* `filter.rs` promises the new path of a diff header; `PlainHeader`, `QuotedHeader`, `OldQuotedHeader` and
  `NewQuotedHeader` say exactly when it is found. Found is the raw text between quotes: Git escapes inside them, which
  the code does not undo.
* The decision handler records `gate_rejected` for a layer that fails by a timeout, where `cli/mod.rs` promises
  `gate_timeout_reject`: `TimeoutPathsAgreeExactly`.
* The reconciler takes any earlier audit row for its own: after a lost save it applies the timeout action against a
  reviewer's recorded decision (`RunAgreesExactly`, `LostSaveIsOverruled`). It promises the audit row before the
  update, but settles gates without any row when the store does not open (`UnopenedStoreIsSkipped`).
* `lifecycle.rs` drains the jobs when all connection tasks are settled; the handler of `daemon/shutdown` drains them
  earlier, in the middle of a task: `HandlerDrainsAmongTasks`.
* `server/unix.rs` calls its probe for a stale socket sound: `StepKeepsExactly` and `CarelessProbeBreaks` in
  `SocketRecovery` say exactly when it is.
* `find_h2_heading` is documented to return the offset of the `##` but returns that of the line: `ReturnsLineStart`.
* A contract section without a fence is documented as an error, but takes the fence of a later section:
  `FencelessSectionExactly`, `DataTakenForContract`.

## Model

| member | source | states |
|---|---|---|
| `AdaptiveTypes.CountsAreMultiplicities` | crates/pice-core/src/adaptive/sprt.rs:119-124 | the two counts of a history are the multiplicities of its outcomes, so order cannot matter |
| `AdaptiveTypes.CountOneMore` | crates/pice-core/src/adaptive/sprt.rs:119-124 | one more pass changes exactly one of the two counts, by one |
| `Sprt.RunSprt` | crates/pice-core/src/adaptive/sprt.rs:36-112 | the reported confidence never exceeds 0.966; a configuration error is reported exactly for an empty threshold band, a confidence outside (0, 1) or a prior that is not positive |
| `Sprt.LogLrIsLogOfRatio` | crates/pice-core/src/adaptive/sprt.rs:87-98 | the counted log ratio is the logarithm of the product of one likelihood ratio per outcome |
| `Sprt.DecisionIsRatioTest` | crates/pice-core/src/adaptive/sprt.rs:87-111 | the log tests accept and reject exactly where the product of likelihood ratios crosses A and B |
| `Sprt.OrderIrrelevant` | crates/pice-core/src/adaptive/sprt.rs:36-124 | two histories with the same outcomes in any order get the same decision, reason and confidence |
| `Sprt.StoppingBound` | crates/pice-core/src/adaptive/sprt.rs:71-111 | for any stopping rule under which the ratio is at least c, the mass of the runs that ever stop is at most 1/c: the ratio is conserved in expectation |
| `Sprt.FalseAcceptBound` | crates/pice-core/src/adaptive/sprt.rs:71-111 | Wald: for every horizon, under p = 1/2 the runs on which the test accepts at some prefix weigh at most 1/A |
| `Sprt.FalseRejectBound` | crates/pice-core/src/adaptive/sprt.rs:71-111 | Wald: for every horizon, under p = min_confidence the runs on which it rejects at some prefix weigh at most B |
| `Sprt.EvidenceNeverUndoes` | crates/pice-core/src/adaptive/sprt.rs:87-111 | for min_confidence of at least 1/2 one more success keeps an accept and one more failure keeps a reject |
| `Sprt.SuccessKeepsAcceptsExactlyFromHalf` | crates/pice-core/src/adaptive/sprt.rs:87-111 | that holds for all thresholds and histories if and only if min_confidence is at least 1/2 |
| `Sprt.StraightSuccessesAccept` | crates/pice-core/src/adaptive/sprt.rs:87-104 | more than (A-1)/(2p-1) straight successes force acceptance |
| `Sprt.StraightFailuresReject` | crates/pice-core/src/adaptive/sprt.rs:87-111 | more than (1/B-1)*2(1-p)/(2p-1) straight failures force rejection |
| `CostProjector.CostStats.Observe` | crates/pice-core/src/adaptive/cost.rs:60-76 | the three fields after one cost: saturating count, running mean, and a deviation updated with the new mean |
| `CostProjector.StatsAreAverages` | crates/pice-core/src/adaptive/cost.rs:60-76 | n*mean is the sum of the costs and n*mad the sum of each distance from its own new mean, for every history up to the count limit |
| `CostProjector.SaturatedMeanDrifts` | crates/pice-core/src/adaptive/cost.rs:60-76 | beyond the limit of the 32-bit count the mean is no average any more, by exactly how much |
| `CostProjector.ProjectionBounds` | crates/pice-core/src/adaptive/cost.rs:60-88 | for any costs within [lo, hi] the projection lies between the mean and hi + 4(hi - lo) |
| `CostProjector.SpikeProjection` | crates/pice-core/src/adaptive/cost.rs:60-88 | after n-1 costs of c and one of x the projection is c + (x-c)(5n-4)/n^2, so it covers the spike exactly when n is at most 4: the promised over-estimate after a spike does not hold later |
| `VerificationEntropy.ComputeDigamma` | crates/pice-core/src/adaptive/vec.rs:115-130 | the shifting loop ends and computes the recurrence psi(x) = psi(x+1) - 1/x below 6 and the series from 6 on |
| `VerificationEntropy.ComputeLnGamma` | crates/pice-core/src/adaptive/vec.rs:135-151 | the shifting loop ends and computes the recurrence lnGamma(x) = lnGamma(x+1) - ln x below 7 and the series from 7 on |
| `VerificationEntropy.DigammaIsExpansion` | crates/pice-core/src/adaptive/vec.rs:110-130 | from 6 on digamma is ln y - 1/(2y) less the first three terms B(2k)/(2k y^2k) of its expansion |
| `VerificationEntropy.LnGammaIsExpansion` | crates/pice-core/src/adaptive/vec.rs:132-151 | from 7 on log-gamma is Stirling's formula with the first three terms B(2k)/(2k(2k-1) y^(2k-1)) |
| `VerificationEntropy.BernoulliEquations` | crates/pice-core/src/adaptive/vec.rs:110-151 | the coefficients of both series come from numbers that solve the defining equations of the Bernoulli numbers |
| `VerificationEntropy.RollbackForgetsLastPass` | crates/pice-core/src/adaptive/vec.rs:44-86 | the run halts if and only if the last pass has moved the entropy of the history, up or down, by less than the floor |
| `VerificationEntropy.EntropyStep` | crates/pice-core/src/adaptive/vec.rs:103-151 | for alpha + beta below 6 the change of entropy on a success is ln a - ln(a+b) + psi(a+b) - psi(a) - 1/(a+b) |
| `VerificationEntropy.EntropyIsSymmetric` | crates/pice-core/src/adaptive/vec.rs:103-108 | successes and failures play the same part in the entropy |
| `VerificationEntropy.DigammaDifference` | crates/pice-core/src/adaptive/vec.rs:115-130 | between whole numbers up to 6 a difference of digammas is an exact harmonic sum |
| `VerificationEntropy.ShortRunDecision` | crates/pice-core/src/adaptive/vec.rs:44-86 | on two to four passes it halts if and only if a closed form without any series lies strictly between minus the floor and the floor |
| `Escalation.InvalidScoreSurfaces` | crates/pice-core/src/adaptive/adts.rs:34-57 | one score out of range anywhere in the history is reported, the first such pair first |
| `Escalation.ContinuesExactly` | crates/pice-core/src/adaptive/adts.rs:34-62 | an error if and only if threshold or some score lies outside [0, 10]; else Continue if and only if the two latest scores differ by at most the threshold, whichever is higher |
| `Escalation.EvaluatorsAreAlike` | crates/pice-core/src/adaptive/adts.rs:34-80 | swapping the two evaluators in every pair leaves the verdict unchanged |
| `Escalation.VerdictIsNextRung` | crates/pice-core/src/adaptive/adts.rs:57-80 | a verdict is Continue or the rung that the escalations used so far point at; only the latest pair decides which |
| `Escalation.RunClimbsLadder` | crates/pice-core/src/adaptive/adts.rs:34-80 | over any run that counts its schedule verdicts, the verdicts other than Continue are a prefix of the ladder, shortened by the configured maximum |
| `Escalation.RunExhaustsOnExtraDivergence` | crates/pice-core/src/adaptive/adts.rs:57-80 | a run exhausts exactly when it diverged more than min(2, max) times |
| `HaltDispatch.GuardsComeFirst` | crates/pice-core/src/adaptive/decide.rs:57-106 | for all four algorithms the budget and pass-limit reasons mean exactly their guards, in that order |
| `HaltDispatch.DecidesExactly` | crates/pice-core/src/adaptive/decide.rs:57-106 | under a valid configuration each of the six reasons is given if and only if it is warranted: one more projected call over budget, passes used up, the likelihood ratio across a threshold, the entropy moved by less than the floor; with the capped posterior mean of the right prior as confidence |
| `HaltDispatch.FaultsReported` | crates/pice-core/src/adaptive/decide.rs:57-106 | a configuration is refused before any pass if and only if something is wrong with it, and which error is reported: pass limit, budget, then the parameters of the algorithm |
| `HaltDispatch.FirstPassAlwaysFits` | crates/pice-core/src/adaptive/decide.rs:76-86 | without costs the projection is one share of the budget, which never blocks the first pass, although the comment at adaptive_loop.rs:281-283 says it may |
| `AdaptiveLoop.PerformPass` | crates/pice-daemon/src/orchestrator/adaptive_loop.rs:279-700 | the body of the pass loop, step by step, is the pass function that the invariants are about |
| `AdaptiveLoop.RunAdaptivePasses` | crates/pice-daemon/src/orchestrator/adaptive_loop.rs:234-760 | the loop with its early breaks returns the answer that `AdaptiveAnswers` tells from configuration and scripts, or nothing when it is dropped during a call, and leaves its rows in the durable store either way |
| `AdaptiveLoop.CallsKeepBooks` | crates/pice-daemon/src/orchestrator/adaptive_loop.rs:397-606 | whatever the provider and the store do, manifest rows, durable rows, tracker and running total stay one account |
| `AdaptiveLoop.CallsOnlyAppend` | crates/pice-daemon/src/orchestrator/adaptive_loop.rs:302-606 | a pass only appends rows of its own index, at most one per evaluator |
| `AdaptiveLoop.CallsKeepSpendJustified` | crates/pice-daemon/src/orchestrator/adaptive_loop.rs:284-606 | every recorded pass started after a budget check on all costs before its first call; rows stay in pass order |
| `AdaptiveLoop.EscalateKeepsClimbing` | crates/pice-daemon/src/orchestrator/adaptive_loop.rs:617-682 | one escalation step moves at most one rung up and sets the flags of the next request, and nothing else |
| `AdaptiveLoop.RunEndsWell` | crates/pice-daemon/src/orchestrator/adaptive_loop.rs:234-760 | every end of every run, configuration errors included, is reached with books, flags, events and spending in order |
| `AdaptiveRuns.RunFollowsScripts` | crates/pice-daemon/src/orchestrator/adaptive_loop.rs:234-700 | the loop ends in the first pass that does not let another follow, a pass being told from the configuration and the calls so far alone, in a state that is that of those calls |
| `AdaptiveRuns.PassFollowsScripts` | crates/pice-daemon/src/orchestrator/adaptive_loop.rs:279-700 | one pass of the loop goes on, fails, aborts or halts exactly as the calls, scores and halt rules say |
| `AdaptiveRuns.StartedPassFits` | crates/pice-core/src/adaptive/decide.rs:57-107 | the check before a pass never stops what the check after the pass before let go on |
| `AdaptiveAnswers.LandsExactly` | crates/pice-daemon/src/orchestrator/adaptive_loop.rs:392-465 | a call lands if and only if it returned, told a usable cost or no budget is enforced, and its row was written; it adds the cost told, or nothing |
| `AdaptiveAnswers.CallEnds` | crates/pice-daemon/src/orchestrator/adaptive_loop.rs:302-484 | a call that does not land fails with the one failure that applies to it or is interrupted; one that lands adds its row, with its score, recorded cost and flags |
| `AdaptiveAnswers.AnswerOfLastPass` | crates/pice-daemon/src/orchestrator/adaptive_loop.rs:711-768 | what is returned from the last pass: nothing if that is interrupted, an error if its scores cannot be compared, else all five fields told from configuration and scripts: rows, reason, confidence, total and escalation events; the durable store has the same rows |
| `AdaptiveAnswers.HaltedByExactly` | crates/pice-daemon/src/orchestrator/adaptive_loop.rs:702-731 | over any run each reason is returned if and only if some pass that starts ends for it: a call failing so, the ladder run out, or a halt rule warranted by all calls so far; falling through if and only if no pass is allowed |
| `AdaptiveAnswers.NoPassAllowed` | crates/pice-daemon/src/orchestrator/adaptive_loop.rs:725-730 | without passes to make the loop returns no rows, the confidence one half, no total and no events |
| `AdaptiveAnswers.FaultIsAnswered` | crates/pice-daemon/src/orchestrator/adaptive_loop.rs:284-300 | a faulty configuration makes it return the error for that fault, with no call made |
| `AdaptiveGuarantees.RunKeepsInvariant` | crates/pice-daemon/src/orchestrator/adaptive_loop.rs:234-760 | from the initial state every run, whatever its end, ends in the end invariant |
| `AdaptiveGuarantees.AbortsExactly` | crates/pice-daemon/src/orchestrator/adaptive_loop.rs:279-300 | a run fails before its first call if and only if the configuration is at fault, and with calls in the durable store if and only if it reaches scores that cannot be compared |
| `AdaptiveGuarantees.AbortKeepsRows` | crates/pice-daemon/src/orchestrator/adaptive_loop.rs:617-625 | such a run leaves all rows of all its passes in the durable store and reports the bad pair |
| `AdaptiveGuarantees.CostsReconcile` | crates/pice-daemon/src/orchestrator/adaptive_loop.rs:703-760 | over every run of a layer the manifest's rows and total are those of the durable rows, if and only if the run neither loses the first cost it is told, nor meets scores that cannot be compared, nor is cancelled after its first call landed |
| `AdaptiveGuarantees.EnforcedBudgetsReconcile` | crates/pice-daemon/src/orchestrator/adaptive_loop.rs:397-465 | with an enforced budget, or without cost telemetry, every run on comparable scores that is not cancelled reconciles |
| `AdaptiveGuarantees.ValidatedBudgetsReconcileExactly` | crates/pice-core/src/workflow/validate.rs:259-311 | for every algorithm that workflow validation lets through and an enforced budget: a layer reconciles if and only if it is not cancelled after its first call landed |
| `AdaptiveGuarantees.CancelledLayerLosesRows` | crates/pice-daemon/src/orchestrator/stack_loops.rs:1766-1784 | whatever the costs, a layer cancelled after its first call landed has rows in the durable store, and its report has neither rows nor total |
| `AdaptiveGuarantees.SecondCallCancelled` | crates/pice-daemon/src/orchestrator/stack_loops.rs:1766-1784 | for every run whose enforced budget affords two passes: if the first call lands and the layer is cancelled during the second, one cost is recorded and none reported |
| `AdaptiveGuarantees.CancelledExactly` | crates/pice-daemon/src/orchestrator/stack_loops.rs:1766-1784 | the loop is dropped if and only if some pass that is reached is cancelled during one of its calls |
| `AdaptiveGuarantees.SinkFilledExactly` | crates/pice-daemon/src/orchestrator/adaptive_loop.rs:397-465 | the durable store gets a row if and only if the configuration is valid and the very first call lands |
| `AdaptiveGuarantees.LossPossibleExactly` | crates/pice-daemon/src/orchestrator/adaptive_loop.rs:397-465 | a configuration admits a run that loses its first cost if and only if costs are told, no budget is enforced and there can be a call after the first |
| `AdaptiveGuarantees.LostCostReportsZero` | crates/pice-daemon/src/orchestrator/adaptive_loop.rs:397-465 | for every configuration where a second pass is possible: unpriced persisted calls and then a priced one that is not report a total of zero |
| `AdaptiveGuarantees.BadScoreLosesRows` | crates/pice-daemon/src/orchestrator/stack_loops.rs:1402-1437 | a score of 11 fails the layer after two calls were paid for and recorded; its report has the placeholder row, none of theirs, and no total |
| `AdaptiveGuarantees.PassesStartWithinBudget` | crates/pice-daemon/src/orchestrator/adaptive_loop.rs:284-300 | under an enforced budget every pass of every run starts only when what was spent plus one projected call fits, and every later one only with room for one more call at the mean |
| `AdaptiveGuarantees.SpendBound` | crates/pice-daemon/src/orchestrator/adaptive_loop.rs:279-606 | over every run the total exceeds the budget by at most what the last pass, from its first call on, cost beyond the call projected before it |
| `AdaptiveGuarantees.SteadyRunsStayWithinBudget` | crates/pice-daemon/src/orchestrator/adaptive_loop.rs:279-484 | with one call per pass and a steady cost that fits the budget once, no run overspends |
| `AdaptiveGuarantees.AdversaryOverspends` | crates/pice-daemon/src/orchestrator/adaptive_loop.rs:284-606 | over whole runs with two calls a pass at a steady cost c: the run overspends if and only if for some n below the pass limit 2n + 1 calls fit the budget, or n is 0, and 2n + 2 do not |
| `AdaptiveGuarantees.OverspendsOnOddQuotient` | crates/pice-daemon/src/orchestrator/adaptive_loop.rs:284-606 | that is, if and only if the budget buys no call at all, or an odd number of calls whose half is below the pass limit |
| `AdaptiveGuarantees.ThreeCallsBuyFour` | crates/pice-daemon/src/orchestrator/adaptive_loop.rs:284-606 | a budget for three calls and two passes pays for four |
| `AdaptiveGuarantees.BudgetHaltHasSpent` | crates/pice-daemon/src/orchestrator/adaptive_loop.rs:279-300 | when the loop returns budget as its reason, it returns at least one row |
| `AdaptiveGuarantees.NaturalExitNeedsZeroPasses` | crates/pice-daemon/src/orchestrator/adaptive_loop.rs:279-700 | the loop returns without a halt reason of its own if and only if no pass was allowed |
| `AdaptiveGuarantees.EscalationsClimb` | crates/pice-daemon/src/orchestrator/adaptive_loop.rs:617-682 | over any run the events climb the ladder in pass order and each request carries exactly the flags of the event before it |
| `AdaptiveGuarantees.VerdictNeedsSprt` | crates/pice-daemon/src/orchestrator/adaptive_loop.rs:685-700 | the loop reports confidence reached or rejected only on a prefix of the outcomes on which the SPRT says so |
| `AdaptiveGuarantees.LoopFalseAcceptBound` | crates/pice-daemon/src/orchestrator/adaptive_loop.rs:234-760 | end to end: under pure chance the whole loop returns confidence reached as its reason with probability at most 1/A, even when costs and failures depend on the outcomes |
| `AdaptiveGuarantees.LoopFalseRejectBound` | crates/pice-daemon/src/orchestrator/adaptive_loop.rs:234-760 | end to end: under p = min_confidence it returns rejected as its reason with probability at most B, even when costs and failures depend on the outcomes |
| `LayerVerdicts.PassesExactly` | crates/pice-daemon/src/orchestrator/stack_loops.rs:1278-1345 | a layer passes if and only if no seam failed and, in a pass that starts, the SPRT accepts, or the entropy settles while the posterior mean reaches a min_confidence of at most 0.966 |
| `LayerVerdicts.PendsExactly` | crates/pice-daemon/src/orchestrator/stack_loops.rs:1278-1345 | it is left for another evaluation if and only if no seam failed and the run ends with budget or passes used up or a row not written; in all other cases that do not pass it, it fails |
| `LayerVerdicts.LayerFalsePassBound` | crates/pice-daemon/src/orchestrator/stack_loops.rs:1278-1345 | under pure chance a layer passes with probability at most 1/A, whatever the seams, costs and failures, unless the entropy rule decides |
| `LayerVerdicts.CeilingBlocksEntropy` | crates/pice-daemon/src/orchestrator/stack_loops.rs:1311-1327 | under the entropy rule no layer that asks for more than 0.966 ever passes |
| `Text.Find` | crates/pice-core/src/layers/filter.rs:275 | the first occurrence at or after a position, or none |
| `DiffSections.SplitDiffSections` | crates/pice-core/src/layers/filter.rs:169-192 | the scan over header matches computes the line-start sections of a position-by-position specification |
| `DiffSections.PieceIsSection` | crates/pice-core/src/layers/filter.rs:169-192 | every section is one slice of the diff from a file header to before the next, and holds exactly one header, at its start |
| `DiffSections.SectionsOfCons` | crates/pice-core/src/layers/filter.rs:169-192 | putting a section and a line break before a text puts the section before its sections |
| `DiffSections.SplitUndoesJoin` | crates/pice-core/src/layers/filter.rs:50 | splitting the joined text of any sections gives those sections back |
| `DiffSections.ResplitReturnsSections` | crates/pice-core/src/layers/filter.rs:169-192 | re-splitting the joined sections of any diff returns the same sections |
| `DiffPath.LinesOfJoin` | crates/pice-core/src/layers/filter.rs:202-208 | lines joined by line breaks come apart again, unless the last is empty |
| `DiffPath.ScanPaths` | crates/pice-core/src/layers/filter.rs:205-219 | the scan for the old and new path lines, with its early stop, is the fold it is specified by |
| `DiffPath.FirstPairDecides` | crates/pice-core/src/layers/filter.rs:205-219 | whatever the hunks contain, the first pair of path lines decides |
| `DiffPath.LastQuoted` | crates/pice-core/src/layers/filter.rs:249-264 | the character loop keeps what the quote scan keeps |
| `DiffPath.ScanParity` | crates/pice-core/src/layers/filter.rs:249-264 | the loop is inside a pair after an odd number of quotes and knows where the pair began |
| `DiffPath.ScanFindsLastPair` | crates/pice-core/src/layers/filter.rs:249-264 | the text kept stands between the two quotes of the last complete pair |
| `DiffPath.ExtractBPathFromHeader` | crates/pice-core/src/layers/filter.rs:243-279 | the header path: quoted text first, then the first blank followed by b/ |
| `DiffPath.ExtractFilePath` | crates/pice-core/src/layers/filter.rs:201-236 | the path of a section: deletion, new file, else header |
| `DiffPath.PlainHeader` | crates/pice-core/src/layers/filter.rs:271-279 | without quotes the new path is found if and only if the old path does not contain " b/" |
| `DiffPath.QuotedHeader` | crates/pice-core/src/layers/filter.rs:246-269 | with both paths quoted the new path is found if and only if it holds no quote and the quotes of the old path come in pairs (or it is a single blank) |
| `DiffPath.OldQuotedHeader` | crates/pice-core/src/layers/filter.rs:246-269 | when only the old path is quoted the old path is returned, not the new one the documentation promises |
| `DiffPath.NewQuotedHeader` | crates/pice-core/src/layers/filter.rs:246-269 | when only the new path is quoted it is found if and only if it holds no quote itself |
| `DiffPath.StripQuoted` | crates/pice-core/src/layers/filter.rs:281-292 | a path between any numbers of quotes loses them, and then one a/ or b/ at its start |
| `DiffPath.PathOfSection` | crates/pice-core/src/layers/filter.rs:201-236 | a deletion is known by its old path, a new file by its new one, any other section by its header, whatever its hunks say |
| `DiffPath.PathWithoutPathLines` | crates/pice-core/src/layers/filter.rs:201-236 | a section without path lines is known by its header |
| `DiffFilter.CompiledMatch` | crates/pice-core/src/layers/filter.rs:26-29 | a path matches the compiled patterns exactly when a listed glob that compiles matches it |
| `DiffFilter.MatchSections` | crates/pice-core/src/layers/filter.rs:38-44 | the loop keeps exactly the sections with a matching path, in order |
| `DiffFilter.FilterDiffByGlobs` | crates/pice-core/src/layers/filter.rs:21-51 | all early returns included, the result is the join of the selected sections |
| `DiffFilter.SectionsOfFiltered` | crates/pice-core/src/layers/filter.rs:21-51 | splitting a filtered diff gives exactly the selected sections |
| `DiffFilter.FilterIdempotent` | crates/pice-core/src/layers/filter.rs:21-51 | filtering twice with the same globs is filtering once |
| `DiffFilter.FiltersCommute` | crates/pice-core/src/layers/filter.rs:21-51 | two filters may be applied in either order |
| `DiffFilter.FilterIsolates` | crates/pice-core/src/layers/filter.rs:53-57 | a filtered diff has every matching section as often as the diff has it, and no other section |
| `DiffFilter.LayersShareExactly` | crates/pice-core/src/layers/filter.rs:53-57 | two layers see a common section exactly when its path matches the globs of both |
| `DiffFilter.GlobsAreASet` | crates/pice-core/src/layers/filter.rs:26-29 | only the set of globs that compile matters |
| `DiffFilter.FilteredTextIsSlices` | crates/pice-core/src/layers/filter.rs:36-51 | the text of each selected section is one slice of the diff between two headers |
| `GateTypes.TimeoutRulesAgree` | crates/pice-core/src/gate.rs:185-252 | for a gate built at any time, the pinned deadline and the request time plus whole hours, both cut to seconds, expire at the same instants |
| `GateTypes.TimeoutOnlyOnce` | crates/pice-core/src/gate.rs:221-252 | a timeout changes a gate at most once and never a decided one |
| `GateTypes.GateIdsDistinct` | crates/pice-core/src/gate.rs:30-42 | two ids are the same only if counter and time are, whatever the features and layers, while times have twelve hexadecimal digits at most or counters eight |
| `GateCohort.LastIndex` | crates/pice-core/src/gate.rs:391-400 | the plain backward scan: the last gate of a layer, or none |
| `GateCohort.BuildMostRecent` | crates/pice-core/src/gate.rs:391-400 | the cached map holds for every layer what a plain backward scan finds |
| `GateCohort.GateFor` | crates/pice-core/src/gate.rs:402-470 | a layer gets a gate if and only if it has passed, its last gate if any was rejected or timed out, and it is to be reviewed: always, or by its own trigger, or without one by that of an enabled project review; the gate has that trigger, the workflow's deadline and timeout action, and the counter of the last one |
| `GateCohort.CheckGatesForCohort` | crates/pice-core/src/gate.rs:377-472 | the loops produce the gates of the specification, name their layers and move the id counter once per gate |
| `GateCohort.GatesFireInOrder` | crates/pice-core/src/gate.rs:402-470 | the gates are those of exactly the layers that are due one, in the order of the cohort, each with the next counter in its id |
| `GateRuns.Manifest.ApplyTimeoutIfExpired` | crates/pice-core/src/gate.rs:221-252 | the in-place timeout check and its outcome |
| `GateRuns.Manifest.Decide` | crates/pice-daemon/src/handlers/review_gate.rs:240-510 | settled if and only if the first gate of that id is pending and the audit store agrees with the word it comes to, an expired deadline coming before the reviewer except on recovery; approve and skip leave the layer passed, reject sends it back with one attempt fewer or fails it; nothing else changes |
| `GateRuns.ScanExpired` | crates/pice-daemon/src/handlers/evaluate.rs:671-712 | the pure scan collects exactly the expired pending gates, in order |
| `GateRuns.Manifest.ReconcileExpired` | crates/pice-daemon/src/handlers/evaluate.rs:646-824 | exactly the pending gates whose deadline has passed and whose row is in the store, or all when it is not opened, take their timeout action; each layer has the status brought by the last of its gates, and the label when one of them failed it; nothing else changes |
| `GateRuns.Manifest.FireGates` | crates/pice-daemon/src/orchestrator/stack_loops.rs:856-882 | the boundary appends the gates that are due, with the next ids, and sets exactly their layers to pending review |
| `GateHistory.HistoryExtends` | crates/pice-core/src/gate.rs:402-424 | gates that follow a history extend it if and only if no layer is among them twice |
| `GateHistory.FireKeepsHistoryExactly` | crates/pice-core/src/gate.rs:377-472 | a boundary check keeps the gate histories if and only if its cohort names no layer twice that gets a gate |
| `GateHistory.SettleAllKeepsHistory` | crates/pice-daemon/src/handlers/evaluate.rs:714-824 | decisions and timeouts keep the histories |
| `GateHistory.RunKeepsHistory` | crates/pice-core/src/gate.rs:368-472 | in every run each layer has rejected gates followed by at most one pending, approved or skipped gate, its counter never rises, and TimedOut never arises |
| `GateHistory.GradesExactly` | crates/pice-daemon/src/orchestrator/stack_loops.rs:405-882 | a graded layer has its result from then on, and no other layer changes |
| `GateHistory.EveryRunKeepsHistory` | crates/pice-daemon/src/orchestrator/stack_loops.rs:405-882 | so it is for every layer graph that is built and every run over its cohorts from an empty manifest |
| `GateBudget.FiredCarry` | crates/pice-core/src/gate.rs:439-444 | a new gate takes over the counter of its layer's last gate, or the workflow's budget |
| `GateBudget.RunConservesBudget` | crates/pice-daemon/src/handlers/review_gate.rs:365-410 | over any run the retries granted to a layer plus the counter of its last gate stay the same number |
| `GateBudget.RetriesStayInBudget` | crates/pice-core/src/gate.rs:316-333 | from a layer's first gate on no history grants more retries than the workflow allows |
| `GateBudget.EveryRunStaysInBudget` | crates/pice-daemon/src/orchestrator/stack_loops.rs:405-882 | over the cohorts of a built layer graph, retries granted plus the last counter make up the workflow's budget in every run |
| `GateBudget.TimeoutPathsAgreeExactly` | crates/pice-daemon/src/handlers/review_gate.rs:344-410 | the handler and the reconciler leave the same manifest for an expired gate, except for the recorded reason of a layer that fails; cli/mod.rs:260-263 promises the other reason |
| `GateAudit.StepAgreesExactly` | crates/pice-daemon/src/handlers/evaluate.rs:659-765 | an event keeps store and manifest in agreement if and only if it saves no gate that it settled against a row of another decision, or without one because the store is missing or does not open |
| `GateAudit.RunAgreesExactly` | crates/pice-daemon/src/handlers/evaluate.rs:659-765 | over any run, whatever writes are lost and however the store is found, store and manifest agree in the end if and only if they agreed at first and no such event happened |
| `GateAudit.SavedRunsAgree` | crates/pice-daemon/src/handlers/evaluate.rs:1233-1253 | if every save of the manifest lands and the store always opens, they agree after every run |
| `GateAudit.LostSaveIsOverruled` | crates/pice-daemon/src/handlers/evaluate.rs:742-757 | a decision in time whose save is lost is overruled by the timeout action, for every gate and decision |
| `GateAudit.RetryCompletes` | crates/pice-daemon/src/handlers/review_gate.rs:264-340 | a reviewer who tries the same again, however late, completes the recorded decision |
| `GateAudit.UnopenedStoreIsSkipped` | crates/pice-daemon/src/handlers/evaluate.rs:659-672 | for every expired gate without a row: a reconciliation that cannot open the store decides it all the same, and no row is ever written |
| `GateAudit.ManifestFollowsHistory` | crates/pice-daemon/src/handlers/evaluate.rs:714-824 | an event whose save lands does to the manifest exactly what its step in the gate histories does, a lost one nothing |
| `GateAudit.RunKeepsHistory` | crates/pice-core/src/gate.rs:368-472 | so whatever writes are lost, each layer keeps a history of rejected gates followed by at most one other |
| `MockClock.StepKeepsInv` | crates/pice-daemon/src/clock.rs:127-175 | each atomic step of any sleeper or advancer keeps: whoever sleeps past its time is about to be notified |
| `MockClock.NoLostWakeup` | crates/pice-daemon/src/clock.rs:127-175 | in every interleaving, once no advancer is between its write and its notification, no sleeper waits un-notified past its target |
| `MockClock.ReturnsOnTimeRead` | crates/pice-daemon/src/clock.rs:154-175 | a sleeper returns only on a time the clock showed during the run, and no earlier than its target |
| `MockClock.WakesInTwoMoves` | crates/pice-daemon/src/clock.rs:154-175 | when its time has come and the clock is left alone, two moves of its own bring a sleeper back |
| `MockClock.SleepsUntilNotified` | crates/pice-daemon/src/clock.rs:154-175 | a waiting sleeper never moves before a notification, whatever the clock shows |
| `MockClock.ClockShowsAdvances` | crates/pice-daemon/src/clock.rs:127-145 | while nobody sets it the clock shows its start plus all advances that took place |
| `MockClock.SetShowsTime` | crates/pice-daemon/src/clock.rs:137-145 | a time that is set is shown at once and owes a notification |
| `MockClock.NotifyWakes` | crates/pice-daemon/src/clock.rs:127-175 | a notification wakes every sleeper whose waiter was made before it |
| `DaemonLifecycle.StepKeepsInv` | crates/pice-daemon/src/lifecycle.rs:73-270 | each step of any daemon keeps the account of holder, phases, tasks and log |
| `DaemonLifecycle.EveryRunIsOrderly` | crates/pice-daemon/src/lifecycle.rs:73-270 | in every interleaving only the holder reconciles, writes the token, serves and runs its own drain; the token follows the reconciliation; that drain comes only after every task finished or was told to abort; release comes last; any other drain is one of a task that requested shutdown |
| `DaemonLifecycle.AtMostOneHolder` | crates/pice-daemon/src/lifecycle.rs:80-102 | for atomic binding: between two bindings the first daemon released the socket |
| `DaemonLifecycle.NothingAfterRelease` | crates/pice-daemon/src/lifecycle.rs:104-119 | after its release a daemon neither reconciles, nor writes the token, spawns a task or runs its own drain, unless it binds again |
| `DaemonLifecycle.ReleaseFollowsSettledDrain` | crates/pice-daemon/src/lifecycle.rs:222-270 | a daemon that wrote its token releases the socket only after a drain of the jobs at which all its tasks were settled, and spawns none after that |
| `DaemonLifecycle.AnswerFollowsDrain` | crates/pice-daemon/src/server/router.rs:577-582 | a shutdown request is answered only after its task drained the jobs, which it does only after the request |
| `DaemonLifecycle.HandlerDrainsAmongTasks` | crates/pice-daemon/src/server/router.rs:577-582 | that drain does not wait for the tasks: in every reachable state a running task can request shutdown and drain the jobs while tasks, its own at least, are not settled |
| `DaemonLifecycle.AbortEventsAre` | crates/pice-daemon/src/lifecycle.rs:137-164 | when draining times out exactly the connection tasks still running are told to abort |
| `DaemonLifecycle.StartsExactly` | crates/pice-daemon/src/lifecycle.rs:80-119 | a daemon that finds the socket free serves if and only if it reconciles and writes its token; otherwise it lets go of the socket again, without a token |
| `DaemonLifecycle.WindsDownExactly` | crates/pice-daemon/src/lifecycle.rs:180-270 | with tasks that do not end in time a serving daemon gets through its shutdown if and only if it was signalled or asked to, and, if asked, an answer was seen or awaited in vain; what it did then, in order |
| `DaemonLifecycle.DrainsQuietly` | crates/pice-daemon/src/lifecycle.rs:137-164 | when all its tasks have finished, the daemon joins them and goes on without telling any to abort |
| `DaemonLifecycle.AcceptsExactly` | crates/pice-daemon/src/lifecycle.rs:187-205 | a connection is taken if and only if no shutdown was requested; else the daemon stops accepting |
| `DaemonLifecycle.LoserExits` | crates/pice-daemon/src/lifecycle.rs:80-92 | a daemon that cannot bind exits at once and leaves no trace |
| `DaemonLifecycle.AnsweredRequestIsSeen` | crates/pice-daemon/src/server/router.rs:577-582 | a task that is asked to shut the daemon down leaves a request, and by its answer an answered one |
| `DaemonLifecycle.RunKeepsRequests` | crates/pice-daemon/src/server/router.rs:577-582 | in every run a shutdown is on record exactly when some task was asked for it, and none is answered otherwise |
| `SocketRecovery.StepKeepsExactly` | crates/pice-daemon/src/server/unix.rs:100-133 | each step of binding, probing, removing, dropping or dying keeps every owner its path, except a refused probe exactly when the path is not stale or another daemon is recovering |
| `SocketRecovery.CarefulRunsAreExclusive` | crates/pice-daemon/src/server/unix.rs:91-133 | in every run whose refused probes are careful, one daemon at most accepts connections at any time |
| `SocketRecovery.CarelessProbeBreaks` | crates/pice-daemon/src/server/unix.rs:100-133 | after a careless one there is always a way to two daemons that accept connections |
| `SocketRecovery.TwoFreshDaemonsBothListen` | crates/pice-daemon/src/server/unix.rs:100-133 | two daemons and a free path: both bind, and both end up accepting connections, when the second probes before the first listens |
| `SocketRecovery.StepsDescend` | crates/pice-daemon/src/server/unix.rs:91-133 | no daemon ever goes back, so it binds at most twice and probes at most once |
| `SocketRecovery.BindsExactly` | crates/pice-daemon/src/server/unix.rs:91-133 | a binding gets a free path; finding it taken leads to recovery the first time and to giving up the second |
| `SocketRecovery.DropsItsListener` | crates/pice-daemon/src/server/unix.rs:91-95 | a listening daemon has the path, and dropping its listener frees it and ends its connections |
| `NameOrder.SortKeeps` | crates/pice-core/src/layers/mod.rs:223-238 | a sort by name is ordered, and loses, adds and repeats nothing |
| `NameOrder.OrderedUnique` | crates/pice-core/src/layers/mod.rs:214-217 | a sorted sequence of distinct names is determined by its members |
| `LayerConfig.FinishedMeansAcyclic` | crates/pice-core/src/layers/mod.rs:240-303 | a listing of all layers after their dependencies rules out every cycle |
| `LayerCycles.BuildCycle` | crates/pice-core/src/layers/mod.rs:281-288 | the parent walk rebuilds the path from the gray layer up, and ends |
| `LayerCycles.LookAtDeps` | crates/pice-core/src/layers/mod.rs:275-297 | looking at the dependencies of a layer keeps the search invariant or reports a real cycle |
| `LayerCycles.SearchFrom` | crates/pice-core/src/layers/mod.rs:257-300 | the stack search from one start ends, and finishes everything reachable or reports a cycle |
| `LayerCycles.DetectCycle` | crates/pice-core/src/layers/mod.rs:242-303 | an error if and only if there is a cycle, and the path reported is one, without repetition |
| `LayerValidation.CheckOrder` | crates/pice-core/src/layers/mod.rs:140-146 | a duplicate in the order is found if there is one |
| `LayerValidation.CheckDeps` | crates/pice-core/src/layers/mod.rs:148-158 | an undefined dependency is found if there is one |
| `LayerValidation.Validate` | crates/pice-core/src/layers/mod.rs:135-164 | accepted are exactly the configurations with a non-empty order without duplicates, defined dependencies and no cycle; an error names a reason that holds |
| `LayerCohorts.BuildGraph` | crates/pice-core/src/layers/mod.rs:175-200 | degrees, adjacency lists and edges count every dependency inside the order, with repetitions |
| `LayerCohorts.RemoveLayer` | crates/pice-core/src/layers/mod.rs:221-233 | counting down the dependents of a layer keeps the degrees and frees exactly those whose last dependency it was |
| `LayerCohorts.FirstQueue` | crates/pice-core/src/layers/mod.rs:202-215 | the first queue is sorted and holds the layers without dependencies |
| `LayerCohorts.BuildDag` | crates/pice-core/src/layers/mod.rs:172-238 | cohorts exist exactly without a cycle; every layer of the order is in one, once; its dependencies are in earlier ones and one is in the cohort just before; no degree is missing |
| `LayerCohorts.CohortsUnique` | crates/pice-core/src/layers/mod.rs:202-238 | these properties determine the cohorts, so hash-map order does not matter |
| `LayerActivation.CascadeOnce` | crates/pice-core/src/layers/mod.rs:352-369 | one pass adds only affected layers, reports a change exactly when it made one, and without one nothing depends on the set from outside |
| `LayerActivation.ActiveLayers` | crates/pice-core/src/layers/mod.rs:320-381 | active are exactly the layers from which dependencies lead, inside the order, to a touched layer, listed in order |
| `LayerActivation.MoreFilesActivateMore` | crates/pice-core/src/layers/mod.rs:320-381 | a larger change activates no fewer layers |
| `LayerDetect.LayerMap.Scan` | crates/pice-core/src/layers/detect.rs:478-488 | scans add paths and levels to the map, never a dependency |
| `LayerDetect.LayerMap.ApplyFrameworkPresets` | crates/pice-core/src/layers/detect.rs:492-620 | the presets applied to the map in the order they are detected |
| `LayerDetect.DetectedEdges` | crates/pice-core/src/layers/detect.rs:492-620 | whatever is scanned, the only edges are api to backend or database and frontend to api |
| `LayerDetect.DetectsExactly` | crates/pice-core/src/layers/detect.rs:492-668 | detected are exactly the layers that a scan finds or a shown preset brings in, with exactly the dependencies that the shown presets name |
| `LayerDetect.PresetAddsExactly` | crates/pice-core/src/layers/detect.rs:492-620 | a preset adds its layers and dependencies and nothing else, and gives paths only to a layer that has none |
| `LayerEmit.ToLayersConfig` | crates/pice-core/src/layers/detect.rs:1028-1070 | order and definitions are those of the layers in canonical order followed by the others by name |
| `LayerEmit.ListedOnce` | crates/pice-core/src/layers/detect.rs:1028-1070 | every detected layer is listed exactly once |
| `LayerEmit.DependenciesComeFirst` | crates/pice-core/src/layers/detect.rs:1028-1104 | every kept dependency is in the order, strictly earlier |
| `LayerEmit.EmittedIsValid` | crates/pice-core/src/layers/detect.rs:1028-1104 | what is emitted for preset edges always passes validation |
| `LayerEmit.DetectionIsValid` | crates/pice-core/src/layers/detect.rs:205-258 | whatever the scans find, the emitted configuration passes validation |
| `LayerEmit.OrderOfDetectionIrrelevant` | crates/pice-core/src/layers/detect.rs:1028-1104 | the same layers in another order give the same configuration |
| `PlanParser.NextLine` | crates/pice-core/src/plan_parser.rs:235-254 | the offset counted up by line length and line feed is where the next line starts |
| `PlanParser.LineOffsets` | crates/pice-core/src/plan_parser.rs:231-256 | the iterator yields the lines of the specification |
| `PlanParser.LinesTile` | crates/pice-core/src/plan_parser.rs:231-256 | for LF, CRLF and an unterminated last line the offsets are the true line starts and the slices between them are the lines |
| `PlanParser.FindH2Heading` | crates/pice-core/src/plan_parser.rs:207-229 | the loop returns the start of the first line that qualifies |
| `PlanParser.QualifiesIsHeading` | crates/pice-core/src/plan_parser.rs:210-226 | a line qualifies exactly when the text has the heading there, after at most three spaces |
| `PlanParser.HeadingFoundIsFirst` | crates/pice-core/src/plan_parser.rs:202-229 | the result is the first line start that begins such a heading, none if there is none |
| `PlanParser.ReturnsLineStart` | crates/pice-core/src/plan_parser.rs:202-206 | the result is the offset of the ##, as its comment says, if and only if the heading is not indented |
| `PlanParser.ContractIsFirstFence` | crates/pice-core/src/plan_parser.rs:102-131 | the contract is the first JSON fence anywhere after the heading, even in a later section |
| `PlanParser.ContractErrors` | crates/pice-core/src/plan_parser.rs:112-119 | a missing fence is reported exactly when the rest of the plan has none |
| `PlanParser.NoContractExactly` | crates/pice-core/src/plan_parser.rs:102-111 | a plan has no contract, without an error, if and only if it has no heading for one |
| `PlanParser.ContractUnclosed` | crates/pice-core/src/plan_parser.rs:121-125 | a fence that nothing closes is reported as unclosed |
| `PlanParser.FencelessSectionExactly` | crates/pice-core/src/plan_parser.rs:112-119 | a contract section without a fence is an error, as documented, if and only if no later section has a fence |
| `PlanParser.DataTakenForContract` | crates/pice-core/src/plan_parser.rs:112-125 | a plan whose contract section is empty and whose next section's data is taken for the contract |
| `Debounce.NotificationState.ObserveAndDebounce` | crates/pice-cli/src/notifications/mod.rs:186-202 | sweep, hit check and push, with the whole new buffer |
| `Debounce.NotificationState.NotifyWithFallback` | crates/pice-cli/src/notifications/mod.rs:128-155 | a disabled kind leaves no trace; a failed dispatch still counts as seen |
| `Debounce.CallRefines` | crates/pice-cli/src/notifications/mod.rs:186-202 | one call: buffer and plain map agree and go on agreeing |
| `Debounce.BufferRefinesMap` | crates/pice-cli/src/notifications/mod.rs:167-203 | over any calls in time order the swept buffer decides as the plain last-admitted map |
| `Debounce.BufferStaysSmall` | crates/pice-cli/src/notifications/mod.rs:167-203 | the buffer never holds two entries of one key |
| `Debounce.AdmittedExactly` | crates/pice-cli/src/notifications/mod.rs:157-203 | a call is let through if and only if no call of its key was let through less than 500 ms before |
| `BackgroundWait.EventAgreesWithSnapshot` | crates/pice-cli/src/adapter/background_wait.rs:456-541 | the completion event gives the outcome of the snapshot route if and only if the manifest is terminal there |
| `BackgroundWait.LegacyEventAgrees` | crates/pice-cli/src/adapter/background_wait.rs:507-528 | with an event that has no exit status they agree exactly when, besides, no metrics were lost |
| `BackgroundWait.EventLoop` | crates/pice-cli/src/adapter/background_wait.rs:254-304 | the loop ends at the first poll that decides, the timeout being looked at first |
| `BackgroundWait.PollAfterDisconnect` | crates/pice-cli/src/adapter/background_wait.rs:356-375 | polling ends with the first terminal manifest or the first round not before the deadline, and there is always a round |
| `BackgroundWait.OneReason` | crates/pice-cli/src/adapter/background_wait.rs:153-354 | what the client met ends the wait for at most one reason |
| `BackgroundWait.WaitUntilTerminal` | crates/pice-cli/src/adapter/background_wait.rs:153-354 | the exit code is that of the one reason; each of the codes 0 to 5 is returned if and only if the first decisive thing the client met stands for it, told from snapshots, events and answers without reasons |
| `BackgroundWait.FirstRoundAlwaysLooked` | crates/pice-cli/src/adapter/background_wait.rs:356-375 | without a connection, or after losing it, a terminal manifest in the first round is the one reason, over a deadline long passed |
| `CodexWorkflow.ChildRegistry.RegisterChild` | packages/provider-codex/src/workflow.ts:121-126 | the global set and the session map after registering |
| `CodexWorkflow.ChildRegistry.UnregisterChild` | packages/provider-codex/src/workflow.ts:128-137 | both after unregistering, an emptied session being dropped |
| `CodexWorkflow.ChildRegistry.RunSession` | packages/provider-codex/src/workflow.ts:358-435 | whatever happens while it streams, a run unregisters its child |
| `CodexWorkflow.RegisterKeeps` | packages/provider-codex/src/workflow.ts:121-126 | registering keeps the union; children stay in one session each if and only if the child was in no other |
| `CodexWorkflow.UnregisterKeepsExactly` | packages/provider-codex/src/workflow.ts:128-137 | unregistering keeps the global set the union of the sessions if and only if the child is in no other session |
| `CodexWorkflow.UnregisterRemoves` | packages/provider-codex/src/workflow.ts:128-137 | unregistering removes the child from the global set and its session, and leaves no set empty |
| `CodexWorkflow.RunRestores` | packages/provider-codex/src/workflow.ts:358-435 | a whole run leaves the registry as it was if and only if its child was new to it |
| `CodexWorkflow.RegistryStaysAccurate` | packages/provider-codex/src/workflow.ts:121-137 | however runs overlap, registered are exactly the children under way, each in its session |
| `CodexWorkflow.AccurateIsConsistent` | packages/provider-codex/src/workflow.ts:165-172 | an accurate registry is consistent, and empty when no run is under way |
| `CodexWorkflow.StreamSession` | packages/provider-codex/src/workflow.ts:379-428 | the streaming loop and the completion suffix compute the session function |
| `CodexWorkflow.EmittedIsFinalExactly` | packages/provider-codex/src/workflow.ts:414-427 | in a successful session the non-empty chunks make up the final text if and only if the streamed text is a prefix of it, else the streamed text |
| `CodexWorkflow.FailureEmitsStreamed` | packages/provider-codex/src/workflow.ts:379-413 | a session fails if and only if a line is not JSON, or else the exit code is not zero, or else there is no output, each with its own error; it has then emitted the streamed chunks and nothing else |
| `CodexWorkflow.StreamedIsDeltas` | packages/provider-codex/src/workflow.ts:379-413 | of lines that are all JSON the text of all deltas is streamed, in order |

## Left out

- Floating point: costs, scores, probabilities and entropies are real numbers; rounding, NaN and infinities are not modelled, the checks that reject them being preconditions or error branches on reals.
- The natural logarithm is any function with the product law that increases; entropy values that need its numerical value are not computed.
- Counters of 32 bits are modelled where the code saturates, wraps or truncates them on purpose; overflow of the pass counts by more than 2^32 passes is not.
- Glob matching, the trigger language, JSON, TOML and YAML parsing, trimming of the contract text and hashing are functions given from outside.
- Files, sockets, pipes, processes, prompts and the desktop are not modelled; binding, task ends, answers and exit codes are steps or inputs of the environment.
- DaemonLifecycle.EveryRunIsOrderly: binding is one atomic step (`SocketRecovery` has the steps of the Unix listener and says exactly when they amount to that), and of what a task does only shutdown requests, their drains and their answers are modelled.
- DaemonLifecycle.AtMostOneHolder: holds of atomic binding, for the same reason.
- DaemonLifecycle.NothingAfterRelease: a connection task that was told to abort and has not yielded yet can run handler code after the release; its shutdown request, drain and answer are steps of the model, its other effects are not.
- GateAudit.RunAgreesExactly: handlers do not overlap, the manifest's lock being held; a lost insert race is a case of `GateRuns.Manifest.Decide` only; reviewer, reason and times of an audit row are not modelled, and new gate ids are taken to be new.
- Seam checks: whether one has failed is given to `LayerVerdicts`; the placeholder result of a layer whose provider never started.
- Cancellation before a layer starts, which makes no call, and the order of the layers of a cancelled cohort.
- The stacks of a monorepo, the override file and the tables of directories and config files: detection is modelled for any findings of the scans.
- The overall status of a manifest and the order of saved events.
- Reading a file or a directory while filtering (`scan_files_by_globs`), the layer prompt, and the rendering of outcomes.
- `compareSemver`, the audit-string table read backwards, notification settings and exit-code tables: finite, they would add only easy members.
- Sets that JavaScript shares between the session map and its callers are values in `CodexWorkflow`.
- Windows pipes: their accept loop is that of the Unix socket.
