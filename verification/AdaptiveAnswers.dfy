/** What the adaptive loop returns, told from the configuration and the scripts alone: its rows, the reason it
    gives for its halt, its confidence, its total and its escalation events. */
module AdaptiveAnswers {
  import opened Common
  import opened AdaptiveTypes
  import opened CostProjector
  import opened Escalation
  import opened HaltDispatch
  import opened AdaptiveLoop
  import opened AdaptiveRuns
  import opened Logarithm

  /* ---- What becomes of a call ---- */

  /** The provider told a cost that can be accounted for. */
  predicate UsableCost(cfg: LoopConfig, call: Call) {
    call.Returned? && cfg.costTelemetry && call.outcome.cost.Some? && 0.0 <= call.outcome.cost.value
  }

  function RecordedCost(cfg: LoopConfig, call: Call): Option<real> {
    if UsableCost(cfg, call) then call.outcome.cost else None
  }

  /** Under an enforced budget a call must tell its cost. */
  predicate CostAccepted(cfg: LoopConfig, call: Call) {
    UsableCost(cfg, call) || cfg.halt.budgetUsd <= 0.0
  }

  predicate FailsWith(cfg: LoopConfig, call: Call, f: RuntimeFailure) {
    match f
    case RpcError => call.RpcFailed?
    case InvalidCostUsd => call.Returned? && !CostAccepted(cfg, call)
    case MetricsPersistFailed(lost) =>
      call.Returned? && CostAccepted(cfg, call) && !call.persisted && lost == RecordedCost(cfg, call)
  }

  lemma {:induction false} LandsExactly(cfg: LoopConfig, call: Call)
    ensures Lands(cfg, call) <==> call.Returned? && CostAccepted(cfg, call) && call.persisted
    ensures Priced(cfg, call) <==> UsableCost(cfg, call)
    ensures Charge(cfg, call) == if UsableCost(cfg, call) then call.outcome.cost.value else 0.0
  {
  }

  /** A call lands and adds its row, or fails for one reason, or is interrupted. */
  lemma {:induction false} CallEnds(cfg: LoopConfig, st: LoopState, n: nat, role: Role, call: Call, f: RuntimeFailure)
    ensures var (st', stop) := RecordCall(cfg, st, n, role, call);
            && (stop.None? <==> Lands(cfg, call))
            && (stop == Some(Cancellation) <==> call.Interrupted?)
            && (stop == Some(FailedBy(f)) <==> FailsWith(cfg, call, f))
            && st'.passes == st.passes + if Lands(cfg, call)
                                         then [RowOf(cfg, n, role, call, st.nextFreshContext, st.nextElevatedEffort)] else []
  {
  }

  /** The row of a call that returned. */
  function RowOf(cfg: LoopConfig, n: nat, role: Role, call: Call, anew: bool, raised: bool): PassResult
    requires call.Returned?
  {
    PassResult(n, role, call.outcome.score, RecordedCost(cfg, call), anew, raised)
  }

  /* ---- What becomes of a pass ---- */

  /** The first call of the pass that does not land fails with f. */
  predicate PassFailsWith(cfg: LoopConfig, script: PassScript, f: RuntimeFailure) {
    || FailsWith(cfg, script.primary, f)
    || (CallsAdversary(cfg) && Lands(cfg, script.primary) && FailsWith(cfg, script.adversary, f))
  }

  predicate PassInterrupted(cfg: LoopConfig, script: PassScript) {
    || script.primary.Interrupted?
    || (CallsAdversary(cfg) && Lands(cfg, script.primary) && script.adversary.Interrupted?)
  }

  /** The evaluators were apart after pass n, so the next request asks for fresh context; */
  predicate FreshAfter(cfg: LoopConfig, scripts: Scripts, n: nat) {
    cfg.halt.algo == Adts && 0 < n && Diverges(Pairs(cfg, scripts, n), cfg.adts)
  }

  /** and, if it was the second time, for more effort. */
  predicate RaisedAfter(cfg: LoopConfig, scripts: Scripts, n: nat) {
    FreshAfter(cfg, scripts, n) && Divergent(cfg, scripts, n) == 2
  }

  /** The rows of the calls that pass n makes and that land. */
  function RowsIn(cfg: LoopConfig, scripts: Scripts, n: nat): seq<PassResult>
    requires 0 < n
  {
    var anew, raised := FreshAfter(cfg, scripts, n - 1), RaisedAfter(cfg, scripts, n - 1);
    if !Lands(cfg, scripts(n).primary) then []
    else
      [RowOf(cfg, n, Primary, scripts(n).primary, anew, raised)] +
      if CallsAdversary(cfg) && Lands(cfg, scripts(n).adversary)
      then [RowOf(cfg, n, Adversary, scripts(n).adversary, anew, raised)] else []
  }

  function Rows(cfg: LoopConfig, scripts: Scripts, n: nat): seq<PassResult> {
    if n == 0 then [] else Rows(cfg, scripts, n - 1) + RowsIn(cfg, scripts, n)
  }

  function Rung(cfg: LoopConfig, used: nat): AdtsVerdict {
    var ladder := LadderOf(cfg.adts.maxDivergenceEscalations);
    if used < |ladder| then ladder[used] else EscalationExhausted
  }

  /** One event for each of the first n passes after which the evaluators were apart. */
  function EventsOf(cfg: LoopConfig, scripts: Scripts, n: nat): seq<EscalationEvent> {
    if n == 0 then []
    else
      EventsOf(cfg, scripts, n - 1) +
      if FreshAfter(cfg, scripts, n) then [EscalationEvent(Rung(cfg, Divergent(cfg, scripts, n - 1)), n)] else []
  }

  /** Some call of pass n told its cost, be its row persisted or not. */
  predicate PriceSeenIn(cfg: LoopConfig, script: PassScript) {
    || UsableCost(cfg, script.primary)
    || (CallsAdversary(cfg) && Lands(cfg, script.primary) && UsableCost(cfg, script.adversary))
  }

  /* ---- The state of the loop has these rows, events and flags ---- */

  predicate Written(cfg: LoopConfig, scripts: Scripts, st: LoopState, n: nat) {
    && st.passes == Rows(cfg, scripts, n) && st.events == EventsOf(cfg, scripts, n)
    && st.nextFreshContext == FreshAfter(cfg, scripts, n) && st.nextElevatedEffort == RaisedAfter(cfg, scripts, n)
  }

  lemma {:induction false} CallsWrite(cfg: LoopConfig, scripts: Scripts, st: LoopState, n: nat, f: RuntimeFailure)
    requires 0 < n && Written(cfg, scripts, st, n - 1)
    ensures var (called, stop) := MakeCalls(cfg, scripts(n), st, n);
            && called.passes == Rows(cfg, scripts, n) && OnlyBooksDiffer(st, called)
            && (stop.None? <==> CallsLand(cfg, scripts(n)))
            && (stop == Some(Cancellation) <==> PassInterrupted(cfg, scripts(n)))
            && (stop == Some(FailedBy(f)) <==> PassFailsWith(cfg, scripts(n), f))
  {
    CallsOnlyAppend(cfg, scripts(n), st, n);
    CallEnds(cfg, st, n, Primary, scripts(n).primary, f);
    var st1 := RecordCall(cfg, st, n, Primary, scripts(n).primary).0;
    RecordOnlyAppends(cfg, st, n, Primary, scripts(n).primary);
    CallEnds(cfg, st1, n, Adversary, scripts(n).adversary, f);
  }

  lemma {:induction false} EscalationWrites(cfg: LoopConfig, scripts: Scripts, st: LoopState, called: LoopState, n: nat)
    requires 0 < n && Written(cfg, scripts, st, n - 1) && LadderMatches(cfg, scripts, st, n - 1)
    requires called.passes == Rows(cfg, scripts, n) && OnlyBooksDiffer(st, called)
    ensures var end := Escalate(cfg, scripts(n), called, n);
            && end.st.passes == Rows(cfg, scripts, n)
            && (!end.Aborted? ==> end.st.events == EventsOf(cfg, scripts, n))
            && (end.Again? ==> Written(cfg, scripts, end.st, n))
            && (end.Halted? ==> end.confidence == Some(PosteriorMeanCapped(end.st.observations)))
  {
    if cfg.halt.algo == Adts {
      VerdictIsNextRung(Pairs(cfg, scripts, n), st.escalationsUsed, cfg.adts);
    }
  }

  lemma {:induction false} CallsSeePrice(cfg: LoopConfig, script: PassScript, st: LoopState, n: nat)
    ensures MakeCalls(cfg, script, st, n).0.anyRealCost <==> st.anyRealCost || PriceSeenIn(cfg, script)
  {
  }

  lemma {:induction false} PassWrites(ln: real -> real, cfg: LoopConfig, scripts: Scripts, st: LoopState, n: nat)
    requires ln(2.0) != 0.0 && Starts(ln, cfg, scripts, n) && Continues(ln, cfg, scripts, n)
    requires Matches(cfg, scripts, st, n - 1) && Written(cfg, scripts, st, n - 1)
    ensures Written(cfg, scripts, RunPass(ln, cfg, scripts(n), st, n).st, n)
  {
    StartedPassFits(ln, cfg, scripts, n);
    PassAfterCalls(ln, cfg, scripts, st, n);
    PassFollowsScripts(ln, cfg, scripts, st, n);
    CallsWrite(cfg, scripts, st, n, RpcError);
    EscalationWrites(cfg, scripts, st, MakeCalls(cfg, scripts(n), st, n).0, n);
  }

  lemma {:induction false} StateIsWritten(ln: real -> real, cfg: LoopConfig, scripts: Scripts, n: nat)
    requires ln(2.0) != 0.0 && Starts(ln, cfg, scripts, n)
    ensures Written(cfg, scripts, StateBefore(ln, cfg, scripts, n), n - 1)
  {
    if n > 1 {
      EarlierPassContinues(ln, cfg, scripts, n - 1, n);
      StateIsWritten(ln, cfg, scripts, n - 1);
      StateMatches(ln, cfg, scripts, n - 1);
      PassWrites(ln, cfg, scripts, StateBefore(ln, cfg, scripts, n - 1), n - 1);
    }
  }

  /* ---- The last pass ---- */

  /** Pass n, once started, ends the run for this reason: a call fails, the escalation ladder runs out, or a
      halt rule applies to all that was done so far. */
  predicate EndsFor(ln: real -> real, cfg: LoopConfig, scripts: Scripts, n: nat, halt: Halt)
    requires ln(2.0) != 0.0 && 0 < cfg.halt.maxPasses
  {
    var climbs := CallsLand(cfg, scripts(n)) && ScoresValid(cfg, scripts, n);
    match halt
    case Runtime(f) => PassFailsWith(cfg, scripts(n), f)
    case ByReason(AdtsEscalationExhausted) => climbs && !LadderLeft(cfg, scripts, n)
    case ByReason(reason) =>
      climbs && LadderLeft(cfg, scripts, n)
      && var costs := Costs(cfg, scripts, n);
         Warrants(ln, cfg.halt, Observations(scripts, n), Sum(costs), StatsOf(costs), reason)
    case NaturalExit => false
  }

  /** The confidence reported with a halt after n passes: none with a failure. */
  predicate ConfidenceOf(cfg: LoopConfig, scripts: Scripts, n: nat, halt: Halt, c: Option<real>)
    requires ValidConfig(cfg.halt)
  {
    match halt
    case Runtime(_) => c.None?
    case ByReason(AdtsEscalationExhausted) => c.Some? && IsConfidence(c.value, 1.0, 1.0, Observations(scripts, n))
    case ByReason(reason) => c.Some? && ConfidenceFits(cfg.halt, Observations(scripts, n), Some(reason), c.value)
    case NaturalExit => false
  }

  /** The events of a run that ends in pass n: those of the passes whose calls landed. */
  function EventsMade(cfg: LoopConfig, scripts: Scripts, n: nat): seq<EscalationEvent>
    requires 0 < n
  {
    EventsOf(cfg, scripts, if CallsLand(cfg, scripts(n)) then n else n - 1)
  }

  /** What the escalation step of pass n makes of calls that have landed. */
  predicate Escalated(cfg: LoopConfig, scripts: Scripts, end: PassEnd, n: nat) {
    && BooksMatch(cfg, scripts, end.st, n) && end.st.passes == Rows(cfg, scripts, n) && !end.Cancelled?
    && (end.Aborted? <==> !ScoresValid(cfg, scripts, n))
    && (end.Again? <==> ScoresValid(cfg, scripts, n) && LadderLeft(cfg, scripts, n))
    && (end.Halted? ==> end.halt == ByReason(AdtsEscalationExhausted)
                        && end.confidence == Some(PosteriorMeanCapped(Observations(scripts, n))))
    && (!end.Aborted? ==> end.st.events == EventsOf(cfg, scripts, n))
  }

  lemma {:induction false} LandedPassEscalates(cfg: LoopConfig, scripts: Scripts, st: LoopState, n: nat)
    requires 0 < n && Matches(cfg, scripts, st, n - 1) && Written(cfg, scripts, st, n - 1) && CallsLand(cfg, scripts(n))
    ensures Escalated(cfg, scripts, Escalate(cfg, scripts(n), MakeCalls(cfg, scripts(n), st, n).0, n), n)
  {
    var called := MakeCalls(cfg, scripts(n), st, n).0;
    CallsWrite(cfg, scripts, st, n, RpcError);
    CallsMatch(cfg, scripts, st, n);
    EscalationWrites(cfg, scripts, st, called, n);
    EscalationMatches(cfg, scripts, st, called, n);
    EscalateLeavesBooks(cfg, scripts(n), called, n);
  }

  lemma {:induction false} LandedRun(ln: real -> real, cfg: LoopConfig, scripts: Scripts, n: nat)
    requires ln(2.0) != 0.0 && Starts(ln, cfg, scripts, n) && !Continues(ln, cfg, scripts, n) && CallsLand(cfg, scripts(n))
    ensures n <= cfg.halt.maxPasses
    ensures var escalated := Escalate(cfg, scripts(n), MakeCalls(cfg, scripts(n), StateBefore(ln, cfg, scripts, n), n).0, n);
            Escalated(cfg, scripts, escalated, n) && Run(ln, cfg, scripts) == PostCheck(ln, cfg, escalated)
  {
    var st := StateBefore(ln, cfg, scripts, n);
    StartedPassFits(ln, cfg, scripts, n);
    RunFollowsScripts(ln, cfg, scripts, n);
    StateIsWritten(ln, cfg, scripts, n);
    PassAfterCalls(ln, cfg, scripts, st, n);
    LandedPassEscalates(cfg, scripts, st, n);
    CallsMatch(cfg, scripts, st, n);
  }

  /** The end of a run whose last calls landed. */
  predicate LandedAnswer(ln: real -> real, cfg: LoopConfig, scripts: Scripts, end: PassEnd, n: nat, halt: Halt)
    requires ln(2.0) != 0.0 && ValidConfig(cfg.halt) && 0 < n
  {
    && end.st.passes == Rows(cfg, scripts, n) && BooksMatch(cfg, scripts, end.st, n) && !end.Cancelled?
    && (end.Aborted? <==> !ScoresValid(cfg, scripts, n))
    && (end.Halted? && end.halt == halt <==> EndsFor(ln, cfg, scripts, n, halt))
    && (end.Halted? ==> ConfidenceOf(cfg, scripts, n, end.halt, end.confidence)
                        && end.st.events == EventsMade(cfg, scripts, n))
  }

  lemma {:induction false} LandedHalt(ln: real -> real, cfg: LoopConfig, scripts: Scripts, n: nat, halt: Halt)
    requires IsLogarithm(ln) && ln(2.0) != 0.0 && Starts(ln, cfg, scripts, n) && !Continues(ln, cfg, scripts, n)
    requires CallsLand(cfg, scripts(n))
    ensures LandedAnswer(ln, cfg, scripts, Run(ln, cfg, scripts), n, halt)
  {
    LandedRun(ln, cfg, scripts, n);
    var called := MakeCalls(cfg, scripts(n), StateBefore(ln, cfg, scripts, n), n).0;
    RunEnds(ln, cfg, scripts, n);
    EscalatedHalt(ln, cfg, scripts, Escalate(cfg, scripts(n), called, n), n, halt);
  }

  lemma {:induction false} EscalatedHalt(ln: real -> real, cfg: LoopConfig, scripts: Scripts, escalated: PassEnd, n: nat, halt: Halt)
    requires IsLogarithm(ln) && ln(2.0) != 0.0 && ValidConfig(cfg.halt) && 0 < n <= cfg.halt.maxPasses
    requires Escalated(cfg, scripts, escalated, n) && CallsLand(cfg, scripts(n))
    requires !PostCheck(ln, cfg, escalated).Again?
    ensures LandedAnswer(ln, cfg, scripts, PostCheck(ln, cfg, escalated), n, halt)
  {
    if escalated.Again? {
      ClimbedHalt(ln, cfg, scripts, escalated, n, halt);
    } else if escalated.Halted? {
      ExhaustedHalt(ln, cfg, scripts, escalated, n, halt);
    } else {
      LandsMeansNoFailure(cfg, scripts(n), halt);
    }
  }

  lemma {:induction false} ExhaustedHalt(ln: real -> real, cfg: LoopConfig, scripts: Scripts, end: PassEnd, n: nat, halt: Halt)
    requires ln(2.0) != 0.0 && ValidConfig(cfg.halt) && 0 < n && end.Halted?
    requires Escalated(cfg, scripts, end, n) && CallsLand(cfg, scripts(n))
    ensures LandedAnswer(ln, cfg, scripts, end, n, halt)
  {
    LandsMeansNoFailure(cfg, scripts(n), halt);
    MeanIsConfidence(Observations(scripts, n));
  }

  lemma {:induction false} MeanIsConfidence(obs: seq<PassObservation>)
    ensures IsConfidence(PosteriorMeanCapped(obs), 1.0, 1.0, obs)
  {
    CountsGiveConfidence(1.0, 1.0, obs);
  }

  lemma {:induction false} ClimbedHalt(ln: real -> real, cfg: LoopConfig, scripts: Scripts, escalated: PassEnd, n: nat, halt: Halt)
    requires IsLogarithm(ln) && ln(2.0) != 0.0 && ValidConfig(cfg.halt) && 0 < n <= cfg.halt.maxPasses
    requires Escalated(cfg, scripts, escalated, n) && CallsLand(cfg, scripts(n)) && escalated.Again?
    requires !PostCheck(ln, cfg, escalated).Again?
    ensures LandedAnswer(ln, cfg, scripts, PostCheck(ln, cfg, escalated), n, halt)
  {
    LandsMeansNoFailure(cfg, scripts(n), halt);
    CheckedHalt(ln, cfg, scripts, escalated, n, halt);
    var end := PostCheck(ln, cfg, escalated);
    CheckedEnds(ln, cfg, scripts, end, n, halt);
  }

  lemma {:induction false} CheckedEnds(ln: real -> real, cfg: LoopConfig, scripts: Scripts, end: PassEnd, n: nat, halt: Halt)
    requires ln(2.0) != 0.0 && ValidConfig(cfg.halt) && end.Halted? && end.halt.ByReason? && end.halt.reason != AdtsEscalationExhausted
    requires CallsLand(cfg, scripts(n)) && ScoresValid(cfg, scripts, n) && LadderLeft(cfg, scripts, n)
    requires halt.ByReason? ==>
               (end.halt == halt <==>
                var costs := Costs(cfg, scripts, n);
                Warrants(ln, cfg.halt, Observations(scripts, n), Sum(costs), StatsOf(costs), halt.reason))
    ensures end.halt == halt <==> EndsFor(ln, cfg, scripts, n, halt)
  {
    LandsMeansNoFailure(cfg, scripts(n), halt);
  }

  lemma {:induction false} LandsMeansNoFailure(cfg: LoopConfig, script: PassScript, halt: Halt)
    requires CallsLand(cfg, script)
    ensures halt.Runtime? ==> !PassFailsWith(cfg, script, halt.failure)
    ensures !PassInterrupted(cfg, script)
  {
  }

  lemma {:induction false} CheckedHalt(ln: real -> real, cfg: LoopConfig, scripts: Scripts, escalated: PassEnd, n: nat, halt: Halt)
    requires IsLogarithm(ln) && ln(2.0) != 0.0 && ValidConfig(cfg.halt) && n <= cfg.halt.maxPasses
    requires BooksMatch(cfg, scripts, escalated.st, n) && escalated.Again?
    ensures var end := PostCheck(ln, cfg, escalated);
            var costs := Costs(cfg, scripts, n);
            && end.st == escalated.st && !end.Cancelled? && !end.Aborted?
            && (end.Halted? ==> end.halt.ByReason? && end.halt.reason != AdtsEscalationExhausted
                                && ConfidenceOf(cfg, scripts, n, end.halt, end.confidence))
            && (halt.ByReason? ==>
                  (end.Halted? && end.halt == halt <==>
                   Warrants(ln, cfg.halt, Observations(scripts, n), Sum(costs), StatsOf(costs), halt.reason)))
  {
    var costs := Costs(cfg, scripts, n);
    var reason := if halt.ByReason? then halt.reason else Budget;
    DecidesExactly(ln, cfg.halt, Observations(scripts, n), Sum(costs), StatsOf(costs), reason);
    DecidesExactly(ln, cfg.halt, Observations(scripts, n), Sum(costs), StatsOf(costs), AdtsEscalationExhausted);
  }

  /** The end of a run whose last calls did not all land. */
  lemma {:induction false} StoppedHalt(ln: real -> real, cfg: LoopConfig, scripts: Scripts, n: nat, halt: Halt)
    requires ln(2.0) != 0.0 && Starts(ln, cfg, scripts, n) && !CallsLand(cfg, scripts(n))
    ensures var end := Run(ln, cfg, scripts);
            && end.st.passes == Rows(cfg, scripts, n) && !end.Aborted?
            && (end.Cancelled? <==> PassInterrupted(cfg, scripts(n)))
            && (end.Halted? && end.halt == halt <==> EndsFor(ln, cfg, scripts, n, halt))
            && (end.Halted? ==> ConfidenceOf(cfg, scripts, n, end.halt, end.confidence)
                                && end.st.events == EventsMade(cfg, scripts, n))
  {
    var st := StateBefore(ln, cfg, scripts, n);
    RunEnds(ln, cfg, scripts, n);
    StateIsWritten(ln, cfg, scripts, n);
    var failure := if halt.Runtime? then halt.failure else RpcError;
    CallsWrite(cfg, scripts, st, n, failure);
  }

  /** What the outcome says the layer has cost: nothing when no row was written or no cost was told. */
  function TotalOf(cfg: LoopConfig, scripts: Scripts, n: nat): Option<real>
    requires 0 < n
  {
    if Rows(cfg, scripts, n) != [] && (PricedWithin(cfg, scripts, n - 1) || PriceSeenIn(cfg, scripts(n)))
    then Some(Sum(CostsOf(Rows(cfg, scripts, n)))) else None
  }

  lemma {:induction false} LastPassTotal(ln: real -> real, cfg: LoopConfig, scripts: Scripts, n: nat)
    requires ln(2.0) != 0.0 && Starts(ln, cfg, scripts, n) && !Continues(ln, cfg, scripts, n)
    ensures var st := Run(ln, cfg, scripts).st;
            && BooksBalance(st)
            && (st.anyRealCost <==> PricedWithin(cfg, scripts, n - 1) || PriceSeenIn(cfg, scripts(n)))
  {
    RunKeepsBooks(ln, cfg, scripts);
    RunEnds(ln, cfg, scripts, n);
    if CallsLand(cfg, scripts(n)) {
      LandedPrice(cfg, scripts(n));
    } else {
      StoppedPrice(cfg, scripts, StateBefore(ln, cfg, scripts, n), n);
    }
  }

  lemma {:induction false} LandedPrice(cfg: LoopConfig, script: PassScript)
    requires CallsLand(cfg, script)
    ensures PriceSeenIn(cfg, script) <==> AnyCallPriced(cfg, script)
  {
    LandsExactly(cfg, script.primary);
    LandsExactly(cfg, script.adversary);
  }

  lemma {:induction false} StoppedPrice(cfg: LoopConfig, scripts: Scripts, st: LoopState, n: nat)
    requires 0 < n && Matches(cfg, scripts, st, n - 1)
    ensures MakeCalls(cfg, scripts(n), st, n).0.anyRealCost <==>
              PricedWithin(cfg, scripts, n - 1) || PriceSeenIn(cfg, scripts(n))
  {
    CallsSeePrice(cfg, scripts(n), st, n);
  }

  lemma {:induction false} RunKeepsBooks(ln: real -> real, cfg: LoopConfig, scripts: Scripts)
    requires ln(2.0) != 0.0 && 0 < cfg.halt.maxPasses
    ensures BooksBalance(Run(ln, cfg, scripts).st)
  {
    RunEndsWell(ln, cfg, scripts, INITIAL, 1);
  }

  /** The outcome of a run that ends in pass n. */
  predicate OutcomeIs(ln: real -> real, cfg: LoopConfig, scripts: Scripts, n: nat, o: AdaptiveOutcome)
    requires ln(2.0) != 0.0 && ValidConfig(cfg.halt) && 0 < n
  {
    && o.passes == Rows(cfg, scripts, n)
    && EndsFor(ln, cfg, scripts, n, o.haltedBy)
    && ConfidenceOf(cfg, scripts, n, o.haltedBy, o.finalConfidence)
    && o.totalCostUsd == TotalOf(cfg, scripts, n)
    && o.events == if EventsMade(cfg, scripts, n) == [] then None else Some(EventsMade(cfg, scripts, n))
  }

  /** What the loop returns from its last pass: nothing when that is interrupted, an error when its scores cannot
      be compared, else the outcome told by the scripts, whose reason is the only one that applies; and the
      durable store has the same rows whatever it returns. */
  lemma {:induction false} AnswerOfLastPass(ln: real -> real, cfg: LoopConfig, scripts: Scripts, n: nat, halt: Halt)
    requires IsLogarithm(ln) && ln(2.0) != 0.0 && Starts(ln, cfg, scripts, n) && !Continues(ln, cfg, scripts, n)
    ensures Run(ln, cfg, scripts).st.sink == Rows(cfg, scripts, n)
    ensures var r := Answer(ln, cfg, scripts);
            && (r.None? <==> PassInterrupted(cfg, scripts(n)))
            && (r.Some? && r.value.Err? <==> CallsLand(cfg, scripts(n)) && !ScoresValid(cfg, scripts, n))
            && (r.Some? && r.value.Ok? ==> OutcomeIs(ln, cfg, scripts, n, r.value.value))
            && (r.Some? && r.value.Ok? && r.value.value.haltedBy == halt <==> EndsFor(ln, cfg, scripts, n, halt))
  {
    var end := Run(ln, cfg, scripts);
    var given := if end.Halted? then end.halt else halt;
    LastPassTotal(ln, cfg, scripts, n);
    OnlyAdtsEscalates(cfg, scripts, n);
    if CallsLand(cfg, scripts(n)) {
      LandedHalt(ln, cfg, scripts, n, halt);
      LandedHalt(ln, cfg, scripts, n, given);
      LandsMeansNoFailure(cfg, scripts(n), halt);
    } else {
      StoppedHalt(ln, cfg, scripts, n, halt);
      StoppedHalt(ln, cfg, scripts, n, given);
    }
  }

  lemma {:induction false} OnlyAdtsEscalates(cfg: LoopConfig, scripts: Scripts, n: nat)
    ensures cfg.halt.algo != Adts ==> EventsOf(cfg, scripts, n) == []
    ensures 0 < n && cfg.halt.algo != Adts ==> EventsMade(cfg, scripts, n) == []
  {
    if 0 < n {
      OnlyAdtsEscalates(cfg, scripts, n - 1);
    }
  }

  /* ---- The whole run ---- */

  predicate HaltsWith(ln: real -> real, cfg: LoopConfig, scripts: Scripts, halt: Halt)
    requires ln(2.0) != 0.0
  {
    var r := Answer(ln, cfg, scripts);
    r.Some? && r.value.Ok? && r.value.value.haltedBy == halt
  }

  lemma {:induction false} EndedPassIsLast(ln: real -> real, cfg: LoopConfig, scripts: Scripts, n: nat, halt: Halt)
    requires IsLogarithm(ln) && ln(2.0) != 0.0 && Starts(ln, cfg, scripts, n) && EndsFor(ln, cfg, scripts, n, halt)
    ensures !Continues(ln, cfg, scripts, n)
  {
    StartsWithinLimit(ln, cfg, scripts, n);
    if CallsLand(cfg, scripts(n)) {
      LandsMeansNoFailure(cfg, scripts(n), halt);
      var costs := Costs(cfg, scripts, n);
      DecidesExactly(ln, cfg.halt, Observations(scripts, n), Sum(costs), StatsOf(costs),
                     if halt.ByReason? then halt.reason else Budget);
    }
  }

  /** Without passes to make the loop falls through. */
  lemma {:induction false} NoPassAllowed(ln: real -> real, cfg: LoopConfig, scripts: Scripts)
    requires ln(2.0) != 0.0 && cfg.halt.maxPasses == 0
    ensures Answer(ln, cfg, scripts) == Some(Ok(AdaptiveOutcome([], NaturalExit, Some(0.5), None, None)))
    ensures Run(ln, cfg, scripts).st.sink == []
  {
    RunFromStep(ln, cfg, scripts, INITIAL, 1);
    assert PosteriorMeanCapped([]) == 0.5;
  }

  /** A faulty configuration makes it fail before the first call. */
  lemma {:induction false} FaultIsAnswered(ln: real -> real, cfg: LoopConfig, scripts: Scripts)
    requires ln(2.0) != 0.0 && 0 < cfg.halt.maxPasses && !ValidConfig(cfg.halt)
    ensures Answer(ln, cfg, scripts)
            == Some(Err(if cfg.halt.budgetUsd < 0.0 then InvalidBudget(cfg.halt.budgetUsd)
                        else if cfg.halt.algo == Vec then InvalidEntropyFloor(cfg.halt.vec.entropyFloor)
                        else SprtFault(cfg.halt.sprt, cfg.halt.minConfidence)))
    ensures Run(ln, cfg, scripts).st.sink == []
  {
    RunFromStep(ln, cfg, scripts, INITIAL, 1);
    FaultsReported(ln, cfg.halt);
  }

  /** Over any run: the loop gives a reason for its halt exactly when some pass that starts ends for it; falling
      through is the reason exactly when no pass is allowed. */
  lemma {:induction false} HaltedByExactly(ln: real -> real, cfg: LoopConfig, scripts: Scripts, halt: Halt)
    requires IsLogarithm(ln) && ln(2.0) != 0.0
    ensures HaltsWith(ln, cfg, scripts, halt) <==>
              if cfg.halt.maxPasses == 0 then halt == NaturalExit
              else exists n :: Starts(ln, cfg, scripts, n) && EndsFor(ln, cfg, scripts, n, halt)
  {
    if cfg.halt.maxPasses == 0 {
      NoPassAllowed(ln, cfg, scripts);
    } else if ValidConfig(cfg.halt) {
      var last := LastPassExists(ln, cfg, scripts, 1);
      AnswerOfLastPass(ln, cfg, scripts, last, halt);
      forall n | Starts(ln, cfg, scripts, n) && EndsFor(ln, cfg, scripts, n, halt) ensures n == last {
        EndedPassIsLast(ln, cfg, scripts, n, halt);
        LastPassIsUnique(ln, cfg, scripts, n, last);
      }
    } else {
      FaultIsAnswered(ln, cfg, scripts);
    }
  }
}
