/** How far a run of the adaptive loop gets, told from the configuration and the scripts alone: the
    loop carries costs, observations, scores and escalations from pass to pass; here they are
    functions of the calls made so far. */
module AdaptiveRuns {
  import opened Common
  import opened AdaptiveTypes
  import opened CostProjector
  import opened Escalation
  import opened HaltDispatch
  import opened AdaptiveLoop
  import opened Sprt

  type Scripts = nat -> PassScript

  /* ---- Calls ---- */

  /** The call returned a cost that the loop records. */
  predicate Priced(cfg: LoopConfig, call: Call) {
    call.Returned? && Debit(cfg, call.outcome.cost).Some? && Debit(cfg, call.outcome.cost).value.0.Some?
  }

  /** The call returned, its cost is acceptable and its row was persisted. */
  predicate Lands(cfg: LoopConfig, call: Call) {
    call.Returned? && Debit(cfg, call.outcome.cost).Some? && call.persisted
  }

  /** What the call adds to the running total. */
  function Charge(cfg: LoopConfig, call: Call): real {
    if call.Returned? && Debit(cfg, call.outcome.cost).Some? then Debit(cfg, call.outcome.cost).value.1 else 0.0
  }

  predicate CallsLand(cfg: LoopConfig, script: PassScript) {
    Lands(cfg, script.primary) && (CallsAdversary(cfg) ==> Lands(cfg, script.adversary))
  }

  predicate AnyCallPriced(cfg: LoopConfig, script: PassScript) {
    Priced(cfg, script.primary) || (CallsAdversary(cfg) && Priced(cfg, script.adversary))
  }

  function Charges(cfg: LoopConfig, script: PassScript): seq<real> {
    [Charge(cfg, script.primary)] + if CallsAdversary(cfg) then [Charge(cfg, script.adversary)] else []
  }

  function ObservationOf(script: PassScript): PassObservation {
    if script.primary.Returned? then script.primary.outcome.observation else Failure
  }

  /* ---- The first n passes ---- */

  function Costs(cfg: LoopConfig, scripts: Scripts, n: nat): seq<real> {
    if n == 0 then [] else Costs(cfg, scripts, n - 1) + Charges(cfg, scripts(n))
  }

  function Observations(scripts: Scripts, n: nat): (obs: seq<PassObservation>)
    ensures |obs| == n
  {
    if n == 0 then [] else Observations(scripts, n - 1) + [ObservationOf(scripts(n))]
  }

  function Pairs(cfg: LoopConfig, scripts: Scripts, n: nat): seq<PairedScore> {
    if n == 0 then [] else Pairs(cfg, scripts, n - 1) + NewPair(cfg, scripts(n))
  }

  /** How many of the first n passes ended with the evaluators apart. */
  function Divergent(cfg: LoopConfig, scripts: Scripts, n: nat): nat {
    if n == 0 then 0
    else Divergent(cfg, scripts, n - 1) + if Diverges(Pairs(cfg, scripts, n), cfg.adts) then 1 else 0
  }

  predicate PricedWithin(cfg: LoopConfig, scripts: Scripts, n: nat) {
    n != 0 && (PricedWithin(cfg, scripts, n - 1) || AnyCallPriced(cfg, scripts(n)))
  }

  function DecisionAfter(ln: real -> real, cfg: LoopConfig, scripts: Scripts, n: nat): Result<HaltDecision, AdaptiveError>
    requires ln(2.0) != 0.0
  {
    var costs := Costs(cfg, scripts, n);
    DecideHalt(ln, cfg.halt, Observations(scripts, n), Sum(costs), StatsOf(costs))
  }

  predicate ScoresValid(cfg: LoopConfig, scripts: Scripts, n: nat) {
    cfg.halt.algo == Adts ==> ValidInput(Pairs(cfg, scripts, n), cfg.adts)
  }

  predicate LadderLeft(cfg: LoopConfig, scripts: Scripts, n: nat) {
    cfg.halt.algo == Adts ==> Divergent(cfg, scripts, n) < |LadderOf(cfg.adts.maxDivergenceEscalations)|
  }

  /** No halt rule stops the run after n passes. */
  predicate Undecided(ln: real -> real, cfg: LoopConfig, scripts: Scripts, n: nat)
    requires ln(2.0) != 0.0
  {
    DecisionAfter(ln, cfg, scripts, n).Ok? && !DecisionAfter(ln, cfg, scripts, n).value.halt
  }

  /** Pass n, once started, lets another pass follow. */
  predicate Continues(ln: real -> real, cfg: LoopConfig, scripts: Scripts, n: nat)
    requires ln(2.0) != 0.0 && 0 < n
  {
    && CallsLand(cfg, scripts(n))
    && ScoresValid(cfg, scripts, n) && LadderLeft(cfg, scripts, n)
    && Undecided(ln, cfg, scripts, n)
  }

  /** Pass n starts: the configuration is valid, and every pass before lets another follow. */
  predicate Starts(ln: real -> real, cfg: LoopConfig, scripts: Scripts, n: nat)
    requires ln(2.0) != 0.0
  {
    && ValidConfig(cfg.halt) && 0 < n
    && forall i: nat :: 1 <= i < n ==> Continues(ln, cfg, scripts, i)
  }

  lemma {:induction false} EarlierPassContinues(ln: real -> real, cfg: LoopConfig, scripts: Scripts, i: nat, n: nat)
    requires ln(2.0) != 0.0 && Starts(ln, cfg, scripts, n) && 0 < i < n
    ensures Starts(ln, cfg, scripts, i) && Continues(ln, cfg, scripts, i)
  {
  }

  /* ---- The state of the loop is that of the calls ---- */

  /** The books are in order and hold exactly these charges; `priced`: some of them were reported. */
  predicate BooksHold(st: LoopState, costs: seq<real>, priced: bool) {
    && BooksBalance(st) && CostsOf(st.passes) == costs
    && (st.anyRealCost <==> priced) && (AnyRecordedCost(st.passes) <==> priced)
  }

  predicate BooksMatch(cfg: LoopConfig, scripts: Scripts, st: LoopState, n: nat) {
    && BooksHold(st, Costs(cfg, scripts, n), PricedWithin(cfg, scripts, n))
    && |st.passes| == CallsPerPass(cfg) * n
    && st.observations == Observations(scripts, n)
  }

  predicate LadderMatches(cfg: LoopConfig, scripts: Scripts, st: LoopState, n: nat) {
    cfg.halt.algo == Adts ==>
      && st.pairedScores == Pairs(cfg, scripts, n)
      && st.escalationsUsed == Divergent(cfg, scripts, n) < |LadderOf(cfg.adts.maxDivergenceEscalations)|
  }

  predicate Matches(cfg: LoopConfig, scripts: Scripts, st: LoopState, n: nat) {
    BooksMatch(cfg, scripts, st, n) && LadderMatches(cfg, scripts, st, n)
  }

  lemma {:induction false} NothingPricedYet(cfg: LoopConfig, scripts: Scripts)
    ensures Matches(cfg, scripts, INITIAL, 0)
  {
    assert CostsOf(INITIAL.passes) == [];
  }

  /** One call: it fails exactly when it does not land; else it adds its row and its charge. */
  lemma {:induction false} RecordedCall(
      cfg: LoopConfig, st: LoopState, index: nat, role: Role, call: Call, costs: seq<real>, priced: bool)
    requires BooksHold(st, costs, priced)
    ensures var (st', stop) := RecordCall(cfg, st, index, role, call);
            && (stop.None? <==> Lands(cfg, call))
            && (stop.None? ==> BooksHold(st', costs + [Charge(cfg, call)], priced || Priced(cfg, call)))
            && (stop.Some? ==>
                  && st' == st.(anyRealCost := st'.anyRealCost)
                  && (LosesCost(stop) <==> Priced(cfg, call))
                  && (st'.anyRealCost <==> priced || Priced(cfg, call)))
  {
    RecordKeepsBooks(cfg, st, index, role, call);
    if Lands(cfg, call) {
      var (recorded, observed) := Debit(cfg, call.outcome.cost).value;
      var row := PassResult(index, role, call.outcome.score, recorded, st.nextFreshContext, st.nextElevatedEffort);
      RecordedOneMore(st.passes, row);
      assert CostsOf(st.passes + [row]) == CostsOf(st.passes) + [CostOrZero(row)];
    }
  }

  /** The calls of one pass. */
  lemma {:induction false} RecordedPass(cfg: LoopConfig, script: PassScript, st: LoopState, n: nat, costs: seq<real>, priced: bool)
    requires BooksHold(st, costs, priced)
    ensures var (called, stop) := MakeCalls(cfg, script, st, n);
            && (stop.None? <==> CallsLand(cfg, script))
            && (stop.None? ==> BooksHold(called, costs + Charges(cfg, script), priced || AnyCallPriced(cfg, script)))
  {
    RecordedCall(cfg, st, n, Primary, script.primary, costs, priced);
    var (st1, stop1) := RecordCall(cfg, st, n, Primary, script.primary);
    if stop1.None? {
      var costs1 := costs + [Charge(cfg, script.primary)];
      if CallsAdversary(cfg) {
        RecordedCall(cfg, st1, n, Adversary, script.adversary, costs1, priced || Priced(cfg, script.primary));
        assert costs + Charges(cfg, script) == costs1 + [Charge(cfg, script.adversary)];
        ObservationLeavesBooks(RecordCall(cfg, st1, n, Adversary, script.adversary).0, script);
      } else {
        assert costs + Charges(cfg, script) == costs1;
        ObservationLeavesBooks(st1, script);
      }
    }
  }

  lemma {:induction false} ObservationLeavesBooks(st: LoopState, script: PassScript)
    ensures var st' := st.(observations := st.observations + [ObservationOf(script)]);
            forall costs, priced :: BooksHold(st, costs, priced) ==> BooksHold(st', costs, priced)
  {
  }

  lemma {:induction false} CallsMatch(cfg: LoopConfig, scripts: Scripts, st: LoopState, n: nat)
    requires 0 < n && BooksMatch(cfg, scripts, st, n - 1)
    ensures var (called, stop) := MakeCalls(cfg, scripts(n), st, n);
            && (stop.None? <==> CallsLand(cfg, scripts(n)))
            && (stop.None? ==> BooksMatch(cfg, scripts, called, n))
            && OnlyBooksDiffer(st, called)
  {
    CallsOnlyAppend(cfg, scripts(n), st, n);
    RowsOfOneMorePass(CallsPerPass(cfg), n);
    RecordedPass(cfg, scripts(n), st, n, Costs(cfg, scripts, n - 1), PricedWithin(cfg, scripts, n - 1));
  }

  /** The error of run_adts on these scores. */
  function ScoreError(cfg: LoopConfig, pairs: seq<PairedScore>): AdaptiveError
    requires !ValidInput(pairs, cfg.adts)
  {
    RunAdts(pairs, 0, cfg.adts).error
  }

  lemma {:induction false} EscalationMatches(cfg: LoopConfig, scripts: Scripts, st: LoopState, called: LoopState, n: nat)
    requires 0 < n && BooksMatch(cfg, scripts, called, n) && LadderMatches(cfg, scripts, st, n - 1)
    requires OnlyBooksDiffer(st, called)
    ensures var end := Escalate(cfg, scripts(n), called, n);
            && BooksMatch(cfg, scripts, end.st, n)
            && (end.Aborted? <==> !ScoresValid(cfg, scripts, n))
            && (end.Aborted? ==> end.error == ScoreError(cfg, Pairs(cfg, scripts, n)))
            && (end.Again? <==> ScoresValid(cfg, scripts, n) && LadderLeft(cfg, scripts, n))
            && (end.Again? ==> LadderMatches(cfg, scripts, end.st, n))
            && (end.Halted? ==> end.halt == ByReason(AdtsEscalationExhausted))
  {
    EscalateLeavesBooks(cfg, scripts(n), called, n);
    if cfg.halt.algo == Adts {
      VerdictIsNextRung(Pairs(cfg, scripts, n), st.escalationsUsed, cfg.adts);
    }
  }

  lemma {:induction false} ValidConfigDecides(ln: real -> real, cfg: HaltConfig, obs: seq<PassObservation>, total: real, stats: Stats)
    requires ln(2.0) != 0.0
    ensures ValidConfig(cfg) ==> DecideHalt(ln, cfg, obs, total, stats).Ok?
    ensures !ValidConfig(cfg) ==> DecideHalt(ln, cfg, [], 0.0, NO_COSTS).Err?
  {
    if 0 < cfg.maxPasses {
      FirstPassAlwaysFits(cfg);
    }
  }

  /** The check passes: the configuration is fine, and one more call fits. */
  predicate CheckPasses(ln: real -> real, cfg: LoopConfig, scripts: Scripts, n: nat)
    requires ln(2.0) != 0.0 && 0 < cfg.halt.maxPasses
  {
    && DecisionAfter(ln, cfg, scripts, n).Ok? && DecisionAfter(ln, cfg, scripts, n).value.reason != Some(Budget)
    && FitsBudget(cfg.halt, Sum(Costs(cfg, scripts, n)), StatsOf(Costs(cfg, scripts, n)))
  }

  lemma {:induction false} FirstCheckPasses(ln: real -> real, cfg: LoopConfig, scripts: Scripts)
    requires ln(2.0) != 0.0 && ValidConfig(cfg.halt)
    ensures CheckPasses(ln, cfg, scripts, 0)
  {
    FirstPassAlwaysFits(cfg.halt);
    ValidConfigDecides(ln, cfg.halt, [], 0.0, NO_COSTS);
    FitsUnlessBudgetHalt(ln, cfg.halt, [], 0.0, NO_COSTS);
  }

  lemma {:induction false} UndecidedFits(ln: real -> real, cfg: HaltConfig, obs: seq<PassObservation>, total: real, stats: Stats)
    requires ln(2.0) != 0.0 && 0 < cfg.maxPasses
    requires DecideHalt(ln, cfg, obs, total, stats).Ok? && !DecideHalt(ln, cfg, obs, total, stats).value.halt
    ensures FitsBudget(cfg, total, stats) && |obs| % 0x1_0000_0000 < cfg.maxPasses
  {
  }

  lemma {:induction false} CheckAfterPasses(ln: real -> real, cfg: LoopConfig, scripts: Scripts, n: nat)
    requires ln(2.0) != 0.0 && ValidConfig(cfg.halt) && 0 < n && Continues(ln, cfg, scripts, n)
    ensures CheckPasses(ln, cfg, scripts, n) && n % 0x1_0000_0000 < cfg.halt.maxPasses
  {
    var costs := Costs(cfg, scripts, n);
    UndecidedFits(ln, cfg.halt, Observations(scripts, n), Sum(costs), StatsOf(costs));
  }

  lemma {:induction false} StartsWithinLimit(ln: real -> real, cfg: LoopConfig, scripts: Scripts, n: nat)
    requires ln(2.0) != 0.0 && Starts(ln, cfg, scripts, n)
    ensures n <= cfg.halt.maxPasses
  {
    if n > 1 {
      EarlierPassContinues(ln, cfg, scripts, n - 1, n);
      StartsWithinLimit(ln, cfg, scripts, n - 1);
      CheckAfterPasses(ln, cfg, scripts, n - 1);
    }
  }

  /** Starting a pass never fails: the check before it repeats the one after the pass before. */
  lemma {:induction false} StartedPassFits(ln: real -> real, cfg: LoopConfig, scripts: Scripts, n: nat)
    requires ln(2.0) != 0.0 && Starts(ln, cfg, scripts, n)
    ensures n <= cfg.halt.maxPasses && CheckPasses(ln, cfg, scripts, n - 1)
  {
    StartsWithinLimit(ln, cfg, scripts, n);
    if n == 1 {
      FirstCheckPasses(ln, cfg, scripts);
    } else {
      EarlierPassContinues(ln, cfg, scripts, n - 1, n);
      CheckAfterPasses(ln, cfg, scripts, n - 1);
    }
  }

  /** The run was stopped in the middle of a pass, by a failed call or by a cancellation. */
  predicate StoppedInCall(end: PassEnd) {
    end.Cancelled? || (end.Halted? && end.halt.Runtime?)
  }

  /** A started pass whose calls do not all land ends with the call that did not. */
  lemma {:induction false} UnlandedPassStops(ln: real -> real, cfg: LoopConfig, scripts: Scripts, st: LoopState, n: nat)
    requires ln(2.0) != 0.0 && Starts(ln, cfg, scripts, n) && BooksMatch(cfg, scripts, st, n - 1)
    requires !CallsLand(cfg, scripts(n))
    ensures var (called, stop) := MakeCalls(cfg, scripts(n), st, n);
            stop.Some? && RunPass(ln, cfg, scripts(n), st, n) == StoppedBy(called, stop.value)
  {
    StartedPassFits(ln, cfg, scripts, n);
    CallsMatch(cfg, scripts, st, n);
    PassAfterCalls(ln, cfg, scripts, st, n);
  }

  lemma {:induction false} PassAfterCalls(ln: real -> real, cfg: LoopConfig, scripts: Scripts, st: LoopState, n: nat)
    requires ln(2.0) != 0.0 && 0 < n && 0 < cfg.halt.maxPasses && BooksMatch(cfg, scripts, st, n - 1)
    requires CheckPasses(ln, cfg, scripts, n - 1)
    ensures var (called, stop) := MakeCalls(cfg, scripts(n), st, n);
            RunPass(ln, cfg, scripts(n), st, n)
            == if stop.Some? then StoppedBy(called, stop.value) else PostCheck(ln, cfg, Escalate(cfg, scripts(n), called, n))
  {
  }

  /** One whose calls land goes on, aborts or halts as scores, ladder and halt rules say. */
  lemma {:induction false} LandedPassFollows(ln: real -> real, cfg: LoopConfig, scripts: Scripts, st: LoopState, n: nat)
    requires ln(2.0) != 0.0 && Starts(ln, cfg, scripts, n) && Matches(cfg, scripts, st, n - 1)
    requires CallsLand(cfg, scripts(n))
    ensures LandedEnd(ln, cfg, scripts, RunPass(ln, cfg, scripts(n), st, n), n)
  {
    StartedPassFits(ln, cfg, scripts, n);
    CallsMatch(cfg, scripts, st, n);
    PassAfterCalls(ln, cfg, scripts, st, n);
    var called := MakeCalls(cfg, scripts(n), st, n).0;
    CalledPassFollows(ln, cfg, scripts, st, called, RunPass(ln, cfg, scripts(n), st, n), n);
  }

  /** What becomes of a pass once its calls have landed. */
  predicate LandedEnd(ln: real -> real, cfg: LoopConfig, scripts: Scripts, end: PassEnd, n: nat)
    requires ln(2.0) != 0.0 && 0 < n
  {
    && (end.Again? <==> ScoresValid(cfg, scripts, n) && LadderLeft(cfg, scripts, n) && Undecided(ln, cfg, scripts, n))
    && (end.Again? ==> LadderMatches(cfg, scripts, end.st, n))
    && (end.Aborted? <==> !ScoresValid(cfg, scripts, n))
    && (end.Aborted? ==> end.error == ScoreError(cfg, Pairs(cfg, scripts, n)))
    && BooksMatch(cfg, scripts, end.st, n) && !StoppedInCall(end)
  }

  lemma {:induction false} CalledPassFollows(
      ln: real -> real, cfg: LoopConfig, scripts: Scripts, st: LoopState, called: LoopState, end: PassEnd, n: nat)
    requires ln(2.0) != 0.0 && 0 < n && ValidConfig(cfg.halt)
    requires BooksMatch(cfg, scripts, called, n) && LadderMatches(cfg, scripts, st, n - 1) && OnlyBooksDiffer(st, called)
    requires end == PostCheck(ln, cfg, Escalate(cfg, scripts(n), called, n))
    ensures LandedEnd(ln, cfg, scripts, end, n)
  {
    EscalationMatches(cfg, scripts, st, called, n);
    PostCheckFollows(ln, cfg, scripts, Escalate(cfg, scripts(n), called, n), n);
  }

  lemma {:induction false} PostCheckFollows(ln: real -> real, cfg: LoopConfig, scripts: Scripts, escalated: PassEnd, n: nat)
    requires ln(2.0) != 0.0 && ValidConfig(cfg.halt) && BooksMatch(cfg, scripts, escalated.st, n)
    ensures var end := PostCheck(ln, cfg, escalated);
            && end.st == escalated.st
            && (end.Again? <==> escalated.Again? && Undecided(ln, cfg, scripts, n))
            && (end.Aborted? ==> end == escalated)
            && (StoppedInCall(end) ==> StoppedInCall(escalated))
  {
    var costs := Costs(cfg, scripts, n);
    ValidConfigDecides(ln, cfg.halt, Observations(scripts, n), Sum(costs), StatsOf(costs));
  }

  /** One pass of the loop, from a state that is that of the calls so far. */
  lemma {:induction false} PassFollowsScripts(ln: real -> real, cfg: LoopConfig, scripts: Scripts, st: LoopState, n: nat)
    requires ln(2.0) != 0.0 && Starts(ln, cfg, scripts, n) && Matches(cfg, scripts, st, n - 1)
    ensures var end := RunPass(ln, cfg, scripts(n), st, n);
            && (end.Again? <==> Continues(ln, cfg, scripts, n))
            && (end.Again? ==> Matches(cfg, scripts, end.st, n))
            && (end.Aborted? <==> CallsLand(cfg, scripts(n)) && !ScoresValid(cfg, scripts, n))
            && (end.Aborted? ==> end.error == ScoreError(cfg, Pairs(cfg, scripts, n)))
            && (CallsLand(cfg, scripts(n)) ==> BooksMatch(cfg, scripts, end.st, n))
            && (StoppedInCall(end) <==> !CallsLand(cfg, scripts(n)))
            && (!CallsLand(cfg, scripts(n)) ==>
                  var (called, stop) := MakeCalls(cfg, scripts(n), st, n);
                  stop.Some? && end == StoppedBy(called, stop.value))
  {
    if CallsLand(cfg, scripts(n)) {
      LandedPassFollows(ln, cfg, scripts, st, n);
    } else {
      UnlandedPassStops(ln, cfg, scripts, st, n);
    }
  }

  lemma {:induction false} NextPassStarts(ln: real -> real, cfg: LoopConfig, scripts: Scripts, n: nat)
    requires ln(2.0) != 0.0 && Starts(ln, cfg, scripts, n) && Continues(ln, cfg, scripts, n)
    ensures Starts(ln, cfg, scripts, n + 1) && n < cfg.halt.maxPasses
  {
    StartsWithinLimit(ln, cfg, scripts, n + 1);
  }

  /* ---- The loop, for any body ---- */

  function Before(body: Body, n: nat): LoopState
    requires 0 < n
  {
    if n == 1 then INITIAL else body(Before(body, n - 1), n - 1).st
  }

  predicate GoesOn(body: Body, maxPasses: nat, n: nat) {
    0 < n <= maxPasses && body(Before(body, n), n).Again?
  }

  lemma {:induction false} LoopReaches(body: Body, maxPasses: nat, n: nat)
    requires 0 < n && forall i: nat :: 1 <= i < n ==> GoesOn(body, maxPasses, i)
    ensures Loop(body, maxPasses, INITIAL, 1) == Loop(body, maxPasses, Before(body, n), n)
  {
    if n > 1 {
      LoopReaches(body, maxPasses, n - 1);
      assert GoesOn(body, maxPasses, n - 1);
    }
  }

  /** The loop's state when pass n is about to start. */
  function StateBefore(ln: real -> real, cfg: LoopConfig, scripts: Scripts, n: nat): LoopState
    requires ln(2.0) != 0.0 && 0 < n
  {
    Before(BodyOf(ln, cfg, scripts), n)
  }

  lemma {:induction false} StateMatches(ln: real -> real, cfg: LoopConfig, scripts: Scripts, n: nat)
    requires ln(2.0) != 0.0 && Starts(ln, cfg, scripts, n)
    ensures Matches(cfg, scripts, StateBefore(ln, cfg, scripts, n), n - 1)
  {
    if n == 1 {
      NothingPricedYet(cfg, scripts);
    } else {
      EarlierPassContinues(ln, cfg, scripts, n - 1, n);
      StateMatches(ln, cfg, scripts, n - 1);
      PassFollowsScripts(ln, cfg, scripts, StateBefore(ln, cfg, scripts, n - 1), n - 1);
    }
  }

  lemma {:induction false} StartedPassGoesOn(ln: real -> real, cfg: LoopConfig, scripts: Scripts, n: nat)
    requires ln(2.0) != 0.0 && Starts(ln, cfg, scripts, n)
    ensures n <= cfg.halt.maxPasses
    ensures BodyOf(ln, cfg, scripts)(StateBefore(ln, cfg, scripts, n), n).Again? <==> Continues(ln, cfg, scripts, n)
  {
    StartsWithinLimit(ln, cfg, scripts, n);
    StateMatches(ln, cfg, scripts, n);
    PassFollowsScripts(ln, cfg, scripts, StateBefore(ln, cfg, scripts, n), n);
  }

  lemma {:induction false} RunReaches(ln: real -> real, cfg: LoopConfig, scripts: Scripts, n: nat)
    requires ln(2.0) != 0.0 && Starts(ln, cfg, scripts, n)
    ensures Run(ln, cfg, scripts) == RunFrom(ln, cfg, scripts, StateBefore(ln, cfg, scripts, n), n)
  {
    var body := BodyOf(ln, cfg, scripts);
    forall i: nat | 1 <= i < n ensures GoesOn(body, cfg.halt.maxPasses, i) {
      EarlierPassContinues(ln, cfg, scripts, i, n);
      StartedPassGoesOn(ln, cfg, scripts, i);
    }
    LoopReaches(body, cfg.halt.maxPasses, n);
  }

  /** There is a first pass that does not let another follow, */
  lemma {:induction false} LastPassExists(ln: real -> real, cfg: LoopConfig, scripts: Scripts, from: nat) returns (n: nat)
    requires ln(2.0) != 0.0 && Starts(ln, cfg, scripts, from)
    ensures Starts(ln, cfg, scripts, n) && !Continues(ln, cfg, scripts, n)
    decreases cfg.halt.maxPasses - from
  {
    StartedPassFits(ln, cfg, scripts, from);
    if Continues(ln, cfg, scripts, from) {
      NextPassStarts(ln, cfg, scripts, from);
      n := LastPassExists(ln, cfg, scripts, from + 1);
    } else {
      n := from;
    }
  }

  /** and the run ends in it, from a state that is that of the calls before. */
  lemma {:induction false} RunFollowsScripts(ln: real -> real, cfg: LoopConfig, scripts: Scripts, n: nat)
    requires ln(2.0) != 0.0 && Starts(ln, cfg, scripts, n) && !Continues(ln, cfg, scripts, n)
    ensures Matches(cfg, scripts, StateBefore(ln, cfg, scripts, n), n - 1)
    ensures Run(ln, cfg, scripts) == RunPass(ln, cfg, scripts(n), StateBefore(ln, cfg, scripts, n), n)
  {
    StateMatches(ln, cfg, scripts, n);
    RunReaches(ln, cfg, scripts, n);
    StartsWithinLimit(ln, cfg, scripts, n);
    PassFollowsScripts(ln, cfg, scripts, StateBefore(ln, cfg, scripts, n), n);
    RunFromStep(ln, cfg, scripts, StateBefore(ln, cfg, scripts, n), n);
  }

  /** What that makes of the end of the run. */
  lemma {:induction false} RunEnds(ln: real -> real, cfg: LoopConfig, scripts: Scripts, n: nat)
    requires ln(2.0) != 0.0 && Starts(ln, cfg, scripts, n) && !Continues(ln, cfg, scripts, n)
    ensures Matches(cfg, scripts, StateBefore(ln, cfg, scripts, n), n - 1)
    ensures CallsLand(cfg, scripts(n)) ==> LandedEnd(ln, cfg, scripts, Run(ln, cfg, scripts), n)
    ensures !CallsLand(cfg, scripts(n)) ==>
              var (called, stop) := MakeCalls(cfg, scripts(n), StateBefore(ln, cfg, scripts, n), n);
              stop.Some? && Run(ln, cfg, scripts) == StoppedBy(called, stop.value)
  {
    var st := StateBefore(ln, cfg, scripts, n);
    RunFollowsScripts(ln, cfg, scripts, n);
    if CallsLand(cfg, scripts(n)) {
      LandedPassFollows(ln, cfg, scripts, st, n);
    } else {
      UnlandedPassStops(ln, cfg, scripts, st, n);
    }
  }

  /** If the calls of that pass land, the run has cost what the calls up to it have cost. */
  lemma {:induction false} LandedRunCosts(ln: real -> real, cfg: LoopConfig, scripts: Scripts, n: nat)
    requires ln(2.0) != 0.0 && Starts(ln, cfg, scripts, n) && !Continues(ln, cfg, scripts, n)
    requires CallsLand(cfg, scripts(n))
    ensures CostsOf(Run(ln, cfg, scripts).st.passes) == Costs(cfg, scripts, n)
  {
    RunEnds(ln, cfg, scripts, n);
  }

  /** Only one pass can be that one. */
  lemma {:induction false} LastPassIsUnique(ln: real -> real, cfg: LoopConfig, scripts: Scripts, m: nat, n: nat)
    requires ln(2.0) != 0.0
    requires Starts(ln, cfg, scripts, m) && !Continues(ln, cfg, scripts, m)
    requires Starts(ln, cfg, scripts, n) && !Continues(ln, cfg, scripts, n)
    ensures m == n
  {
    if m < n {
      EarlierPassContinues(ln, cfg, scripts, m, n);
    } else if n < m {
      EarlierPassContinues(ln, cfg, scripts, n, m);
    }
  }
}
