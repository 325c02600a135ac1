/** The adaptive pass loop: runs evaluator passes until a halt rule fires, keeping the books of cost
    and escalation. Providers and the metrics store are the environment: a script says what each
    call returned and whether its row was persisted. */
module AdaptiveLoop {
  import opened Common
  import opened AdaptiveTypes
  import opened CostProjector
  import opened Escalation
  import opened HaltDispatch

  datatype PassOutcome = PassOutcome(score: Option<real>, cost: Option<real>, observation: PassObservation)

  /** What became of a call; `Interrupted`: the layer was cancelled while the call was under way. */
  datatype Call = RpcFailed | Returned(outcome: PassOutcome, persisted: bool) | Interrupted

  datatype PassScript = PassScript(primary: Call, adversary: Call)

  datatype LoopConfig = LoopConfig(halt: HaltConfig, adts: AdtsConfig, costTelemetry: bool, hasAdversary: bool)

  datatype Role = Primary | Adversary

  /** One recorded call, with the flags its request carried. */
  datatype PassResult = PassResult(
    index: nat, role: Role, score: Option<real>, cost: Option<real>, freshContext: bool, elevatedEffort: bool)

  datatype EscalationEvent = EscalationEvent(verdict: AdtsVerdict, atPass: nat)

  datatype RuntimeFailure =
    | RpcError
    | InvalidCostUsd
    | MetricsPersistFailed(unrecordedCost: Option<real>)

  /** Why a call did not land: it failed, or there was nobody left to wait for it. */
  datatype Stop = FailedBy(f: RuntimeFailure) | Cancellation

  datatype Halt = ByReason(reason: HaltReason) | Runtime(failure: RuntimeFailure) | NaturalExit

  datatype LoopState = LoopState(
    passes: seq<PassResult>,
    sink: seq<PassResult>,
    observations: seq<PassObservation>,
    pairedScores: seq<PairedScore>,
    events: seq<EscalationEvent>,
    stats: Stats,
    accumulated: real,
    escalationsUsed: u32,
    nextFreshContext: bool,
    nextElevatedEffort: bool,
    anyRealCost: bool)

  const INITIAL := LoopState([], [], [], [], [], NO_COSTS, 0.0, 0, false, false, false)

  datatype AdaptiveOutcome = AdaptiveOutcome(
    passes: seq<PassResult>, haltedBy: Halt, finalConfidence: Option<real>, totalCostUsd: Option<real>,
    events: Option<seq<EscalationEvent>>)

  /** How one pass ended: with another pass to come, with a halt, with a configuration error, or with the
      loop's future dropped in the middle of a call. */
  datatype PassEnd =
    | Again(st: LoopState)
    | Halted(st: LoopState, halt: Halt, confidence: Option<real>)
    | Aborted(st: LoopState, error: AdaptiveError)
    | Cancelled(st: LoopState)

  /* ---- One pass ---- */

  /** The (recorded, observed) cost of a call; None when a budget is enforced and the cost is unusable. */
  function Debit(cfg: LoopConfig, cost: Option<real>): Option<(Option<real>, real)> {
    if cost.Some? && ValidateNonnegative(cost.value).Ok? && cfg.costTelemetry then Some((cost, cost.value))
    else if cfg.halt.budgetUsd > 0.0 then None
    else Some((None, 0.0))
  }

  /** Persist the row first, then commit it to memory. */
  function RecordCall(cfg: LoopConfig, st: LoopState, index: nat, role: Role, call: Call)
    : (r: (LoopState, Option<Stop>))
  {
    match call
    case RpcFailed => (st, Some(FailedBy(RpcError)))
    case Interrupted => (st, Some(Cancellation))
    case Returned(out, persisted) =>
      match Debit(cfg, out.cost)
      case None => (st, Some(FailedBy(InvalidCostUsd)))
      case Some((recorded, observed)) =>
        var seen := st.(anyRealCost := st.anyRealCost || recorded.Some?);
        if !persisted then (seen, Some(FailedBy(MetricsPersistFailed(recorded))))
        else
          var row := PassResult(index, role, out.score, recorded, st.nextFreshContext, st.nextElevatedEffort);
          (Commit(seen, row, observed), None)
  }

  function Commit(st: LoopState, row: PassResult, observed: real): LoopState {
    st.(sink := st.sink + [row], passes := st.passes + [row],
        stats := Observed(st.stats, observed), accumulated := st.accumulated + observed)
  }

  predicate CallsAdversary(cfg: LoopConfig) {
    cfg.halt.algo == Adts && cfg.hasAdversary
  }

  /** The priced calls of one pass, then the observation. */
  function MakeCalls(cfg: LoopConfig, script: PassScript, st: LoopState, index: nat)
    : (r: (LoopState, Option<Stop>))
  {
    var (st1, stop1) := RecordCall(cfg, st, index, Primary, script.primary);
    if stop1.Some? then (st1, stop1)
    else
      var (st2, stop2) := if CallsAdversary(cfg) then RecordCall(cfg, st1, index, Adversary, script.adversary)
                             else (st1, None);
      if stop2.Some? then (st2, stop2)
      else (st2.(observations := st2.observations + [script.primary.outcome.observation]), None)
  }

  /** The scores of a pass that both evaluators scored. */
  function NewPair(cfg: LoopConfig, script: PassScript): seq<PairedScore> {
    if CallsAdversary(cfg) && script.primary.Returned? && script.adversary.Returned?
       && script.primary.outcome.score.Some? && script.adversary.outcome.score.Some?
    then [(script.primary.outcome.score.value, script.adversary.outcome.score.value)]
    else []
  }

  /** The three-level escalation; only the ADTS algorithm takes part. */
  function Escalate(cfg: LoopConfig, script: PassScript, st: LoopState, index: nat): PassEnd {
    if cfg.halt.algo != Adts then Again(st)
    else
      var paired := st.(pairedScores := st.pairedScores + NewPair(cfg, script));
      match RunAdts(paired.pairedScores, paired.escalationsUsed, cfg.adts)
      case Err(e) => Aborted(paired, e)
      case Ok(Continue) => Again(paired.(nextFreshContext := false, nextElevatedEffort := false))
      case Ok(ScheduleExtraPassFreshContext) =>
        Again(paired.(nextFreshContext := true, nextElevatedEffort := false,
                      escalationsUsed := paired.escalationsUsed + 1,
                      events := paired.events + [EscalationEvent(ScheduleExtraPassFreshContext, index)]))
      case Ok(ScheduleExtraPassElevatedEffort) =>
        Again(paired.(nextFreshContext := true, nextElevatedEffort := true,
                      escalationsUsed := paired.escalationsUsed + 1,
                      events := paired.events + [EscalationEvent(ScheduleExtraPassElevatedEffort, index)]))
      case Ok(EscalationExhausted) =>
        Halted(paired.(events := paired.events + [EscalationEvent(EscalationExhausted, index)]),
               ByReason(AdtsEscalationExhausted), Some(PosteriorMeanCapped(paired.observations)))
  }

  /** The halt decision after the pass. */
  function PostCheck(ln: real -> real, cfg: LoopConfig, end: PassEnd): PassEnd
    requires ln(2.0) != 0.0
  {
    if !end.Again? then end
    else
      match DecideHalt(ln, cfg.halt, end.st.observations, end.st.accumulated, end.st.stats)
      case Err(e) => Aborted(end.st, e)
      case Ok(post) =>
        if post.halt then Halted(end.st, ByReason(post.reason.value), Some(post.confidence)) else end
  }

  function StoppedBy(st: LoopState, stop: Stop): PassEnd {
    match stop
    case FailedBy(f) => Halted(st, Runtime(f), None)
    case Cancellation => Cancelled(st)
  }

  /** A pass that the check before it has let start. */
  function StartedPass(ln: real -> real, cfg: LoopConfig, script: PassScript, st: LoopState, index: nat): PassEnd
    requires ln(2.0) != 0.0
  {
    var (called, stop) := MakeCalls(cfg, script, st, index);
    if stop.Some? then StoppedBy(called, stop.value)
    else PostCheck(ln, cfg, Escalate(cfg, script, called, index))
  }

  function RunPass(ln: real -> real, cfg: LoopConfig, script: PassScript, st: LoopState, index: nat): PassEnd
    requires ln(2.0) != 0.0
  {
    match DecideHalt(ln, cfg.halt, st.observations, st.accumulated, st.stats)
    case Err(e) => Aborted(st, e)
    case Ok(pre) =>
      if pre.reason == Some(Budget) then Halted(st, ByReason(Budget), Some(pre.confidence))
      else StartedPass(ln, cfg, script, st, index)
  }

  /* ---- The whole loop ---- */

  type Body = (LoopState, nat) -> PassEnd

  /** The loop from pass `index` on, whatever its body does. */
  function Loop(body: Body, maxPasses: nat, st: LoopState, index: nat): (end: PassEnd)
    ensures !end.Again?
    decreases maxPasses + 1 - index
  {
    if maxPasses < index then Halted(st, NaturalExit, Some(PosteriorMeanCapped(st.observations)))
    else
      var end := body(st, index);
      if end.Again? then Loop(body, maxPasses, end.st, index + 1) else end
  }

  function BodyOf(ln: real -> real, cfg: LoopConfig, scripts: nat -> PassScript): Body
    requires ln(2.0) != 0.0
  {
    (st: LoopState, i: nat) => RunPass(ln, cfg, scripts(i), st, i)
  }

  function RunFrom(ln: real -> real, cfg: LoopConfig, scripts: nat -> PassScript, st: LoopState, index: nat): (end: PassEnd)
    requires ln(2.0) != 0.0
    ensures !end.Again?
  {
    Loop(BodyOf(ln, cfg, scripts), cfg.halt.maxPasses, st, index)
  }

  /** One pass, and the rest of the loop. */
  lemma {:induction false} RunFromStep(ln: real -> real, cfg: LoopConfig, scripts: nat -> PassScript, st: LoopState, index: nat)
    requires ln(2.0) != 0.0
    ensures RunFrom(ln, cfg, scripts, st, index)
            == if cfg.halt.maxPasses < index then Halted(st, NaturalExit, Some(PosteriorMeanCapped(st.observations)))
               else
                 var end := RunPass(ln, cfg, scripts(index), st, index);
                 if end.Again? then RunFrom(ln, cfg, scripts, end.st, index + 1) else end
  {
  }

  function Run(ln: real -> real, cfg: LoopConfig, scripts: nat -> PassScript): (end: PassEnd)
    requires ln(2.0) != 0.0
    ensures !end.Again?
  {
    RunFrom(ln, cfg, scripts, INITIAL, 1)
  }

  /** What the loop returns; nothing when its future was dropped. */
  function Outcome(cfg: LoopConfig, end: PassEnd): Option<Result<AdaptiveOutcome, AdaptiveError>>
    requires !end.Again?
  {
    match end
    case Cancelled(_) => None
    case Aborted(_, e) => Some(Err(e))
    case Halted(st, halt, confidence) =>
      Some(Ok(AdaptiveOutcome(
        st.passes, halt, confidence,
        if st.passes == [] || !st.anyRealCost then None else Some(st.accumulated),
        if cfg.halt.algo == Adts && st.events != [] then Some(st.events) else None)))
  }

  /** What a run returns. */
  function Answer(ln: real -> real, cfg: LoopConfig, scripts: nat -> PassScript): Option<Result<AdaptiveOutcome, AdaptiveError>>
    requires ln(2.0) != 0.0
  {
    Outcome(cfg, Run(ln, cfg, scripts))
  }

  /** The body of the loop, step by step. */
  method PerformPass(ln: real -> real, cfg: LoopConfig, script: PassScript, st: LoopState, index: nat) returns (end: PassEnd)
    requires ln(2.0) != 0.0
    ensures end == RunPass(ln, cfg, script, st, index)
  {
    var pre := DecideHalt(ln, cfg.halt, st.observations, st.accumulated, st.stats);
    if pre.Err? {
      return Aborted(st, pre.error);
    }
    if pre.value.reason == Some(Budget) {
      return Halted(st, ByReason(Budget), Some(pre.value.confidence));
    }
    var (called, stop) := RecordCall(cfg, st, index, Primary, script.primary);
    if stop.Some? {
      return StoppedBy(called, stop.value);
    }
    if CallsAdversary(cfg) {
      var (both, stop2) := RecordCall(cfg, called, index, Adversary, script.adversary);
      if stop2.Some? {
        return StoppedBy(both, stop2.value);
      }
      called := both;
    }
    called := called.(observations := called.observations + [script.primary.outcome.observation]);
    var escalated := Escalate(cfg, script, called, index);
    if !escalated.Again? {
      return escalated;
    }
    var post := DecideHalt(ln, cfg.halt, escalated.st.observations, escalated.st.accumulated, escalated.st.stats);
    if post.Err? {
      return Aborted(escalated.st, post.error);
    }
    if post.value.halt {
      return Halted(escalated.st, ByReason(post.value.reason.value), Some(post.value.confidence));
    }
    return escalated;
  }

  /** The loop as the source runs it: a pass counter, state carried across passes, a break per halt. The rows
      in the durable store are there whatever the loop returns, even if it is dropped and returns nothing. */
  method RunAdaptivePasses(ln: real -> real, cfg: LoopConfig, scripts: nat -> PassScript)
    returns (r: Option<Result<AdaptiveOutcome, AdaptiveError>>, sink: seq<PassResult>)
    requires ln(2.0) != 0.0
    ensures r == Answer(ln, cfg, scripts) && sink == Run(ln, cfg, scripts).st.sink
  {
    var st, index := INITIAL, 1;
    while index <= cfg.halt.maxPasses
      invariant 1 <= index <= cfg.halt.maxPasses + 1
      invariant Run(ln, cfg, scripts) == RunFrom(ln, cfg, scripts, st, index)
    {
      RunFromStep(ln, cfg, scripts, st, index);
      var end := PerformPass(ln, cfg, scripts(index), st, index);
      if !end.Again? {
        return Outcome(cfg, end), end.st.sink;
      }
      st := end.st;
      index := index + 1;
    }
    RunFromStep(ln, cfg, scripts, st, index);
    return Outcome(cfg, Halted(st, NaturalExit, Some(PosteriorMeanCapped(st.observations)))), st.sink;
  }

  /* ---- What every pass keeps ---- */

  function CostOrZero(row: PassResult): real {
    if row.cost.Some? then row.cost.value else 0.0
  }

  function CostsOf(rows: seq<PassResult>): (costs: seq<real>)
    ensures |costs| == |rows| && (forall i :: 0 <= i < |rows| ==> costs[i] == CostOrZero(rows[i]))
  {
    seq(|rows|, i requires 0 <= i < |rows| => CostOrZero(rows[i]))
  }

  predicate AnyRecordedCost(rows: seq<PassResult>) {
    exists i :: 0 <= i < |rows| && rows[i].cost.Some?
  }

  /** The tracker and the running total are those of these costs. */
  predicate Tracks(stats: Stats, total: real, costs: seq<real>) {
    stats == StatsOf(costs) && total == Sum(costs)
  }

  /** The manifest rows, the durable rows, the tracker and the running total all tell one story. */
  predicate BooksBalance(st: LoopState) {
    && st.sink == st.passes
    && Tracks(st.stats, st.accumulated, CostsOf(st.passes))
    && (AnyRecordedCost(st.passes) ==> st.anyRealCost)
  }

  /** Every real cost seen so far is in a recorded row. */
  predicate NothingUnrecorded(st: LoopState) {
    st.anyRealCost ==> AnyRecordedCost(st.passes)
  }

  /** The halt lost a real cost: the call was priced but its row could not be persisted. */
  predicate LostCost(halt: Halt) {
    halt.Runtime? && halt.failure.MetricsPersistFailed? && halt.failure.unrecordedCost.Some?
  }

  predicate LosesCost(stop: Option<Stop>) {
    stop.Some? && stop.value.FailedBy? && LostCost(Runtime(stop.value.f))
  }

  lemma {:induction false} TracksOneMore(stats: Stats, total: real, rows: seq<PassResult>, row: PassResult)
    requires Tracks(stats, total, CostsOf(rows))
    ensures Tracks(Observed(stats, CostOrZero(row)), total + CostOrZero(row), CostsOf(rows + [row]))
  {
    assert CostsOf(rows + [row]) == CostsOf(rows) + [CostOrZero(row)];
    OneMoreCost(CostsOf(rows), CostOrZero(row));
  }

  lemma {:induction false} RecordedOneMore(rows: seq<PassResult>, row: PassResult)
    ensures AnyRecordedCost(rows + [row]) <==> AnyRecordedCost(rows) || row.cost.Some?
  {
    assert (rows + [row])[|rows|] == row;
    assert forall i :: 0 <= i < |rows| ==> (rows + [row])[i] == rows[i];
  }

  lemma {:induction false} RecordKeepsBooks(cfg: LoopConfig, st: LoopState, index: nat, role: Role, call: Call)
    requires BooksBalance(st)
    ensures var (st', stop) := RecordCall(cfg, st, index, role, call);
            && BooksBalance(st')
            && (NothingUnrecorded(st) ==> NothingUnrecorded(st') || LosesCost(stop))
            && (LosesCost(stop) ==> st'.anyRealCost)
  {
    var (st', stop) := RecordCall(cfg, st, index, role, call);
    if stop.None? {
      var (recorded, observed) := Debit(cfg, call.outcome.cost).value;
      var row := PassResult(index, role, call.outcome.score, recorded, st.nextFreshContext, st.nextElevatedEffort);
      CommitKeepsBooks(st.(anyRealCost := st.anyRealCost || recorded.Some?), row);
      RecordedOneMore(st.passes, row);
    }
  }

  lemma {:induction false} CommitKeepsBooks(st: LoopState, row: PassResult)
    requires BooksBalance(st) && (row.cost.Some? ==> st.anyRealCost)
    ensures BooksBalance(Commit(st, row, CostOrZero(row)))
  {
    TracksOneMore(st.stats, st.accumulated, st.passes, row);
    RecordedOneMore(st.passes, row);
  }

  lemma {:induction false} CallsKeepBooks(cfg: LoopConfig, script: PassScript, st: LoopState, index: nat)
    requires BooksBalance(st) && NothingUnrecorded(st)
    ensures var (st', stop) := MakeCalls(cfg, script, st, index);
            && BooksBalance(st')
            && (NothingUnrecorded(st') || LosesCost(stop))
            && (LosesCost(stop) ==> st'.anyRealCost)
  {
    RecordKeepsBooks(cfg, st, index, Primary, script.primary);
    var (st1, stop1) := RecordCall(cfg, st, index, Primary, script.primary);
    if stop1.None? && CallsAdversary(cfg) {
      RecordKeepsBooks(cfg, st1, index, Adversary, script.adversary);
    }
  }

  function CallsPerPass(cfg: LoopConfig): nat {
    if CallsAdversary(cfg) then 2 else 1
  }

  /** The state after some calls differs from the one before only in the books and observations. */
  predicate OnlyBooksDiffer(before: LoopState, after: LoopState) {
    && after.events == before.events && after.escalationsUsed == before.escalationsUsed
    && after.nextFreshContext == before.nextFreshContext
    && after.nextElevatedEffort == before.nextElevatedEffort
    && after.pairedScores == before.pairedScores
  }

  /** `after` is `before` and up to `calls` more rows of pass `index`, with the flags of `st`. */
  predicate AppendsRows(before: seq<PassResult>, after: seq<PassResult>, calls: nat, index: nat, st: LoopState) {
    && |before| <= |after| <= |before| + calls
    && before == after[..|before|]
    && (forall i :: |before| <= i < |after| ==>
          after[i].index == index && after[i].freshContext == st.nextFreshContext
          && after[i].elevatedEffort == st.nextElevatedEffort)
  }

  lemma {:induction false} RecordOnlyAppends(cfg: LoopConfig, st: LoopState, index: nat, role: Role, call: Call)
    ensures var (st', stop) := RecordCall(cfg, st, index, role, call);
            && OnlyBooksDiffer(st, st') && st'.observations == st.observations
            && AppendsRows(st.passes, st'.passes, 1, index, st)
            && (stop.Some? ==> st'.passes == st.passes)
            && (stop.None? ==> call.Returned? && |st'.passes| == |st.passes| + 1)
  {
  }

  lemma {:induction false} AppendsCompose(a: seq<PassResult>, b: seq<PassResult>, c: seq<PassResult>, index: nat, st: LoopState)
    requires AppendsRows(a, b, 1, index, st) && AppendsRows(b, c, 1, index, st)
    ensures AppendsRows(a, c, 2, index, st)
  {
    assert forall i :: 0 <= i < |b| ==> c[i] == c[..|b|][i] == b[i];
  }

  /** The calls of a pass only append rows of that pass, at most one per evaluator, all carrying the
      flags the pass started with; nothing else but the books and one observation changes. */
  lemma {:induction false} CallsOnlyAppend(cfg: LoopConfig, script: PassScript, st: LoopState, index: nat)
    ensures var (st', stop) := MakeCalls(cfg, script, st, index);
            && OnlyBooksDiffer(st, st')
            && AppendsRows(st.passes, st'.passes, CallsPerPass(cfg), index, st)
            && (stop.Some? ==> st'.observations == st.observations)
            && (stop.None? ==>
                  && script.primary.Returned? && |st'.passes| == |st.passes| + CallsPerPass(cfg)
                  && st'.observations == st.observations + [script.primary.outcome.observation])
  {
    RecordOnlyAppends(cfg, st, index, Primary, script.primary);
    var (st1, stop1) := RecordCall(cfg, st, index, Primary, script.primary);
    if stop1.None? && CallsAdversary(cfg) {
      RecordOnlyAppends(cfg, st1, index, Adversary, script.adversary);
      var st2 := RecordCall(cfg, st1, index, Adversary, script.adversary).0;
      AppendsCompose(st.passes, st1.passes, st2.passes, index, st);
    }
  }

  /* ---- Budget ---- */

  /** Row i is the first of its pass. */
  predicate IsPassStart(rows: seq<PassResult>, i: int) {
    0 <= i < |rows| && (i == 0 || rows[i - 1].index != rows[i].index)
  }

  /** A pass that starts after these rows passes the budget check. */
  predicate StartFits(cfg: LoopConfig, before: seq<PassResult>)
    requires 0 < cfg.halt.maxPasses
  {
    FitsBudget(cfg.halt, Sum(CostsOf(before)), StatsOf(CostsOf(before)))
  }

  /** Every pass on record was let through by a budget check: what had been spent before its first
      call, plus one projected call, fitted. */
  predicate SpendJustified(cfg: LoopConfig, rows: seq<PassResult>)
    requires 0 < cfg.halt.maxPasses
  {
    forall i :: 0 <= i < |rows| && IsPassStart(rows, i) ==> StartFits(cfg, rows[..i])
  }

  /** Rows come pass by pass, up to pass `last`, with no more than `calls` for each. */
  predicate PassByPass(rows: seq<PassResult>, calls: nat, last: int) {
    && (forall i :: 0 <= i < |rows| ==> rows[i].index <= last)
    && (forall i, j :: 0 <= i < j < |rows| ==> rows[i].index <= rows[j].index)
    && (forall i, j :: 0 <= i && i + calls <= j < |rows| ==> rows[i].index < rows[j].index)
  }

  lemma {:induction false} RowsStayPassByPass(before: seq<PassResult>, after: seq<PassResult>, calls: nat, index: nat, st: LoopState)
    requires PassByPass(before, calls, index - 1) && AppendsRows(before, after, calls, index, st)
    ensures PassByPass(after, calls, index)
    ensures forall i :: IsPassStart(after, i) ==> i <= |before| && (i < |before| ==> IsPassStart(before, i))
  {
    assert forall i :: 0 <= i < |before| ==> after[i] == before[i];
  }

  lemma {:induction false} CallsKeepSpendJustified(cfg: LoopConfig, script: PassScript, st: LoopState, index: nat)
    requires 0 < cfg.halt.maxPasses && BooksBalance(st) && SpendJustified(cfg, st.passes)
    requires FitsBudget(cfg.halt, st.accumulated, st.stats)
    requires PassByPass(st.passes, CallsPerPass(cfg), index - 1)
    ensures SpendJustified(cfg, MakeCalls(cfg, script, st, index).0.passes)
    ensures PassByPass(MakeCalls(cfg, script, st, index).0.passes, CallsPerPass(cfg), index)
  {
    CallsOnlyAppend(cfg, script, st, index);
    var rows := MakeCalls(cfg, script, st, index).0.passes;
    RowsStayPassByPass(st.passes, rows, CallsPerPass(cfg), index, st);
    StartsStayJustified(cfg, st.passes, rows);
  }

  lemma {:induction false} StartsStayJustified(cfg: LoopConfig, before: seq<PassResult>, after: seq<PassResult>)
    requires 0 < cfg.halt.maxPasses && SpendJustified(cfg, before) && StartFits(cfg, before) && before <= after
    requires forall i :: IsPassStart(after, i) ==> i <= |before| && (i < |before| ==> IsPassStart(before, i))
    ensures SpendJustified(cfg, after)
  {
    forall i | IsPassStart(after, i) ensures StartFits(cfg, after[..i]) {
      if i < |before| {
        assert after[..i] == before[..i];
      } else {
        assert after[..i] == before;
      }
    }
  }

  /* ---- Escalation ---- */

  function Verdicts(events: seq<EscalationEvent>): (vs: seq<AdtsVerdict>)
    ensures |vs| == |events| && (forall i :: 0 <= i < |vs| ==> vs[i] == events[i].verdict)
  {
    seq(|events|, i requires 0 <= i < |events| => events[i].verdict)
  }

  predicate ScheduledAt(events: seq<EscalationEvent>, pass: int) {
    exists i :: 0 <= i < |events| && events[i].atPass == pass
                && (events[i].verdict == ScheduleExtraPassFreshContext || events[i].verdict == ScheduleExtraPassElevatedEffort)
  }

  predicate EffortRaisedAt(events: seq<EscalationEvent>, pass: int) {
    exists i :: 0 <= i < |events| && events[i].atPass == pass && events[i].verdict == ScheduleExtraPassElevatedEffort
  }

  /** Each event happened at its own pass, in pass order, none later than `last`. */
  predicate InPassOrder(events: seq<EscalationEvent>, last: int) {
    && (forall i :: 0 <= i < |events| ==> 0 <= events[i].atPass <= last)
    && (forall i, j :: 0 <= i < j < |events| ==> events[i].atPass < events[j].atPass)
  }

  /** A request asks for fresh context exactly when the previous pass escalated, and for elevated
      effort exactly when it escalated to the second level. */
  predicate FlagsFollowEvents(rows: seq<PassResult>, events: seq<EscalationEvent>, last: int) {
    forall i :: 0 <= i < |rows| ==>
      && rows[i].index <= last
      && (rows[i].freshContext <==> ScheduledAt(events, rows[i].index - 1))
      && (rows[i].elevatedEffort <==> EffortRaisedAt(events, rows[i].index - 1))
  }

  /** What holds of the escalation state when pass `index` is about to start. */
  predicate Climbing(cfg: LoopConfig, st: LoopState, index: nat) {
    var ladder := LadderOf(cfg.adts.maxDivergenceEscalations);
    && st.escalationsUsed < |ladder|
    && Verdicts(st.events) == ladder[..st.escalationsUsed]
    && InPassOrder(st.events, index - 1)
    && FlagsFollowEvents(st.passes, st.events, index - 1)
    && (st.nextFreshContext <==> ScheduledAt(st.events, index - 1))
    && (st.nextElevatedEffort <==> EffortRaisedAt(st.events, index - 1))
  }

  /** What holds of it when the loop has ended. */
  predicate Climbed(cfg: LoopConfig, st: LoopState, last: nat) {
    && Verdicts(st.events) <= LadderOf(cfg.adts.maxDivergenceEscalations)
    && InPassOrder(st.events, last)
    && FlagsFollowEvents(st.passes, st.events, last)
  }

  lemma {:induction false} CallsKeepFlags(cfg: LoopConfig, script: PassScript, st: LoopState, index: nat)
    requires 0 < index && Climbing(cfg, st, index)
    ensures var st' := MakeCalls(cfg, script, st, index).0;
            FlagsFollowEvents(st'.passes, st.events, index)
  {
    CallsOnlyAppend(cfg, script, st, index);
    var rows := MakeCalls(cfg, script, st, index).0.passes;
    forall i | 0 <= i < |rows|
      ensures && rows[i].index <= index
              && (rows[i].freshContext <==> ScheduledAt(st.events, rows[i].index - 1))
              && (rows[i].elevatedEffort <==> EffortRaisedAt(st.events, rows[i].index - 1))
    {
      if i < |st.passes| {
        assert rows[i] == st.passes[i];
      }
    }
  }

  /** An event of this pass leaves every earlier question about events unanswered as before. */
  lemma {:induction false} NewEventIsLast(events: seq<EscalationEvent>, v: AdtsVerdict, index: nat, pass: int)
    requires InPassOrder(events, index - 1)
    ensures var more := events + [EscalationEvent(v, index)];
            && InPassOrder(more, index)
            && Verdicts(more) == Verdicts(events) + [v]
            && (pass < index ==> (ScheduledAt(more, pass) <==> ScheduledAt(events, pass)))
            && (pass < index ==> (EffortRaisedAt(more, pass) <==> EffortRaisedAt(events, pass)))
            && (ScheduledAt(more, index) <==> v == ScheduleExtraPassFreshContext || v == ScheduleExtraPassElevatedEffort)
            && (EffortRaisedAt(more, index) <==> v == ScheduleExtraPassElevatedEffort)
  {
    var more := events + [EscalationEvent(v, index)];
    assert more[|events|] == EscalationEvent(v, index);
    assert forall i :: 0 <= i < |events| ==> more[i] == events[i];
  }

  lemma {:induction false} NewEventKeepsFlags(rows: seq<PassResult>, events: seq<EscalationEvent>, v: AdtsVerdict, index: nat)
    requires InPassOrder(events, index - 1) && FlagsFollowEvents(rows, events, index)
    ensures FlagsFollowEvents(rows, events + [EscalationEvent(v, index)], index)
  {
    forall i | 0 <= i < |rows|
      ensures && (rows[i].freshContext <==> ScheduledAt(events + [EscalationEvent(v, index)], rows[i].index - 1))
              && (rows[i].elevatedEffort <==> EffortRaisedAt(events + [EscalationEvent(v, index)], rows[i].index - 1))
    {
      NewEventIsLast(events, v, index, rows[i].index - 1);
    }
  }

  /** One escalation step climbs at most one rung, and leaves everything but escalation alone. */
  lemma {:induction false} EscalateKeepsClimbing(cfg: LoopConfig, script: PassScript, st: LoopState, called: LoopState, index: nat)
    requires 0 < index && Climbing(cfg, st, index)
    requires called.events == st.events && called.escalationsUsed == st.escalationsUsed
    requires called.nextFreshContext == st.nextFreshContext && called.nextElevatedEffort == st.nextElevatedEffort
    requires FlagsFollowEvents(called.passes, called.events, index)
    requires cfg.halt.algo != Adts ==> called.events == []
    ensures match Escalate(cfg, script, called, index)
            case Again(st') => Climbing(cfg, st', index + 1)
            case Halted(st', _, _) => Climbed(cfg, st', index)
            case Aborted(st', _) => Climbed(cfg, st', index)
            case Cancelled(_) => false
  {
    var used := called.escalationsUsed;
    var pairs := called.pairedScores + NewPair(cfg, script);
    VerdictIsNextRung(pairs, used, cfg.adts);
    var verdict := RunAdts(pairs, used, cfg.adts);
    if cfg.halt.algo == Adts && verdict.Ok? && verdict.value != Continue {
      NewRung(cfg, called, verdict.value, index);
    } else {
      NoNewRung(cfg, called, index);
    }
  }

  /** One more event, for the rung that the escalations used so far point at. */
  lemma {:induction false} NewRung(cfg: LoopConfig, st: LoopState, v: AdtsVerdict, index: nat)
    requires var ladder := LadderOf(cfg.adts.maxDivergenceEscalations);
             && st.escalationsUsed < |ladder| && v == ladder[st.escalationsUsed]
             && Verdicts(st.events) == ladder[..st.escalationsUsed]
    requires 0 < index && InPassOrder(st.events, index - 1) && FlagsFollowEvents(st.passes, st.events, index)
    ensures var ladder, more := LadderOf(cfg.adts.maxDivergenceEscalations), st.events + [EscalationEvent(v, index)];
            && Verdicts(more) == ladder[..st.escalationsUsed + 1] && Verdicts(more) <= ladder
            && InPassOrder(more, index) && FlagsFollowEvents(st.passes, more, index)
            && (ScheduledAt(more, index) <==> v == ScheduleExtraPassFreshContext || v == ScheduleExtraPassElevatedEffort)
            && (EffortRaisedAt(more, index) <==> v == ScheduleExtraPassElevatedEffort)
  {
    var ladder, used := LadderOf(cfg.adts.maxDivergenceEscalations), st.escalationsUsed;
    NewEventIsLast(st.events, v, index, index);
    NewEventKeepsFlags(st.passes, st.events, v, index);
    assert ladder[..used + 1] == ladder[..used] + [ladder[used]];
  }

  lemma {:induction false} NoNewRung(cfg: LoopConfig, st: LoopState, index: nat)
    requires 0 < index && InPassOrder(st.events, index - 1)
    ensures InPassOrder(st.events, index) && !ScheduledAt(st.events, index) && !EffortRaisedAt(st.events, index)
    ensures var ladder := LadderOf(cfg.adts.maxDivergenceEscalations);
            st.escalationsUsed <= |ladder| ==> ladder[..st.escalationsUsed] <= ladder
  {
  }

  /* ---- One pass keeps everything ---- */

  ghost predicate LoopInvariant(cfg: LoopConfig, st: LoopState, index: nat)
    requires 0 < cfg.halt.maxPasses
  {
    && 0 < index <= cfg.halt.maxPasses
    && BooksBalance(st) && NothingUnrecorded(st)
    && SpendJustified(cfg, st.passes) && PassByPass(st.passes, CallsPerPass(cfg), index - 1)
    && Climbing(cfg, st, index) && (cfg.halt.algo != Adts ==> st.events == [])
    && |st.observations| == index - 1
    && |st.passes| == CallsPerPass(cfg) * (index - 1)
  }

  /** What holds however the loop has ended. */
  ghost predicate Kept(cfg: LoopConfig, st: LoopState, last: nat)
    requires 0 < cfg.halt.maxPasses
  {
    && BooksBalance(st)
    && SpendJustified(cfg, st.passes) && PassByPass(st.passes, CallsPerPass(cfg), last)
    && Climbed(cfg, st, last) && (cfg.halt.algo != Adts ==> st.events == [])
    && |st.observations| <= last
    && |st.passes| <= CallsPerPass(cfg) * last
  }

  ghost predicate EndInvariant(cfg: LoopConfig, st: LoopState, halt: Halt, last: nat)
    requires 0 < cfg.halt.maxPasses
  {
    && Kept(cfg, st, last)
    && (NothingUnrecorded(st) || LostCost(halt)) && (LostCost(halt) ==> st.anyRealCost)
    && (halt == ByReason(Budget) ==> st.passes != [])
    && halt != NaturalExit
  }

  /** Escalation never touches the books or the observations. */
  lemma {:induction false} EscalateLeavesBooks(cfg: LoopConfig, script: PassScript, st: LoopState, index: nat)
    ensures var end := Escalate(cfg, script, st, index);
            && end.st.passes == st.passes && end.st.sink == st.sink && end.st.stats == st.stats
            && end.st.accumulated == st.accumulated && end.st.observations == st.observations
            && end.st.anyRealCost == st.anyRealCost
            && (BooksBalance(st) ==> BooksBalance(end.st))
            && (NothingUnrecorded(st) ==> NothingUnrecorded(end.st))
            && !end.Cancelled? && (end.Halted? ==> end.halt == ByReason(AdtsEscalationExhausted))
            && (cfg.halt.algo != Adts ==> end == Again(st))
  {
  }

  lemma {:induction false} RowsOfOneMorePass(calls: nat, index: nat)
    requires 0 < index
    ensures calls * (index - 1) + calls == calls * index
  {
  }

  /** What the calls of a pass, started within budget from a good state, leave behind. */
  lemma {:induction false} CallsKeepRows(cfg: LoopConfig, script: PassScript, st: LoopState, index: nat)
    requires 0 < cfg.halt.maxPasses && LoopInvariant(cfg, st, index)
    requires FitsBudget(cfg.halt, st.accumulated, st.stats)
    ensures var (called, stop) := MakeCalls(cfg, script, st, index);
            && SpendJustified(cfg, called.passes) && PassByPass(called.passes, CallsPerPass(cfg), index)
            && |called.observations| <= index && |called.passes| <= CallsPerPass(cfg) * index
            && (stop.None? ==> |called.observations| == index && |called.passes| == CallsPerPass(cfg) * index)
  {
    CallsOnlyAppend(cfg, script, st, index);
    CallsKeepSpendJustified(cfg, script, st, index);
    RowsOfOneMorePass(CallsPerPass(cfg), index);
  }

  lemma {:induction false} CallsStayClimbed(cfg: LoopConfig, script: PassScript, st: LoopState, index: nat)
    requires 0 < index && Climbing(cfg, st, index)
    ensures Climbed(cfg, MakeCalls(cfg, script, st, index).0, index)
  {
    CallsOnlyAppend(cfg, script, st, index);
    CallsKeepFlags(cfg, script, st, index);
    var ladder := LadderOf(cfg.adts.maxDivergenceEscalations);
    assert ladder[..st.escalationsUsed] <= ladder;
  }

  lemma {:induction false} StopEndsWell(cfg: LoopConfig, called: LoopState, stop: Stop, index: nat)
    requires 0 < cfg.halt.maxPasses && Kept(cfg, called, index)
    requires (NothingUnrecorded(called) || LosesCost(Some(stop))) && (LosesCost(Some(stop)) ==> called.anyRealCost)
    ensures EndsWell(cfg, StoppedBy(called, stop), index)
  {
  }

  lemma {:induction false} CallsKeepInvariant(cfg: LoopConfig, script: PassScript, st: LoopState, index: nat)
    requires 0 < cfg.halt.maxPasses && LoopInvariant(cfg, st, index)
    requires FitsBudget(cfg.halt, st.accumulated, st.stats)
    ensures var (called, stop) := MakeCalls(cfg, script, st, index);
            && (stop.Some? ==> EndsWell(cfg, StoppedBy(called, stop.value), index))
            && (stop.None? ==>
                  && BooksBalance(called) && NothingUnrecorded(called) && SpendJustified(cfg, called.passes)
                  && PassByPass(called.passes, CallsPerPass(cfg), index)
                  && |called.observations| == index && |called.passes| == CallsPerPass(cfg) * index)
  {
    CallsKeepBooks(cfg, script, st, index);
    CallsKeepRows(cfg, script, st, index);
    CallsStayClimbed(cfg, script, st, index);
    CallsOnlyAppend(cfg, script, st, index);
    var (called, stop) := MakeCalls(cfg, script, st, index);
    if stop.Some? {
      StopEndsWell(cfg, called, stop.value, index);
    }
  }

  lemma {:induction false} ClimbingIsClimbed(cfg: LoopConfig, st: LoopState, index: nat)
    requires Climbing(cfg, st, index + 1)
    ensures Climbed(cfg, st, index)
  {
    var ladder := LadderOf(cfg.adts.maxDivergenceEscalations);
    assert ladder[..st.escalationsUsed] <= ladder;
  }

  lemma {:induction false} FitsUnlessBudgetHalt(ln: real -> real, cfg: HaltConfig, passes: seq<PassObservation>, accumulated: real, stats: Stats)
    requires ln(2.0) != 0.0
    ensures var r := DecideHalt(ln, cfg, passes, accumulated, stats);
            r.Ok? ==> 0 < cfg.maxPasses && (r.value.reason == Some(Budget) <==> !FitsBudget(cfg, accumulated, stats))
  {
  }

  ghost predicate EndsWell(cfg: LoopConfig, end: PassEnd, index: nat)
    requires 0 < cfg.halt.maxPasses
  {
    match end
    case Again(st) => LoopInvariant(cfg, st, index + 1)
    case Halted(st, halt, _) => EndInvariant(cfg, st, halt, index)
    case Aborted(st, _) => Kept(cfg, st, index) && NothingUnrecorded(st)
    case Cancelled(st) => Kept(cfg, st, index) && NothingUnrecorded(st)
  }

  /** As EndsWell, before the check that stops the loop at the pass limit. */
  ghost predicate PassWell(cfg: LoopConfig, end: PassEnd, index: nat)
    requires 0 < cfg.halt.maxPasses
  {
    match end
    case Again(st) =>
      && index <= cfg.halt.maxPasses
      && BooksBalance(st) && NothingUnrecorded(st)
      && SpendJustified(cfg, st.passes) && PassByPass(st.passes, CallsPerPass(cfg), index)
      && Climbing(cfg, st, index + 1) && (cfg.halt.algo != Adts ==> st.events == [])
      && |st.observations| == index
      && st.passes != [] && |st.passes| == CallsPerPass(cfg) * index
    case Halted(st, halt, _) => EndInvariant(cfg, st, halt, index)
    case Aborted(st, _) => Kept(cfg, st, index) && NothingUnrecorded(st)
    case Cancelled(st) => Kept(cfg, st, index) && NothingUnrecorded(st)
  }

  lemma {:induction false} EscalatePassWell(cfg: LoopConfig, script: PassScript, st: LoopState, index: nat)
    requires 0 < cfg.halt.maxPasses && LoopInvariant(cfg, st, index)
    requires FitsBudget(cfg.halt, st.accumulated, st.stats)
    requires MakeCalls(cfg, script, st, index).1.None?
    ensures PassWell(cfg, Escalate(cfg, script, MakeCalls(cfg, script, st, index).0, index), index)
  {
    CallsKeepInvariant(cfg, script, st, index);
    CallsOnlyAppend(cfg, script, st, index);
    CallsKeepFlags(cfg, script, st, index);
    var called := MakeCalls(cfg, script, st, index).0;
    EscalateKeepsClimbing(cfg, script, st, called, index);
    EscalateLeavesBooks(cfg, script, called, index);
  }

  lemma {:induction false} PostCheckEndsWell(ln: real -> real, cfg: LoopConfig, end: PassEnd, index: nat)
    requires ln(2.0) != 0.0 && 0 < cfg.halt.maxPasses && PassWell(cfg, end, index)
    ensures EndsWell(cfg, PostCheck(ln, cfg, end), index)
  {
    if end.Again? {
      ClimbingIsClimbed(cfg, end.st, index);
    }
  }

  lemma {:induction false} StartedPassEndsWell(ln: real -> real, cfg: LoopConfig, script: PassScript, st: LoopState, index: nat)
    requires ln(2.0) != 0.0 && 0 < cfg.halt.maxPasses && LoopInvariant(cfg, st, index)
    requires FitsBudget(cfg.halt, st.accumulated, st.stats)
    ensures EndsWell(cfg, StartedPass(ln, cfg, script, st, index), index)
  {
    var (called, stop) := MakeCalls(cfg, script, st, index);
    if stop.Some? {
      CallsKeepInvariant(cfg, script, st, index);
    } else {
      EscalatePassWell(cfg, script, st, index);
      PostCheckEndsWell(ln, cfg, Escalate(cfg, script, called, index), index);
    }
  }

  lemma {:induction false} PassEndsWell(ln: real -> real, cfg: LoopConfig, script: PassScript, st: LoopState, index: nat)
    requires ln(2.0) != 0.0 && 0 < cfg.halt.maxPasses && LoopInvariant(cfg, st, index)
    ensures EndsWell(cfg, RunPass(ln, cfg, script, st, index), index)
  {
    var pre := DecideHalt(ln, cfg.halt, st.observations, st.accumulated, st.stats);
    FitsUnlessBudgetHalt(ln, cfg.halt, st.observations, st.accumulated, st.stats);
    if pre.Err? {
      ErrorEndsWell(cfg, st, index);
    } else if pre.value.reason == Some(Budget) {
      BudgetHaltEndsWell(cfg, st, index);
    } else {
      StartedPassEndsWell(ln, cfg, script, st, index);
    }
  }

  lemma {:induction false} ErrorEndsWell(cfg: LoopConfig, st: LoopState, index: nat)
    requires 0 < cfg.halt.maxPasses && LoopInvariant(cfg, st, index)
    ensures Kept(cfg, st, index) && NothingUnrecorded(st)
  {
    RowsOfOneMorePass(CallsPerPass(cfg), index);
    ClimbingIsClimbed(cfg, st, index - 1);
    ClimbedLater(cfg, st, index - 1, index);
  }

  lemma {:induction false} BudgetHaltEndsWell(cfg: LoopConfig, st: LoopState, index: nat)
    requires 0 < cfg.halt.maxPasses && LoopInvariant(cfg, st, index) && !FitsBudget(cfg.halt, st.accumulated, st.stats)
    ensures EndInvariant(cfg, st, ByReason(Budget), index)
  {
    if index == 1 {
      assert CostsOf(st.passes) == [];
      FirstPassAlwaysFits(cfg.halt);
      assert false;
    }
    RowsOfOneMorePass(CallsPerPass(cfg), index);
    ClimbingIsClimbed(cfg, st, index - 1);
    ClimbedLater(cfg, st, index - 1, index);
  }

  lemma {:induction false} ClimbedLater(cfg: LoopConfig, st: LoopState, i: nat, last: nat)
    requires Climbed(cfg, st, i) && i <= last
    ensures Climbed(cfg, st, last)
  {
  }

  lemma {:induction false} PassByPassLater(rows: seq<PassResult>, calls: nat, i: nat, last: nat)
    requires PassByPass(rows, calls, i) && i <= last
    ensures PassByPass(rows, calls, last)
  {
  }

  lemma {:induction false} MoreRows(calls: nat, i: nat, last: nat)
    requires i <= last
    ensures calls * i <= calls * last
  {
  }

  /** Every end of every run, aborts included, is reached with the books and the budget in order. */
  lemma {:induction false} RunEndsWell(ln: real -> real, cfg: LoopConfig, scripts: nat -> PassScript, st: LoopState, index: nat)
    requires ln(2.0) != 0.0 && 0 < cfg.halt.maxPasses && LoopInvariant(cfg, st, index)
    ensures EndsWell(cfg, RunFrom(ln, cfg, scripts, st, index), cfg.halt.maxPasses)
    decreases cfg.halt.maxPasses + 1 - index
  {
    PassEndsWell(ln, cfg, scripts(index), st, index);
    RunFromStep(ln, cfg, scripts, st, index);
    match RunPass(ln, cfg, scripts(index), st, index) {
      case Again(st') => RunEndsWell(ln, cfg, scripts, st', index + 1);
      case Halted(st', halt, _) => KeptLater(cfg, st', index, cfg.halt.maxPasses);
      case Aborted(st', _) => KeptLater(cfg, st', index, cfg.halt.maxPasses);
      case Cancelled(st') => KeptLater(cfg, st', index, cfg.halt.maxPasses);
    }
  }

  lemma {:induction false} KeptLater(cfg: LoopConfig, st: LoopState, i: nat, last: nat)
    requires 0 < cfg.halt.maxPasses && Kept(cfg, st, i) && i <= last
    ensures Kept(cfg, st, last)
  {
    MoreRows(CallsPerPass(cfg), i, last);
    ClimbedLater(cfg, st, i, last);
    PassByPassLater(st.passes, CallsPerPass(cfg), i, last);
  }
}
