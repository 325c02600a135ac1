/** The reject budget of a layer over whole histories, and the two ways a timeout reaches a gate. */
module GateBudget {
  import opened Common
  import opened GateTypes
  import opened GateCohort
  import opened GateRuns
  import opened GateHistory
  import LayerConfig
  import LayerCohorts

  /* ---- The budget is conserved ---- */

  /** How many of the settlements send layer l back for another attempt. */
  function Grants(m: Snapshot, list: seq<Settlement>, now: int, l: string): nat
    requires forall k :: 0 <= k < |list| ==> list[k].index < |m.gates|
    decreases |list|
  {
    if list == [] then 0
    else
      var g := m.gates[list[0].index];
      (if g.layer == l && GrantsRetry(g, list[0].outcome) then 1 else 0)
      + Grants(Settle(m, list[0], now), list[1..], now, l)
  }

  function RunGrants(m: Snapshot, steps: seq<Step>, l: string): nat
    decreases |steps|
  {
    if steps == [] then 0
    else Grants(m, Settles(m, steps[0]), TimeOf(steps[0]), l) + RunGrants(Apply(m, steps[0]), steps[1..], l)
  }

  lemma {:induction false} LastIndexByLayers(a: seq<Gate>, b: seq<Gate>, l: string)
    requires |a| == |b| && forall i :: 0 <= i < |a| ==> a[i].layer == b[i].layer
    ensures LastIndex(a, l) == LastIndex(b, l)
  {
    var i, j := LastIndex(a, l), LastIndex(b, l);
    if i.Some? {
      assert a[i.value].layer == b[i.value].layer;
    }
    if j.Some? {
      assert a[j.value].layer == b[j.value].layer;
    }
  }

  lemma {:induction false} SettleConserves(m: Snapshot, s: Settlement, now: int, l: string)
    requires HistoryOk(m.gates) && MostRecent(m.gates, l).Some?
    requires s.index < |m.gates| && m.gates[s.index].status == Pending
    ensures MostRecent(Settle(m, s, now).gates, l).Some?
    ensures var g := m.gates[s.index];
            MostRecent(Settle(m, s, now).gates, l).value.attemptsLeft
            + (if g.layer == l && GrantsRetry(g, s.outcome) then 1 else 0)
            == MostRecent(m.gates, l).value.attemptsLeft
  {
    LastIndexByLayers(m.gates, Settle(m, s, now).gates, l);
    PendingIsLast(m.gates, s.index);
  }

  lemma {:induction false} SettleAllConserves(m: Snapshot, list: seq<Settlement>, now: int, l: string)
    requires HistoryOk(m.gates) && NeverTimedOut(m.gates) && MostRecent(m.gates, l).Some?
    requires forall k :: 0 <= k < |list| ==> list[k].index < |m.gates| && m.gates[list[k].index].status == Pending
    requires forall k, j :: 0 <= k < j < |list| ==> list[k].index < list[j].index
    ensures MostRecent(SettleAll(m, list, now).gates, l).Some?
    ensures MostRecent(SettleAll(m, list, now).gates, l).value.attemptsLeft + Grants(m, list, now, l)
            == MostRecent(m.gates, l).value.attemptsLeft
    decreases |list|
  {
    if list != [] {
      SettleConserves(m, list[0], now, l);
      SettleKeepsHistory(m, list[0], now);
      PendingIsLast(m.gates, list[0].index);
      SettleAllConserves(Settle(m, list[0], now), list[1..], now, l);
    }
  }

  /** A fired gate takes over the counter of its layer's last gate, or starts from the workflow's budget. */
  predicate CarriesCounter(gates: seq<Gate>, w: Workflow, g: Gate) {
    g.attemptsLeft == match MostRecent(gates, g.layer)
                      case Some(prior) => prior.attemptsLeft
                      case None => EffectiveRetryOnReject(w, g.layer)
  }

  lemma {:induction false} FiredCarry(
    b: Boundary, layers: seq<LayerResult>, gates: seq<Gate>, cohort: seq<string>, counter: nat)
    ensures forall k :: 0 <= k < |GatesFor(b, layers, gates, cohort, counter)|
              ==> CarriesCounter(gates, b.workflow, GatesFor(b, layers, gates, cohort, counter)[k])
  {
    if cohort != [] {
      var first := GateFor(b, layers, MostRecent(gates, cohort[0]), cohort[0], counter);
      FiredCarry(b, layers, gates, cohort[1..], if first.Some? then counter + 1 else counter);
    }
  }

  lemma {:induction false} MostRecentOfAppend(gates: seq<Gate>, fired: seq<Gate>, l: string)
    ensures (forall k :: 0 <= k < |fired| ==> fired[k].layer != l) ==> MostRecent(gates + fired, l) == MostRecent(gates, l)
    ensures (exists k :: 0 <= k < |fired| && fired[k].layer == l)
            ==> exists k :: 0 <= k < |fired| && fired[k].layer == l && MostRecent(gates + fired, l) == Some(fired[k])
  {
    var all, n := gates + fired, |gates|;
    var r, s := LastIndex(all, l), LastIndex(gates, l);
    assert forall j :: n <= j < |all| ==> all[j] == fired[j - n];
    assert forall j :: 0 <= j < n ==> all[j] == gates[j];
    if k :| 0 <= k < |fired| && fired[k].layer == l {
      assert all[n + k].layer == l;
      assert all[r.value] == fired[r.value - n];
    } else if s.Some? {
      assert all[s.value].layer == l;
    }
  }

  lemma {:induction false} StepConserves(m: Snapshot, s: Step, l: string)
    requires HistoryOk(m.gates) && NeverTimedOut(m.gates) && MostRecent(m.gates, l).Some?
    ensures MostRecent(Apply(m, s).gates, l).Some?
    ensures MostRecent(Apply(m, s).gates, l).value.attemptsLeft + Grants(m, Settles(m, s), TimeOf(s), l)
            == MostRecent(m.gates, l).value.attemptsLeft
  {
    match s
    case Fire(b, cohort, counter) =>
      FiredCarry(b, m.layers, m.gates, cohort, counter);
      MostRecentOfAppend(m.gates, GatesFor(b, m.layers, m.gates, cohort, counter), l);
    case Grade(_) =>
    case _ => SettleAllConserves(m, Settles(m, s), TimeOf(s), l);
  }

  /** Retries granted to a layer and the counter of its last gate always add up to the same number:
      re-firing a gate never refills the budget, and every retry costs exactly one. */
  lemma {:induction false} RunConservesBudget(m: Snapshot, steps: seq<Step>, l: string)
    requires HistoryOk(m.gates) && NeverTimedOut(m.gates) && DistinctCohorts(steps) && MostRecent(m.gates, l).Some?
    ensures MostRecent(Run(m, steps).gates, l).Some?
    ensures MostRecent(Run(m, steps).gates, l).value.attemptsLeft + RunGrants(m, steps, l)
            == MostRecent(m.gates, l).value.attemptsLeft
    decreases |steps|
  {
    if steps != [] {
      StepConserves(m, steps[0], l);
      StepKeepsHistory(m, steps[0]);
      RunConservesBudget(Apply(m, steps[0]), steps[1..], l);
    }
  }

  /** From a layer's first gate on, no history grants it more retries than the workflow's budget. */
  lemma {:induction false} RetriesStayInBudget(
    m: Snapshot, b: Boundary, cohort: seq<string>, counter: nat, steps: seq<Step>, l: string)
    requires HistoryOk(m.gates) && NeverTimedOut(m.gates) && Distinct(cohort) && DistinctCohorts(steps)
    requires MostRecent(m.gates, l).None? && MostRecent(Fired(m, b, cohort, counter).gates, l).Some?
    ensures var after := Run(Fired(m, b, cohort, counter), steps);
            && MostRecent(after.gates, l).Some?
            && MostRecent(after.gates, l).value.attemptsLeft + RunGrants(Fired(m, b, cohort, counter), steps, l)
               == EffectiveRetryOnReject(b.workflow, l)
  {
    var fired := GatesFor(b, m.layers, m.gates, cohort, counter);
    FireKeepsHistoryExactly(m, b, cohort, counter);
    FiredCarry(b, m.layers, m.gates, cohort, counter);
    MostRecentOfAppend(m.gates, fired, l);
    RunConservesBudget(Fired(m, b, cohort, counter), steps, l);
  }

  /** Over the cohorts of a built layer graph, in every run: the retries granted to a layer since its first
      gate and the counter of its last gate make up the workflow's budget. */
  lemma {:induction false} EveryRunStaysInBudget(
    c: LayerConfig.Config, cohorts: seq<seq<string>>, m: Snapshot, b: Boundary, cohort: seq<string>, counter: nat,
    steps: seq<Step>, l: string)
    requires LayerCohorts.CohortsOk(c, cohorts) && cohort in cohorts && ChecksCohortsOf(cohorts, steps)
    requires HistoryOk(m.gates) && NeverTimedOut(m.gates)
    requires MostRecent(m.gates, l).None? && MostRecent(Fired(m, b, cohort, counter).gates, l).Some?
    ensures var after := Run(Fired(m, b, cohort, counter), steps);
            && MostRecent(after.gates, l).Some?
            && MostRecent(after.gates, l).value.attemptsLeft + RunGrants(Fired(m, b, cohort, counter), steps, l)
               == EffectiveRetryOnReject(b.workflow, l)
  {
    BuiltCohortsAreDistinct(c, cohorts, steps);
    BuiltCohortsAreDistinct(c, cohorts, [Fire(b, cohort, counter)]);
    assert [Fire(b, cohort, counter)][0].cohort == cohort;
    RetriesStayInBudget(m, b, cohort, counter, steps, l);
  }

  /* ---- A timeout found by the reviewer's handler or by the reconciler ---- */

  /** Both settle an expired gate with its timeout action, whatever the reviewer wanted, and leave the same
      manifest; only the reason recorded on a layer that fails for want of budget differs. */
  lemma {:induction false} TimeoutPathsAgreeExactly(m: Snapshot, i: nat, d: GateDecision, now: int)
    requires i < |m.gates| && Expired(m.gates[i], now) && FindGate(m.gates, m.gates[i].id) == Some(i)
    ensures var g := m.gates[i];
            var o := TimeoutOutcome(g.onTimeout);
            && DecideSettles(m.gates, g.id, d, None, Inserted, now) == [Settlement(i, o, HALTED_GATE_REJECTED)]
            && (SettleAll(m, DecideSettles(m.gates, g.id, d, None, Inserted, now), now)
                == Settle(m, Settlement(i, o, HALTED_GATE_TIMEOUT_REJECT), now)
                <==> !(o.decision == Reject && g.attemptsLeft == 0 && FindLayer(m.layers, g.layer).Some?))
  {
    var g := m.gates[i];
    var o := TimeoutOutcome(g.onTimeout);
    var byReviewer, byTimer := Settlement(i, o, HALTED_GATE_REJECTED), Settlement(i, o, HALTED_GATE_TIMEOUT_REJECT);
    SettleOne(m, byReviewer, now);
    LabelsDiffer();
    if FindLayer(m.layers, g.layer).Some? {
      var k := FindLayer(m.layers, g.layer).value;
      assert Settle(m, byReviewer, now).layers[k] == SettledLayer(m.layers[k], g, byReviewer);
      assert Settle(m, byTimer, now).layers[k] == SettledLayer(m.layers[k], g, byTimer);
    }
  }

  lemma {:induction false} LabelsDiffer()
    ensures HALTED_GATE_REJECTED != HALTED_GATE_TIMEOUT_REJECT
  {
    assert HALTED_GATE_REJECTED[5] != HALTED_GATE_TIMEOUT_REJECT[5];
  }
}
