/** What every history of review gates keeps. */
module GateHistory {
  import opened Common
  import opened GateTypes
  import opened GateCohort
  import opened GateRuns
  import LayerConfig
  import LayerCohorts

  /** One event of a feature's life; grading a layer is the evaluator's, and may leave any result. */
  datatype Step =
    | Fire(boundary: Boundary, cohort: seq<string>, counter: nat)
    | Grade(result: LayerResult)
    | Decided(id: string, decision: GateDecision, prior: Option<string>, insert: AuditInsert, at: int)
    | Reconciled(store: Store, now: int)

  function ReplaceOrAdd(layers: seq<LayerResult>, r: LayerResult): seq<LayerResult> {
    match FindLayer(layers, r.name)
    case Some(i) => layers[i := r]
    case None => layers + [r]
  }

  /** What a step settles, and when. */
  function Settles(m: Snapshot, s: Step): (r: seq<Settlement>)
    ensures forall k :: 0 <= k < |r| ==> r[k].index < |m.gates| && m.gates[r[k].index].status == Pending
    ensures forall k, l :: 0 <= k < l < |r| ==> r[k].index < r[l].index
  {
    match s
    case Decided(id, d, prior, insert, at) => DecideSettles(m.gates, id, d, prior, insert, at)
    case Reconciled(store, now) => ReconcileSettles(m.gates, store, now)
    case _ => []
  }

  function TimeOf(s: Step): int {
    match s
    case Decided(_, _, _, _, at) => at
    case Reconciled(_, now) => now
    case _ => 0
  }

  function Apply(m: Snapshot, s: Step): Snapshot {
    match s
    case Fire(b, cohort, counter) => Fired(m, b, cohort, counter)
    case Grade(r) => m.(layers := ReplaceOrAdd(m.layers, r))
    case _ => SettleAll(m, Settles(m, s), TimeOf(s))
  }

  function Run(m: Snapshot, steps: seq<Step>): Snapshot
    decreases |steps|
  {
    if steps == [] then m else Run(Apply(m, steps[0]), steps[1..])
  }

  predicate DistinctCohorts(steps: seq<Step>) {
    forall k :: 0 <= k < |steps| && steps[k].Fire? ==> Distinct(steps[k].cohort)
  }

  /* ---- The invariant ---- */

  predicate Closed(g: Gate) {
    g.status.Rejected? || g.status.TimedOut?
  }

  /** Each layer has closed gates followed by at most one other, with a counter that never rises. */
  predicate HistoryOk(gates: seq<Gate>) {
    forall i, j :: 0 <= i < j < |gates| && gates[i].layer == gates[j].layer
      ==> Closed(gates[i]) && gates[j].attemptsLeft <= gates[i].attemptsLeft
  }

  predicate NeverTimedOut(gates: seq<Gate>) {
    forall i :: 0 <= i < |gates| ==> gates[i].status != TimedOut
  }

  /** Only the last gate of a layer can be pending. */
  lemma {:induction false} PendingIsLast(gates: seq<Gate>, i: nat)
    requires HistoryOk(gates) && i < |gates| && gates[i].status == Pending
    ensures LastIndex(gates, gates[i].layer) == Some(i)
  {
    assert !Closed(gates[i]);
  }

  lemma {:induction false} SettleKeepsHistory(m: Snapshot, s: Settlement, now: int)
    requires HistoryOk(m.gates) && NeverTimedOut(m.gates)
    requires s.index < |m.gates| && m.gates[s.index].status == Pending
    ensures HistoryOk(Settle(m, s, now).gates) && NeverTimedOut(Settle(m, s, now).gates)
    ensures |Settle(m, s, now).gates| == |m.gates|
    ensures forall i :: 0 <= i < |m.gates| && i != s.index ==> Settle(m, s, now).gates[i] == m.gates[i]
  {
    PendingIsLast(m.gates, s.index);
  }

  lemma {:induction false} SettleAllKeepsHistory(m: Snapshot, list: seq<Settlement>, now: int)
    requires HistoryOk(m.gates) && NeverTimedOut(m.gates)
    requires forall k :: 0 <= k < |list| ==> list[k].index < |m.gates| && m.gates[list[k].index].status == Pending
    requires forall k, l :: 0 <= k < l < |list| ==> list[k].index < list[l].index
    ensures HistoryOk(SettleAll(m, list, now).gates) && NeverTimedOut(SettleAll(m, list, now).gates)
    decreases |list|
  {
    if list != [] {
      SettleKeepsHistory(m, list[0], now);
      SettleAllKeepsHistory(Settle(m, list[0], now), list[1..], now);
    }
  }

  /** A fired gate is open, its layer is named in the cohort, its layer's gates so far are all closed, and it
      starts with the counter of the last of them. */
  predicate Follows(gates: seq<Gate>, g: Gate) {
    && g.status == Pending
    && forall i :: 0 <= i < |gates| && gates[i].layer == g.layer
         ==> Closed(gates[i]) && g.attemptsLeft <= gates[i].attemptsLeft
  }

  lemma {:induction false} UnblockedFollows(gates: seq<Gate>, b: Boundary, layers: seq<LayerResult>, name: string, counter: nat)
    requires HistoryOk(gates) && GateFor(b, layers, MostRecent(gates, name), name, counter).Some?
    ensures Follows(gates, GateFor(b, layers, MostRecent(gates, name), name, counter).value)
  {
    var g := GateFor(b, layers, MostRecent(gates, name), name, counter).value;
    forall i | 0 <= i < |gates| && gates[i].layer == name
      ensures Closed(gates[i]) && g.attemptsLeft <= gates[i].attemptsLeft
    {
      var last := LastIndex(gates, name).value;
      assert !BlocksNewGate(Some(gates[last])) && g.attemptsLeft == gates[last].attemptsLeft && i <= last;
      assert Closed(gates[last]);
      if i < last {
        assert gates[i].layer == gates[last].layer;
      }
    }
  }

  lemma {:induction false} FiredFollow(
    b: Boundary, layers: seq<LayerResult>, gates: seq<Gate>, cohort: seq<string>, counter: nat)
    requires HistoryOk(gates)
    ensures forall k :: 0 <= k < |GatesFor(b, layers, gates, cohort, counter)|
              ==> Follows(gates, GatesFor(b, layers, gates, cohort, counter)[k])
                  && GatesFor(b, layers, gates, cohort, counter)[k].layer in cohort
  {
    if cohort != [] {
      var first := GateFor(b, layers, MostRecent(gates, cohort[0]), cohort[0], counter);
      if first.Some? {
        UnblockedFollows(gates, b, layers, cohort[0], counter);
      }
      FiredFollow(b, layers, gates, cohort[1..], if first.Some? then counter + 1 else counter);
    }
  }

  /** Gates that follow a history extend it exactly when no layer is among them twice. */
  lemma {:induction false} HistoryExtends(gates: seq<Gate>, fired: seq<Gate>)
    requires HistoryOk(gates) && forall k :: 0 <= k < |fired| ==> Follows(gates, fired[k])
    ensures HistoryOk(gates + fired) <==> Distinct(LayersOf(fired))
  {
    var all, names, n := gates + fired, LayersOf(fired), |gates|;
    assert forall k :: n <= k < |all| ==> all[k] == fired[k - n] && names[k - n] == all[k].layer;
    if Distinct(names) {
      forall i, j | 0 <= i < j < |all| && all[i].layer == all[j].layer
        ensures Closed(all[i]) && all[j].attemptsLeft <= all[i].attemptsLeft
      {
        if j < n {
          assert all[i] == gates[i] && all[j] == gates[j];
        } else {
          assert i < n && all[i] == gates[i] && Follows(gates, all[j]);
        }
      }
    } else {
      var i, j :| 0 <= i < j < |names| && names[i] == names[j];
      assert all[n + i] == fired[i] && all[n + j] == fired[j] && Follows(gates, fired[i]);
    }
  }

  /** The layer gets a gate at this boundary; the id counter has no say in it. */
  predicate FiresFor(b: Boundary, m: Snapshot, name: string) {
    GateFor(b, m.layers, MostRecent(m.gates, name), name, 0).Some?
  }

  predicate NoLayerFiresTwice(b: Boundary, m: Snapshot, cohort: seq<string>) {
    forall i, j :: 0 <= i < j < |cohort| && cohort[i] == cohort[j] ==> !FiresFor(b, m, cohort[i])
  }

  lemma {:induction false} LayersFiredExactly(m: Snapshot, b: Boundary, cohort: seq<string>, counter: nat)
    ensures forall l :: l in LayersOf(GatesFor(b, m.layers, m.gates, cohort, counter)) <==> l in cohort && FiresFor(b, m, l)
  {
    if cohort != [] {
      var first := GateFor(b, m.layers, MostRecent(m.gates, cohort[0]), cohort[0], counter);
      var next := if first.Some? then counter + 1 else counter;
      LayersFiredExactly(m, b, cohort[1..], next);
      if first.Some? {
        LayersOfCons(first.value, GatesFor(b, m.layers, m.gates, cohort[1..], next));
      }
    }
  }

  lemma {:induction false} DistinctOfCons(x: string, rest: seq<string>)
    ensures Distinct([x] + rest) <==> Distinct(rest) && x !in rest
  {
    var all := [x] + rest;
    assert forall k :: 1 <= k < |all| ==> all[k] == rest[k - 1];
    if Distinct(all) {
      forall i, j | 0 <= i < j < |rest| ensures rest[i] != rest[j] {
        assert all[i + 1] != all[j + 1];
      }
      forall k | 0 <= k < |rest| ensures rest[k] != x {
        assert all[0] != all[k + 1];
      }
    } else {
      var i, j :| 0 <= i < j < |all| && all[i] == all[j];
      assert all[j] == rest[j - 1];
      if 0 < i {
        assert all[i] == rest[i - 1];
      }
    }
  }

  lemma {:induction false} NoLayerFiresTwiceOfCons(b: Boundary, m: Snapshot, cohort: seq<string>)
    requires cohort != []
    ensures NoLayerFiresTwice(b, m, cohort) <==>
            NoLayerFiresTwice(b, m, cohort[1..]) && !(cohort[0] in cohort[1..] && FiresFor(b, m, cohort[0]))
  {
    var rest := cohort[1..];
    if NoLayerFiresTwice(b, m, cohort) {
      forall i, j | 0 <= i < j < |rest| && rest[i] == rest[j] ensures !FiresFor(b, m, rest[i]) {
        assert cohort[i + 1] == cohort[j + 1];
      }
      if i :| 0 <= i < |rest| && rest[i] == cohort[0] {
        assert cohort[0] == cohort[i + 1];
      }
    } else {
      var i, j :| 0 <= i < j < |cohort| && cohort[i] == cohort[j] && FiresFor(b, m, cohort[i]);
      assert cohort[j] == rest[j - 1];
      if 0 < i {
        assert cohort[i] == rest[i - 1];
      }
    }
  }

  /** Gates are distinct by layer exactly when the cohort names no layer twice that gets a gate. */
  lemma {:induction false} FiredDistinctExactly(m: Snapshot, b: Boundary, cohort: seq<string>, counter: nat)
    ensures Distinct(LayersOf(GatesFor(b, m.layers, m.gates, cohort, counter))) <==> NoLayerFiresTwice(b, m, cohort)
  {
    if cohort != [] {
      var first := GateFor(b, m.layers, MostRecent(m.gates, cohort[0]), cohort[0], counter);
      var next := if first.Some? then counter + 1 else counter;
      FiredDistinctExactly(m, b, cohort[1..], next);
      LayersFiredExactly(m, b, cohort[1..], next);
      NoLayerFiresTwiceOfCons(b, m, cohort);
      if first.Some? {
        LayersOfCons(first.value, GatesFor(b, m.layers, m.gates, cohort[1..], next));
        DistinctOfCons(cohort[0], LayersOf(GatesFor(b, m.layers, m.gates, cohort[1..], next)));
      }
    }
  }

  /** A boundary check keeps the histories exactly when its cohort names no layer twice that gets a gate. */
  lemma {:induction false} FireKeepsHistoryExactly(m: Snapshot, b: Boundary, cohort: seq<string>, counter: nat)
    requires HistoryOk(m.gates)
    ensures HistoryOk(Fired(m, b, cohort, counter).gates) <==> NoLayerFiresTwice(b, m, cohort)
    ensures NeverTimedOut(m.gates) ==> NeverTimedOut(Fired(m, b, cohort, counter).gates)
  {
    var fired := GatesFor(b, m.layers, m.gates, cohort, counter);
    FiredFollow(b, m.layers, m.gates, cohort, counter);
    HistoryExtends(m.gates, fired);
    FiredDistinctExactly(m, b, cohort, counter);
    assert forall k :: 0 <= k < |fired| ==> Follows(m.gates, fired[k]);
  }

  lemma {:induction false} StepKeepsHistory(m: Snapshot, s: Step)
    requires HistoryOk(m.gates) && NeverTimedOut(m.gates) && (s.Fire? ==> Distinct(s.cohort))
    ensures HistoryOk(Apply(m, s).gates) && NeverTimedOut(Apply(m, s).gates)
  {
    match s
    case Fire(b, cohort, counter) => FireKeepsHistoryExactly(m, b, cohort, counter);
    case Grade(_) =>
    case _ => SettleAllKeepsHistory(m, Settles(m, s), TimeOf(s));
  }

  /** In every run with distinct names in each cohort, every layer has rejected gates followed by at most one
      pending, approved or skipped gate, and its counter never rises. */
  lemma {:induction false} RunKeepsHistory(m: Snapshot, steps: seq<Step>)
    requires HistoryOk(m.gates) && NeverTimedOut(m.gates) && DistinctCohorts(steps)
    ensures HistoryOk(Run(m, steps).gates) && NeverTimedOut(Run(m, steps).gates)
    decreases |steps|
  {
    if steps != [] {
      StepKeepsHistory(m, steps[0]);
      RunKeepsHistory(Apply(m, steps[0]), steps[1..]);
    }
  }

  /** Every boundary of the run checks a cohort of this layer graph. */
  predicate ChecksCohortsOf(cohorts: seq<seq<string>>, steps: seq<Step>) {
    forall k :: 0 <= k < |steps| && steps[k].Fire? ==> steps[k].cohort in cohorts
  }

  /** The cohorts that the layer graph is built with name no layer twice. */
  lemma {:induction false} BuiltCohortsAreDistinct(c: LayerConfig.Config, cohorts: seq<seq<string>>, steps: seq<Step>)
    requires LayerCohorts.CohortsOk(c, cohorts) && ChecksCohortsOf(cohorts, steps)
    ensures DistinctCohorts(steps)
  {
    forall k | 0 <= k < |steps| && steps[k].Fire? ensures Distinct(steps[k].cohort) {
      var i :| 0 <= i < |cohorts| && cohorts[i] == steps[k].cohort;
      assert LayerCohorts.CohortOk(c, cohorts, i);
    }
  }

  /** So for every layer graph that was built, and every run over its cohorts from an empty manifest: */
  lemma {:induction false} EveryRunKeepsHistory(c: LayerConfig.Config, cohorts: seq<seq<string>>, m: Snapshot, steps: seq<Step>)
    requires LayerCohorts.CohortsOk(c, cohorts) && ChecksCohortsOf(cohorts, steps) && m.gates == []
    ensures HistoryOk(Run(m, steps).gates) && NeverTimedOut(Run(m, steps).gates)
  {
    BuiltCohortsAreDistinct(c, cohorts, steps);
    RunKeepsHistory(m, steps);
  }

  /** A layer that is graded has that result from then on, and no other layer changes. */
  lemma {:induction false} GradesExactly(layers: seq<LayerResult>, r: LayerResult, name: string)
    ensures var after := ReplaceOrAdd(layers, r);
            && (name == r.name ==> FindLayer(after, name).Some? && after[FindLayer(after, name).value] == r)
            && (name != r.name ==>
                  FindLayer(after, name) == FindLayer(layers, name)
                  && (FindLayer(layers, name).Some? ==>
                        after[FindLayer(layers, name).value] == layers[FindLayer(layers, name).value]))
  {
    var found, after := FindLayer(layers, r.name), ReplaceOrAdd(layers, r);
    var i := if found.Some? then found.value else |layers|;
    assert after[i] == r && forall j :: 0 <= j < |layers| && j != i ==> after[j] == layers[j];
    if name == r.name {
      IsFirstLayer(after, name, i);
    } else if FindLayer(layers, name).Some? {
      IsFirstLayer(after, name, FindLayer(layers, name).value);
    } else {
      assert forall j :: 0 <= j < |after| ==> after[j].name != name;
    }
  }

  lemma {:induction false} IsFirstLayer(layers: seq<LayerResult>, name: string, i: nat)
    requires i < |layers| && layers[i].name == name && forall j :: 0 <= j < i ==> layers[j].name != name
    ensures FindLayer(layers, name) == Some(i)
  {
  }
}
