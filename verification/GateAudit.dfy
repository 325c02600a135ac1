/** Manifest and audit store together. Each decision is written to the store first and to the manifest
    after that; either write can be lost. Handlers and reconciler hold the manifest's lock, so these
    steps do not overlap. */
module GateAudit {
  import opened Common
  import opened GateTypes
  import opened GateCohort
  import opened GateRuns
  import GateHistory

  /** The store maps the id of a gate to the word of its decision; it takes one row for each gate. */
  datatype System = System(manifest: Snapshot, audit: map<string, string>)

  /** How an event finds the store: it takes rows, it opens but refuses them, it cannot be opened, or the
      project has none. */
  datatype Access = Working | Refusing | Shut | Missing

  /** `unwritable`: the gates whose rows an opened store refuses; `saved`: whether the manifest reaches the disk. */
  datatype Event =
    | Fires(boundary: Boundary, cohort: seq<string>, counter: nat)
    | Grades(result: LayerResult)
    | Decides(id: string, decision: GateDecision, access: Access, saved: bool, at: int)
    | Reconciles(access: Access, unwritable: set<nat>, saved: bool, at: int)

  function PriorRow(audit: map<string, string>, id: string): Option<string> {
    if id in audit then Some(audit[id]) else None
  }

  /** The store can be asked: it is there, and opens. */
  predicate Opens(access: Access) {
    access.Working? || access.Refusing?
  }

  /** What the store lets the reconciler settle. When it does not open, no row is asked for. */
  function StoreFor(gates: seq<Gate>, access: Access, unwritable: set<nat>): Store {
    match access
    case Working => Opened(set i: nat | i < |gates| && i !in unwritable)
    case Refusing => Opened({})
    case _ => NotOpened
  }

  /** What an event settles in the handler's copy of the manifest. A reviewer's decision fails when the store
      does not open, and needs no row when there is none. */
  function Settles(sys: System, e: Event): (r: seq<Settlement>)
    ensures forall k :: 0 <= k < |r| ==> r[k].index < |sys.manifest.gates| && sys.manifest.gates[r[k].index].status == Pending
    ensures Ascending(r)
  {
    var gates := sys.manifest.gates;
    match e
    case Decides(id, d, Working, _, at) => DecideSettles(gates, id, d, PriorRow(sys.audit, id), Inserted, at)
    case Decides(id, d, Refusing, _, at) => DecideSettles(gates, id, d, PriorRow(sys.audit, id), Broken, at)
    case Decides(id, d, Missing, _, at) => DecideSettles(gates, id, d, None, Inserted, at)
    case Reconciles(access, unwritable, _, at) =>
      ReconcileSettles(gates, StoreFor(gates, access, unwritable), at)
    case _ => []
  }

  function AccessOf(e: Event): Access {
    match e
    case Decides(_, _, access, _, _) => access
    case Reconciles(access, _, _, _) => access
    case _ => Shut
  }

  /** The store after the rows of these settlements; a gate that has a row keeps it. */
  function WithRows(audit: map<string, string>, gates: seq<Gate>, list: seq<Settlement>): map<string, string>
    requires forall k :: 0 <= k < |list| ==> list[k].index < |gates|
    decreases |list|
  {
    if list == [] then audit
    else
      var id, word := gates[list[0].index].id, AuditString(list[0].outcome);
      WithRows(if id in audit then audit else audit[id := word], gates, list[1..])
  }

  function TimeOf(e: Event): int {
    match e
    case Decides(_, _, _, _, at) => at
    case Reconciles(_, _, _, at) => at
    case _ => 0
  }

  predicate Saved(e: Event) {
    match e
    case Decides(_, _, _, saved, _) => saved
    case Reconciles(_, _, saved, _) => saved
    case _ => true
  }

  function Apply(sys: System, e: Event): System {
    match e
    case Fires(b, cohort, counter) => sys.(manifest := Fired(sys.manifest, b, cohort, counter))
    case Grades(r) => sys.(manifest := sys.manifest.(layers := GateHistory.ReplaceOrAdd(sys.manifest.layers, r)))
    case _ =>
      var list := Settles(sys, e);
      System(if Saved(e) then SettleAll(sys.manifest, list, TimeOf(e)) else sys.manifest,
             if Opens(AccessOf(e)) then WithRows(sys.audit, sys.manifest.gates, list) else sys.audit)
  }

  function Run(sys: System, events: seq<Event>): System
    decreases |events|
  {
    if events == [] then sys else Run(Apply(sys, events[0]), events[1..])
  }

  /* ---- Agreement ---- */

  predicate Agrees(audit: map<string, string>, g: Gate) {
    g.status != Pending ==> g.id in audit && g.decision == Some(audit[g.id])
  }

  /** Every decided gate of the manifest has a row in the store, with the same decision. */
  predicate Agreement(sys: System) {
    forall i :: 0 <= i < |sys.manifest.gates| ==> Agrees(sys.audit, sys.manifest.gates[i])
  }

  predicate DistinctIds(gates: seq<Gate>) {
    forall i, j :: 0 <= i < j < |gates| ==> gates[i].id != gates[j].id
  }

  /** New gates get ids that neither manifest nor store has seen. */
  predicate NewIds(sys: System, e: Event) {
    e.Fires? ==>
      var fired := GatesFor(e.boundary, sys.manifest.layers, sys.manifest.gates, e.cohort, e.counter);
      && DistinctIds(sys.manifest.gates + fired)
      && forall k :: 0 <= k < |fired| ==> fired[k].id !in sys.audit
  }

  predicate NewIdsThroughout(sys: System, events: seq<Event>)
    decreases |events|
  {
    events == [] || (NewIds(sys, events[0]) && NewIdsThroughout(Apply(sys, events[0]), events[1..]))
  }

  /** An expired pending gate whose row in the store is of another decision than its timeout action: a
      reviewer's, for a save was lost. */
  predicate HasOtherRow(sys: System, i: int, at: int) {
    && 0 <= i < |sys.manifest.gates| && Expired(sys.manifest.gates[i], at)
    && sys.manifest.gates[i].id in sys.audit
    && sys.audit[sys.manifest.gates[i].id] != AuditString(TimeoutOutcome(sys.manifest.gates[i].onTimeout))
  }

  /** An expired pending gate that has no row, or one of another decision. */
  predicate LacksRow(sys: System, i: int, at: int) {
    && 0 <= i < |sys.manifest.gates| && Expired(sys.manifest.gates[i], at)
    && !(sys.manifest.gates[i].id in sys.audit
         && sys.audit[sys.manifest.gates[i].id] == AuditString(TimeoutOutcome(sys.manifest.gates[i].onTimeout)))
  }

  /** The reconciler settles a gate against its row, or, the store not being opened, one without a row; and
      its manifest is saved. */
  predicate ReconcilesApart(sys: System, e: Event) {
    && e.Reconciles? && e.saved
    && match e.access
       case Working => exists i :: 0 <= i < |sys.manifest.gates| && i !in e.unwritable && HasOtherRow(sys, i, e.at)
       case Refusing => false
       case _ => exists i :: 0 <= i < |sys.manifest.gates| && LacksRow(sys, i, e.at)
  }

  /** The word that a reviewer's decision leaves on gate i when no earlier row is looked up. */
  function WordFor(g: Gate, d: GateDecision, at: int): string {
    AuditString(OutcomeOf(g, d, None, at))
  }

  /** In a project without a store, a reviewer's decision is saved for a pending gate, which has no row of it. */
  predicate DecidesUnrecorded(sys: System, e: Event) {
    && e.Decides? && e.access.Missing? && e.saved
    && var found := FindGate(sys.manifest.gates, e.id);
       && found.Some? && sys.manifest.gates[found.value].status == Pending
       && !(e.id in sys.audit && sys.audit[e.id] == WordFor(sys.manifest.gates[found.value], e.decision, e.at))
  }

  predicate Parts(sys: System, e: Event) {
    ReconcilesApart(sys, e) || DecidesUnrecorded(sys, e)
  }

  predicate PartsSomewhere(sys: System, events: seq<Event>)
    decreases |events|
  {
    events != [] && (Parts(sys, events[0]) || PartsSomewhere(Apply(sys, events[0]), events[1..]))
  }

  /* ---- What a list of settlements does ---- */

  lemma {:induction false} RowsOf(audit: map<string, string>, gates: seq<Gate>, list: seq<Settlement>)
    requires forall k :: 0 <= k < |list| ==> list[k].index < |gates|
    requires Ascending(list) && DistinctIds(gates)
    ensures var after := WithRows(audit, gates, list);
            && (forall id :: id in audit ==> id in after && after[id] == audit[id])
            && (forall k :: 0 <= k < |list| ==>
                  var id := gates[list[k].index].id;
                  id in after && (id !in audit ==> after[id] == AuditString(list[k].outcome)))
            && (forall id :: id in after && id !in audit ==> exists k :: 0 <= k < |list| && gates[list[k].index].id == id)
    decreases |list|
  {
    if list != [] {
      var id, word := gates[list[0].index].id, AuditString(list[0].outcome);
      var next := if id in audit then audit else audit[id := word];
      RowsOf(next, gates, list[1..]);
      var after := WithRows(audit, gates, list);
      forall k | 0 <= k < |list|
        ensures gates[list[k].index].id in after
        ensures gates[list[k].index].id !in audit ==> after[gates[list[k].index].id] == AuditString(list[k].outcome)
      {
        if k > 0 {
          assert list[1..][k - 1] == list[k];
        } else {
          assert id in next;
        }
      }
      forall x | x in after && x !in audit ensures exists k :: 0 <= k < |list| && gates[list[k].index].id == x {
        if x != id {
          var k :| 0 <= k < |list[1..]| && gates[list[1..][k].index].id == x;
          assert list[k + 1] == list[1..][k];
        }
      }
    }
  }

  /* ---- One event ---- */

  /** The gate has no row yet, or one with the word of this settlement. */
  predicate RowFits(sys: System, s: Settlement)
    requires s.index < |sys.manifest.gates|
  {
    var id := sys.manifest.gates[s.index].id;
    id in sys.audit ==> sys.audit[id] == AuditString(s.outcome)
  }

  lemma {:induction false} SettlingAgreesExactly(sys: System, list: seq<Settlement>, now: int)
    requires Agreement(sys) && DistinctIds(sys.manifest.gates) && Ascending(list)
    requires forall k :: 0 <= k < |list| ==>
               list[k].index < |sys.manifest.gates| && sys.manifest.gates[list[k].index].status == Pending
    ensures Agreement(System(SettleAll(sys.manifest, list, now), WithRows(sys.audit, sys.manifest.gates, list)))
            <==> forall k :: 0 <= k < |list| ==> RowFits(sys, list[k])
    ensures Agreement(sys.(audit := WithRows(sys.audit, sys.manifest.gates, list)))
  {
    var gates := sys.manifest.gates;
    var rows, after := WithRows(sys.audit, gates, list), SettleAll(sys.manifest, list, now).gates;
    RowsOf(sys.audit, gates, list);
    SettledGates(sys.manifest, list, now);
    assert forall i :: 0 <= i < |gates| ==> Agrees(sys.audit, gates[i]);
    assert forall i :: 0 <= i < |gates| ==> Agrees(rows, gates[i]);
    forall k | 0 <= k < |list| ensures Agrees(rows, after[list[k].index]) <==> RowFits(sys, list[k]) {
      assert after[list[k].index] == SettledGate(gates[list[k].index], list[k].outcome, now);
    }
  }

  /** The gate has a row, and with the word of this settlement. */
  predicate RowIsThere(sys: System, s: Settlement)
    requires s.index < |sys.manifest.gates|
  {
    var id := sys.manifest.gates[s.index].id;
    id in sys.audit && sys.audit[id] == AuditString(s.outcome)
  }

  lemma {:induction false} SettlingUnrecordedExactly(sys: System, list: seq<Settlement>, now: int)
    requires Agreement(sys) && Ascending(list)
    requires forall k :: 0 <= k < |list| ==>
               list[k].index < |sys.manifest.gates| && sys.manifest.gates[list[k].index].status == Pending
    ensures Agreement(sys.(manifest := SettleAll(sys.manifest, list, now))) <==> forall k :: 0 <= k < |list| ==> RowIsThere(sys, list[k])
  {
    var gates := sys.manifest.gates;
    var after := SettleAll(sys.manifest, list, now).gates;
    SettledGates(sys.manifest, list, now);
    assert forall i :: 0 <= i < |gates| ==> Agrees(sys.audit, gates[i]);
    forall k | 0 <= k < |list| ensures Agrees(sys.audit, after[list[k].index]) <==> RowIsThere(sys, list[k]) {
      assert after[list[k].index] == SettledGate(gates[list[k].index], list[k].outcome, now);
    }
  }

  lemma {:induction false} IdsKept(sys: System, e: Event)
    requires DistinctIds(sys.manifest.gates) && NewIds(sys, e)
    ensures DistinctIds(Apply(sys, e).manifest.gates)
  {
    if (e.Decides? || e.Reconciles?) && Saved(e) {
      var list := Settles(sys, e);
      SettledGates(sys.manifest, list, TimeOf(e));
      var after := SettleAll(sys.manifest, list, TimeOf(e)).gates;
      forall i | 0 <= i < |after| ensures after[i].id == sys.manifest.gates[i].id {
        if k :| 0 <= k < |list| && list[k].index == i {
          assert after[list[k].index] == SettledGate(sys.manifest.gates[list[k].index], list[k].outcome, TimeOf(e));
        }
      }
    }
  }

  lemma {:induction false} OtherRowsExactly(sys: System, unwritable: set<nat>, at: int, list: seq<Settlement>)
    requires SettlesExpired(sys.manifest.gates, StoreFor(sys.manifest.gates, Working, unwritable), at, list)
    ensures (exists i :: 0 <= i < |sys.manifest.gates| && i !in unwritable && HasOtherRow(sys, i, at))
            <==> exists k :: 0 <= k < |list| && !RowFits(sys, list[k])
  {
    if k :| 0 <= k < |list| && !RowFits(sys, list[k]) {
      assert HasOtherRow(sys, list[k].index, at);
    }
    if i: nat :| i < |sys.manifest.gates| && i !in unwritable && HasOtherRow(sys, i, at) {
      var k :| 0 <= k < |list| && list[k].index == i;
      assert !RowFits(sys, list[k]);
    }
  }

  lemma {:induction false} LackedRowsExactly(sys: System, at: int, list: seq<Settlement>)
    requires SettlesExpired(sys.manifest.gates, NotOpened, at, list)
    ensures (exists i :: 0 <= i < |sys.manifest.gates| && LacksRow(sys, i, at))
            <==> exists k :: 0 <= k < |list| && !RowIsThere(sys, list[k])
  {
    if k :| 0 <= k < |list| && !RowIsThere(sys, list[k]) {
      assert LacksRow(sys, list[k].index, at);
    }
    if i: nat :| i < |sys.manifest.gates| && LacksRow(sys, i, at) {
      assert Lets(NotOpened, i);
      var k :| 0 <= k < |list| && list[k].index == i;
      assert !RowIsThere(sys, list[k]);
    }
  }

  lemma {:induction false} NothingReconciled(sys: System, at: int)
    ensures ReconcileSettles(sys.manifest.gates, Opened({}), at) == []
  {
    ReconciledExactly(sys.manifest.gates, Opened({}), at);
    var list := ReconcileSettles(sys.manifest.gates, Opened({}), at);
    assert list == [] || Lets(Opened({}), list[0].index);
  }

  lemma {:induction false} WorkingStoreAgreesExactly(sys: System, e: Event)
    requires Agreement(sys) && DistinctIds(sys.manifest.gates) && e.Reconciles? && e.access.Working?
    ensures Agreement(Apply(sys, e)) <==> !ReconcilesApart(sys, e)
  {
    ReconciledExactly(sys.manifest.gates, StoreFor(sys.manifest.gates, Working, e.unwritable), e.at);
    SettlingAgreesExactly(sys, Settles(sys, e), e.at);
    OtherRowsExactly(sys, e.unwritable, e.at, Settles(sys, e));
  }

  lemma {:induction false} UnopenedStoreAgreesExactly(sys: System, e: Event)
    requires Agreement(sys) && DistinctIds(sys.manifest.gates) && e.Reconciles? && !Opens(e.access)
    ensures Agreement(Apply(sys, e)) <==> !ReconcilesApart(sys, e)
  {
    ReconciledExactly(sys.manifest.gates, NotOpened, e.at);
    SettlingUnrecordedExactly(sys, Settles(sys, e), e.at);
    LackedRowsExactly(sys, e.at, Settles(sys, e));
  }

  lemma {:induction false} ReconciliationAgreesExactly(sys: System, e: Event)
    requires Agreement(sys) && DistinctIds(sys.manifest.gates) && e.Reconciles?
    ensures Agreement(Apply(sys, e)) <==> !ReconcilesApart(sys, e)
  {
    match e.access {
      case Working => WorkingStoreAgreesExactly(sys, e);
      case Refusing => NothingReconciled(sys, e.at);
      case _ => UnopenedStoreAgreesExactly(sys, e);
    }
  }

  lemma {:induction false} DecisionAgreesExactly(sys: System, e: Event)
    requires Agreement(sys) && DistinctIds(sys.manifest.gates) && e.Decides?
    ensures Agreement(Apply(sys, e)) <==> !DecidesUnrecorded(sys, e)
  {
    if Opens(e.access) {
      SettlingAgreesExactly(sys, Settles(sys, e), e.at);
    } else {
      SettlingUnrecordedExactly(sys, Settles(sys, e), e.at);
      if DecidesUnrecorded(sys, e) {
        assert !RowIsThere(sys, Settles(sys, e)[0]);
      }
    }
  }

  /** An event keeps store and manifest in agreement exactly when it neither settles, in a saved manifest, a gate
      against its row, nor one without a row while the store is not opened. */
  lemma {:induction false} StepAgreesExactly(sys: System, e: Event)
    requires Agreement(sys) && DistinctIds(sys.manifest.gates) && NewIds(sys, e)
    ensures Agreement(Apply(sys, e)) <==> !Parts(sys, e)
  {
    match e
    case Fires(b, cohort, counter) =>
      var fired := GatesFor(b, sys.manifest.layers, sys.manifest.gates, cohort, counter);
      FiredArePending(b, sys.manifest.layers, sys.manifest.gates, cohort, counter);
      assert forall i :: 0 <= i < |sys.manifest.gates| ==> Agrees(sys.audit, sys.manifest.gates[i]);
    case Grades(_) =>
    case Decides(_, _, _, _, _) => DecisionAgreesExactly(sys, e);
    case Reconciles(_, _, _, _) => ReconciliationAgreesExactly(sys, e);
  }

  lemma {:induction false} FiredArePending(b: Boundary, layers: seq<LayerResult>, gates: seq<Gate>, cohort: seq<string>, counter: nat)
    ensures forall k :: 0 <= k < |GatesFor(b, layers, gates, cohort, counter)| ==>
              GatesFor(b, layers, gates, cohort, counter)[k].status == Pending
  {
    if cohort != [] {
      var first := GateFor(b, layers, MostRecent(gates, cohort[0]), cohort[0], counter);
      FiredArePending(b, layers, gates, cohort[1..], if first.Some? then counter + 1 else counter);
    }
  }

  /* ---- Whole runs ---- */

  /** A disagreement is for good: neither a decided gate nor a row ever changes. */
  lemma {:induction false} DisagreementStays(sys: System, e: Event)
    requires !Agreement(sys) && DistinctIds(sys.manifest.gates) && NewIds(sys, e)
    ensures !Agreement(Apply(sys, e))
  {
    var gates := sys.manifest.gates;
    var i :| 0 <= i < |gates| && !Agrees(sys.audit, gates[i]);
    var after := Apply(sys, e);
    if e.Decides? || e.Reconciles? {
      var list := Settles(sys, e);
      SettledGates(sys.manifest, list, TimeOf(e));
      RowsOf(sys.audit, gates, list);
      assert forall k :: 0 <= k < |list| ==> list[k].index != i;
    }
    assert after.manifest.gates[i] == gates[i];
    assert !Agrees(after.audit, gates[i]);
  }

  /** Over any run, whatever writes are lost and however the store is found: store and manifest agree in the
      end exactly when no event of the run parted them. */
  lemma {:induction false} RunAgreesExactly(sys: System, events: seq<Event>)
    requires DistinctIds(sys.manifest.gates) && NewIdsThroughout(sys, events)
    ensures Agreement(Run(sys, events)) <==> Agreement(sys) && !PartsSomewhere(sys, events)
    decreases |events|
  {
    if events != [] {
      IdsKept(sys, events[0]);
      RunAgreesExactly(Apply(sys, events[0]), events[1..]);
      if Agreement(sys) {
        StepAgreesExactly(sys, events[0]);
      } else {
        DisagreementStays(sys, events[0]);
      }
    }
  }

  predicate StoreOpens(e: Event) {
    e.Decides? || e.Reconciles? ==> Opens(AccessOf(e))
  }

  /** No pending gate has a row yet. */
  predicate NoRowsAhead(sys: System) {
    forall i :: 0 <= i < |sys.manifest.gates| && sys.manifest.gates[i].status == Pending ==> sys.manifest.gates[i].id !in sys.audit
  }

  /** Where every save lands and the store always opens, they never part. */
  lemma {:induction false} SavedRunsAgree(sys: System, events: seq<Event>)
    requires Agreement(sys) && DistinctIds(sys.manifest.gates) && NewIdsThroughout(sys, events) && NoRowsAhead(sys)
    requires forall k :: 0 <= k < |events| ==> Saved(events[k]) && StoreOpens(events[k])
    ensures Agreement(Run(sys, events)) && NoRowsAhead(Run(sys, events))
    decreases |events|
  {
    if events != [] {
      IdsKept(sys, events[0]);
      StepAgreesExactly(sys, events[0]);
      NoRowsAheadKept(sys, events[0]);
      SavedRunsAgree(Apply(sys, events[0]), events[1..]);
    }
  }

  lemma {:induction false} SettlingLeavesNoRowsAhead(sys: System, list: seq<Settlement>, now: int)
    requires NoRowsAhead(sys) && DistinctIds(sys.manifest.gates) && Ascending(list)
    requires forall k :: 0 <= k < |list| ==>
               list[k].index < |sys.manifest.gates| && sys.manifest.gates[list[k].index].status == Pending
    ensures NoRowsAhead(System(SettleAll(sys.manifest, list, now), WithRows(sys.audit, sys.manifest.gates, list)))
  {
    var gates := sys.manifest.gates;
    var rows, after := WithRows(sys.audit, gates, list), SettleAll(sys.manifest, list, now).gates;
    SettledGates(sys.manifest, list, now);
    RowsOf(sys.audit, gates, list);
    forall i | 0 <= i < |after| && after[i].status == Pending ensures after[i].id !in rows {
      forall k | 0 <= k < |list| ensures list[k].index != i {
        assert after[list[k].index] == SettledGate(gates[list[k].index], list[k].outcome, now);
      }
      assert after[i] == gates[i];
    }
  }

  lemma {:induction false} NoRowsAheadKept(sys: System, e: Event)
    requires DistinctIds(sys.manifest.gates) && NewIds(sys, e) && NoRowsAhead(sys) && Saved(e) && StoreOpens(e)
    ensures NoRowsAhead(Apply(sys, e))
  {
    if e.Decides? || e.Reconciles? {
      SettlingLeavesNoRowsAhead(sys, Settles(sys, e), TimeOf(e));
    }
  }

  /* ---- A lost save ---- */

  lemma {:induction false} FindsOnlyGate(gates: seq<Gate>, i: nat)
    requires DistinctIds(gates) && i < |gates|
    ensures FindGate(gates, gates[i].id) == Some(i)
  {
    if i > 0 {
      forall j, k | 0 <= j < k < |gates[1..]| ensures gates[1..][j].id != gates[1..][k].id {
        assert gates[j + 1].id != gates[k + 1].id;
      }
      FindsOnlyGate(gates[1..], i - 1);
    }
  }

  lemma {:induction false} ManualIsNotTimeout(d: GateDecision, action: OnTimeout)
    ensures AuditString(Outcome(d, Manual)) != AuditString(TimeoutOutcome(action))
  {
    var manual, timeout := AuditString(Outcome(d, Manual)), AuditString(TimeoutOutcome(action));
    assert timeout[0] == 't' && (manual[0] == 'a' || manual[0] == 'r' || manual[0] == 's');
  }

  lemma {:induction false} OneRow(audit: map<string, string>, gates: seq<Gate>, s: Settlement)
    requires s.index < |gates|
    ensures var id := gates[s.index].id;
            WithRows(audit, gates, [s]) == if id in audit then audit else audit[id := AuditString(s.outcome)]
  {
    var id := gates[s.index].id;
    var next := if id in audit then audit else audit[id := AuditString(s.outcome)];
    assert [s][1..] == [];
    assert WithRows(next, gates, []) == next;
  }

  lemma {:induction false} RunTwo(sys: System, a: Event, b: Event)
    ensures Run(sys, [a, b]) == Apply(Apply(sys, a), b)
  {
    assert [a, b][1..] == [b] && [b][1..] == [];
    assert Run(Apply(Apply(sys, a), b), []) == Apply(Apply(sys, a), b);
    assert Run(Apply(sys, a), [b]) == Apply(Apply(sys, a), b);
  }

  /** A decision in time whose save is lost: the row is there, the gate is still pending. */
  lemma {:induction false} DecisionWithoutSave(sys: System, i: nat, d: GateDecision, at: int)
    requires DistinctIds(sys.manifest.gates) && i < |sys.manifest.gates| && sys.manifest.gates[i].status == Pending
    requires sys.manifest.gates[i].id !in sys.audit && !Expired(sys.manifest.gates[i], at)
    ensures var id := sys.manifest.gates[i].id;
            Apply(sys, Decides(id, d, Working, false, at)) == sys.(audit := sys.audit[id := AuditString(Outcome(d, Manual))])
  {
    var gates := sys.manifest.gates;
    FindsOnlyGate(gates, i);
    var s := Settlement(i, Outcome(d, Manual), HALTED_GATE_REJECTED);
    assert Settles(sys, Decides(gates[i].id, d, Working, false, at)) == [s];
    OneRow(sys.audit, gates, s);
  }

  /** If the deadline passes before the reviewer tries again, the next reconciliation applies the timeout
      action against the reviewer's recorded decision. */
  lemma {:induction false} LostSaveIsOverruled(sys: System, i: nat, d: GateDecision, at: int, later: int)
    requires Agreement(sys) && DistinctIds(sys.manifest.gates) && i < |sys.manifest.gates|
    requires !Expired(sys.manifest.gates[i], at) && Expired(sys.manifest.gates[i], later)
    requires sys.manifest.gates[i].id !in sys.audit
    ensures var id := sys.manifest.gates[i].id;
            !Agreement(Run(sys, [Decides(id, d, Working, false, at), Reconciles(Working, {}, true, later)]))
  {
    var gates := sys.manifest.gates;
    var first, second := Decides(gates[i].id, d, Working, false, at), Reconciles(Working, {}, true, later);
    DecisionWithoutSave(sys, i, d, at);
    ManualIsNotTimeout(d, gates[i].onTimeout);
    var decided := Apply(sys, first);
    assert HasOtherRow(decided, i, later);
    StepAgreesExactly(sys, first);
    StepAgreesExactly(decided, second);
    RunTwo(sys, first, second);
  }

  /** If the reviewer tries the same again, however late, the recorded decision takes effect and both agree. */
  lemma {:induction false} RetryCompletes(sys: System, i: nat, d: GateDecision, at: int, later: int, access: Access)
    requires Agreement(sys) && DistinctIds(sys.manifest.gates) && i < |sys.manifest.gates|
    requires sys.manifest.gates[i].status == Pending && !Expired(sys.manifest.gates[i], at)
    requires sys.manifest.gates[i].id !in sys.audit && Opens(access)
    ensures var id := sys.manifest.gates[i].id;
            var end := Run(sys, [Decides(id, d, Working, false, at), Decides(id, d, access, true, later)]);
            && Agreement(end) && i < |end.manifest.gates|
            && end.manifest.gates[i].status == DecidedStatus(d)
            && end.audit == sys.audit[id := AuditString(Outcome(d, Manual))]
  {
    var gates := sys.manifest.gates;
    var first, second := Decides(gates[i].id, d, Working, false, at), Decides(gates[i].id, d, access, true, later);
    DecisionWithoutSave(sys, i, d, at);
    FindsOnlyGate(gates, i);
    var decided := Apply(sys, first);
    var s := Settlement(i, Outcome(d, Manual), HALTED_GATE_REJECTED);
    assert Settles(decided, second) == [s];
    OneRow(decided.audit, gates, s);
    SettleOne(decided.manifest, s, later);
    StepAgreesExactly(sys, first);
    StepAgreesExactly(decided, second);
    RunTwo(sys, first, second);
  }

  /* ---- A store that does not open ---- */

  /** Every save lands and no row is overruled, but the store does not open: the next reconciliation decides an
      expired gate that never gets a row. */
  lemma {:induction false} UnopenedStoreIsSkipped(sys: System, i: nat, access: Access, unwritable: set<nat>, at: int)
    requires Agreement(sys) && DistinctIds(sys.manifest.gates) && i < |sys.manifest.gates|
    requires Expired(sys.manifest.gates[i], at) && sys.manifest.gates[i].id !in sys.audit && !Opens(access)
    ensures var after := Apply(sys, Reconciles(access, unwritable, true, at));
            && !Agreement(after) && after.audit == sys.audit
            && |after.manifest.gates| == |sys.manifest.gates| && after.manifest.gates[i].status != Pending
  {
    var gates, e := sys.manifest.gates, Reconciles(access, unwritable, true, at);
    assert LacksRow(sys, i, at);
    ReconciliationAgreesExactly(sys, e);
    ExpiredIsSettled(sys.manifest, i, at, ReconcileSettles(gates, NotOpened, at));
  }

  lemma {:induction false} ExpiredIsSettled(m: Snapshot, i: nat, at: int, list: seq<Settlement>)
    requires i < |m.gates| && Expired(m.gates[i], at) && list == ReconcileSettles(m.gates, NotOpened, at)
    ensures |SettleAll(m, list, at).gates| == |m.gates| && SettleAll(m, list, at).gates[i].status != Pending
  {
    ReconciledExactly(m.gates, NotOpened, at);
    SettledGates(m, list, at);
    assert Lets(NotOpened, i);
    var k :| 0 <= k < |list| && list[k].index == i;
    assert SettleAll(m, list, at).gates[list[k].index] == SettledGate(m.gates[list[k].index], list[k].outcome, at);
  }

  /* ---- The manifest of such a run ---- */

  /** The event as a step of the manifest's history. */
  function StepOf(sys: System, e: Event): GateHistory.Step {
    match e
    case Fires(b, cohort, counter) => GateHistory.Fire(b, cohort, counter)
    case Grades(r) => GateHistory.Grade(r)
    case Decides(id, d, access, _, at) =>
      GateHistory.Decided(id, d, if Opens(access) then PriorRow(sys.audit, id) else None,
                          if access == Working || access == Missing then Inserted else Broken, at)
    case Reconciles(access, unwritable, _, at) =>
      GateHistory.Reconciled(StoreFor(sys.manifest.gates, access, unwritable), at)
  }

  /** When its save lands, an event does to the manifest what that step does, a lost one nothing; so what holds of every
      history of gates holds here too. */
  lemma {:induction false} ManifestFollowsHistory(sys: System, e: Event)
    ensures Apply(sys, e).manifest
            == if Saved(e) then GateHistory.Apply(sys.manifest, StepOf(sys, e)) else sys.manifest
  {
    if e.Decides? && e.access == Shut {
      assert DecideSettles(sys.manifest.gates, e.id, e.decision, None, Broken, e.at) == [];
    }
  }

  lemma {:induction false} RunKeepsHistory(sys: System, events: seq<Event>)
    requires GateHistory.HistoryOk(sys.manifest.gates) && GateHistory.NeverTimedOut(sys.manifest.gates)
    requires forall k :: 0 <= k < |events| && events[k].Fires? ==> Distinct(events[k].cohort)
    ensures GateHistory.HistoryOk(Run(sys, events).manifest.gates) && GateHistory.NeverTimedOut(Run(sys, events).manifest.gates)
    decreases |events|
  {
    if events != [] {
      ManifestFollowsHistory(sys, events[0]);
      GateHistory.StepKeepsHistory(sys.manifest, StepOf(sys, events[0]));
      RunKeepsHistory(Apply(sys, events[0]), events[1..]);
    }
  }
}
