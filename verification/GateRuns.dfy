/** Whole histories of review gates: firing, decisions, timeouts and re-grading, in any order. */
module GateRuns {
  import opened Common
  import opened GateTypes
  import opened GateCohort

  const HALTED_GATE_REJECTED := "gate_rejected"
  const HALTED_GATE_TIMEOUT_REJECT := "gate_timeout_reject"

  datatype Snapshot = Snapshot(layers: seq<LayerResult>, gates: seq<Gate>)

  /* ---- Settling one gate ---- */

  datatype Settlement = Settlement(index: nat, outcome: Outcome, haltLabel: string)

  /** A reject with budget left sends the layer back; without, it fails the layer. */
  predicate GrantsRetry(g: Gate, o: Outcome) {
    o.decision == Reject && g.attemptsLeft > 0
  }

  function SettledGate(g: Gate, o: Outcome, now: int): Gate {
    g.(status := DecidedStatus(o.decision),
       decision := Some(AuditString(o)),
       decidedAt := Some(TruncateToSeconds(now)),
       attemptsLeft := if GrantsRetry(g, o) then g.attemptsLeft - 1
                       else if o.decision == Reject then 0 else g.attemptsLeft)
  }

  function SettledLayer(l: LayerResult, g: Gate, s: Settlement): LayerResult {
    if s.outcome.decision != Reject then l.(status := Passed)
    else if GrantsRetry(g, s.outcome) then l.(status := LayerPending)
    else l.(status := Failed, haltedBy := Some(s.haltLabel))
  }

  function WithLayer(layers: seq<LayerResult>, g: Gate, s: Settlement): seq<LayerResult> {
    match FindLayer(layers, g.layer)
    case Some(i) => layers[i := SettledLayer(layers[i], g, s)]
    case None => layers
  }

  function Settle(m: Snapshot, s: Settlement, now: int): Snapshot
    requires s.index < |m.gates|
  {
    var g := m.gates[s.index];
    Snapshot(WithLayer(m.layers, g, s), m.gates[s.index := SettledGate(g, s.outcome, now)])
  }

  function SettleAll(m: Snapshot, list: seq<Settlement>, now: int): Snapshot
    requires forall k :: 0 <= k < |list| ==> list[k].index < |m.gates|
    decreases |list|
  {
    if list == [] then m else SettleAll(Settle(m, list[0], now), list[1..], now)
  }

  /* ---- The three operations ---- */

  function FindGate(gates: seq<Gate>, id: string): (r: Option<nat>)
    ensures r.Some? ==> r.value < |gates| && gates[r.value].id == id
    ensures r.Some? ==> forall j :: 0 <= j < r.value ==> gates[j].id != id
    ensures r.None? ==> forall j :: 0 <= j < |gates| ==> gates[j].id != id
  {
    if gates == [] then None
    else if gates[0].id == id then Some(0)
    else match FindGate(gates[1..], id) case Some(i) => Some(i + 1) case None => None
  }

  /** What the audit store answers to a new row: it is in (or there is no store to keep it), its gate has a
      row with this word already, or the write failed. */
  datatype AuditInsert = Inserted | Taken(word: string) | Broken

  predicate Recorded(insert: AuditInsert, word: string) {
    insert.Inserted? || insert == Taken(word)
  }

  /** What the reviewer's decision comes to: an expired gate takes its timeout action instead, except when
      an earlier audit row of the same decision is being recovered. */
  function OutcomeOf(g: Gate, d: GateDecision, prior: Option<string>, now: int): Outcome {
    if prior.None? && Expired(g, now) then TimeoutOutcome(g.onTimeout) else Outcome(d, Manual)
  }

  /** The audit store lets it pass: an earlier row must be of the same decision, and without one the new
      row must be recorded. */
  predicate AuditAllows(prior: Option<string>, insert: AuditInsert, o: Outcome) {
    match prior
    case Some(word) => word == AuditString(o)
    case None => Recorded(insert, AuditString(o))
  }

  /** What a reviewer's decision settles: nothing unless the gate is there and pending and the audit store
      lets it pass. */
  function DecideSettles(gates: seq<Gate>, id: string, d: GateDecision, prior: Option<string>, insert: AuditInsert, now: int)
    : (r: seq<Settlement>)
    ensures forall k :: 0 <= k < |r| ==> r[k].index < |gates| && gates[r[k].index].status == Pending
    ensures |r| <= 1
  {
    match FindGate(gates, id)
    case None => []
    case Some(i) =>
      var o := OutcomeOf(gates[i], d, prior, now);
      if gates[i].status != Pending || !AuditAllows(prior, insert, o) then [] else [Settlement(i, o, HALTED_GATE_REJECTED)]
  }

  /** The settlements of all expired gates from position i on. */
  function ExpiredFrom(gates: seq<Gate>, i: nat, now: int): (r: seq<Settlement>)
    requires i <= |gates|
    ensures forall k :: 0 <= k < |r| ==> i <= r[k].index < |gates| && Expired(gates[r[k].index], now)
                                         && r[k].outcome == TimeoutOutcome(gates[r[k].index].onTimeout)
    ensures forall k, l :: 0 <= k < l < |r| ==> r[k].index < r[l].index
    decreases |gates| - i
  {
    if i == |gates| then []
    else if Expired(gates[i], now) then
      [Settlement(i, TimeoutOutcome(gates[i].onTimeout), HALTED_GATE_TIMEOUT_REJECT)] + ExpiredFrom(gates, i + 1, now)
    else ExpiredFrom(gates, i + 1, now)
  }

  /** The audit store, to the reconciler: opened, with the gates whose row is in it afterwards, be it new or an
      earlier one; or not there, or not to be opened, in which case no row is asked for. */
  datatype Store = Opened(audited: set<nat>) | NotOpened

  predicate Lets(store: Store, i: nat) {
    match store
    case Opened(audited) => i in audited
    case NotOpened => true
  }

  /** Those that the store lets pass. */
  function Cleared(list: seq<Settlement>, store: Store): seq<Settlement> {
    if list == [] then []
    else if Lets(store, list[0].index) then [list[0]] + Cleared(list[1..], store)
    else Cleared(list[1..], store)
  }

  lemma {:induction false} ClearedPicks(list: seq<Settlement>, store: Store)
    ensures forall s :: s in Cleared(list, store) <==> s in list && Lets(store, s.index)
  {
    if list != [] {
      ClearedPicks(list[1..], store);
      assert list == [list[0]] + list[1..];
    }
  }

  predicate Ascending(list: seq<Settlement>) {
    forall k, l :: 0 <= k < l < |list| ==> list[k].index < list[l].index
  }

  lemma {:induction false} ClearedAscends(list: seq<Settlement>, store: Store)
    requires Ascending(list)
    ensures Ascending(Cleared(list, store))
  {
    if list != [] {
      ClearedAscends(list[1..], store);
      var rest := Cleared(list[1..], store);
      forall k | 0 <= k < |rest| ensures list[0].index < rest[k].index {
        ClearedPicks(list[1..], store);
        assert rest[k] in list[1..];
      }
    }
  }

  /** What the reconciler settles: every expired gate that the store lets pass. */
  function ReconcileSettles(gates: seq<Gate>, store: Store, now: int): (r: seq<Settlement>)
    ensures forall k :: 0 <= k < |r| ==> r[k].index < |gates| && gates[r[k].index].status == Pending
    ensures forall k, l :: 0 <= k < l < |r| ==> r[k].index < r[l].index
  {
    var list := ExpiredFrom(gates, 0, now);
    ClearedAscends(list, store);
    ClearedPicks(list, store);
    assert forall k :: 0 <= k < |Cleared(list, store)| ==> Cleared(list, store)[k] in list;
    Cleared(list, store)
  }

  /* ---- What a settlement means ---- */

  /** What a reviewer's decision makes of a gate, and its word in the audit trail; */
  function ManualVerdict(d: GateDecision): (GateStatus, string) {
    match d
    case Approve => (Approved, "approve")
    case Reject => (Rejected, "reject")
    case Skip => (Skipped, "skip")
  }

  /** and what a deadline makes of it. */
  function TimeoutVerdict(action: OnTimeout): (GateStatus, string) {
    match action
    case TimeoutApprove => (Approved, "timeout_approve")
    case TimeoutReject => (Rejected, "timeout_reject")
    case TimeoutSkip => (Skipped, "timeout_skip")
  }

  /** The gate is decided, in whole seconds; a rejection uses up one of its attempts, if it has any. */
  predicate GateBecomes(g: Gate, after: Gate, verdict: (GateStatus, string), now: int) {
    && after.status == verdict.0 && after.decision == Some(verdict.1)
    && after.decidedAt.Some? && after.decidedAt.value <= now < after.decidedAt.value + 1000 && after.decidedAt.value % 1000 == 0
    && after.attemptsLeft == (if verdict.0 == Rejected && g.attemptsLeft > 0 then g.attemptsLeft - 1 else g.attemptsLeft)
    && after.id == g.id && after.layer == g.layer && after.trigger == g.trigger && after.requestedAt == g.requestedAt
    && after.timeoutAt == g.timeoutAt && after.onTimeout == g.onTimeout
  }

  /** A rejection with attempts left sends the layer back, one without fails it; else the layer has passed. */
  function LayerVerdict(g: Gate, status: GateStatus): LayerStatus {
    if status != Rejected then Passed else if g.attemptsLeft > 0 then LayerPending else Failed
  }

  /** The layer gets that status, and when it fails the label; nothing else of it changes. */
  predicate LayerBecomes(l: LayerResult, after: LayerResult, status: LayerStatus, haltLabel: string) {
    after == l.(status := status, haltedBy := if status == Failed then Some(haltLabel) else l.haltedBy)
  }

  /** Gate i and the layer it names are decided; all other gates and layers stay as they are. */
  predicate DecidedAlone(m: Snapshot, after: Snapshot, i: nat, verdict: (GateStatus, string), haltLabel: string, now: int)
    requires i < |m.gates|
  {
    && |after.gates| == |m.gates| && GateBecomes(m.gates[i], after.gates[i], verdict, now)
    && (forall j :: 0 <= j < |m.gates| && j != i ==> after.gates[j] == m.gates[j])
    && |after.layers| == |m.layers|
    && forall j :: 0 <= j < |m.layers| ==>
         if FindLayer(m.layers, m.gates[i].layer) == Some(j)
         then LayerBecomes(m.layers[j], after.layers[j], LayerVerdict(m.gates[i], verdict.0), haltLabel)
         else after.layers[j] == m.layers[j]
  }

  lemma {:induction false} OutcomesMean(d: GateDecision, action: OnTimeout)
    ensures (DecidedStatus(d), AuditString(Outcome(d, Manual))) == ManualVerdict(d)
    ensures var o := TimeoutOutcome(action); (DecidedStatus(o.decision), AuditString(o)) == TimeoutVerdict(action)
  {
  }

  lemma {:induction false} SettleDecidesAlone(m: Snapshot, s: Settlement, now: int)
    requires s.index < |m.gates|
    ensures DecidedAlone(m, Settle(m, s, now), s.index, (DecidedStatus(s.outcome.decision), AuditString(s.outcome)), s.haltLabel, now)
  {
  }

  lemma {:induction false} SettledGates(m: Snapshot, list: seq<Settlement>, now: int)
    requires forall k :: 0 <= k < |list| ==> list[k].index < |m.gates|
    requires Ascending(list)
    ensures var after := SettleAll(m, list, now).gates;
            && |after| == |m.gates|
            && (forall k :: 0 <= k < |list| ==>
                  after[list[k].index] == SettledGate(m.gates[list[k].index], list[k].outcome, now))
            && (forall i :: 0 <= i < |after| && (forall k :: 0 <= k < |list| ==> list[k].index != i) ==> after[i] == m.gates[i])
    decreases |list|
  {
    if list != [] {
      var next := Settle(m, list[0], now);
      SettledGates(next, list[1..], now);
      var after := SettleAll(m, list, now).gates;
      forall k | 0 <= k < |list|
        ensures after[list[k].index] == SettledGate(m.gates[list[k].index], list[k].outcome, now)
      {
        if k > 0 {
          assert list[1..][k - 1] == list[k];
        } else {
          assert forall l :: 0 <= l < |list[1..]| ==> list[1..][l].index != list[0].index;
        }
      }
    }
  }

  lemma {:induction false} ExpiredAreFound(gates: seq<Gate>, from: nat, i: nat, now: int)
    requires from <= i < |gates| && Expired(gates[i], now)
    ensures Settlement(i, TimeoutOutcome(gates[i].onTimeout), HALTED_GATE_TIMEOUT_REJECT) in ExpiredFrom(gates, from, now)
    decreases i - from
  {
    if from < i {
      ExpiredAreFound(gates, from + 1, i, now);
    }
  }

  /** The list settles exactly the expired gates that the store lets pass, with their timeout actions. */
  predicate SettlesExpired(gates: seq<Gate>, store: Store, now: int, list: seq<Settlement>) {
    && (forall k :: 0 <= k < |list| ==>
          var i := list[k].index;
          i < |gates| && Expired(gates[i], now) && Lets(store, i) && list[k].outcome == TimeoutOutcome(gates[i].onTimeout))
    && (forall i: nat :: i < |gates| && Expired(gates[i], now) && Lets(store, i) ==>
          exists k :: 0 <= k < |list| && list[k].index == i)
  }

  lemma {:induction false} ReconciledExactly(gates: seq<Gate>, store: Store, now: int)
    ensures SettlesExpired(gates, store, now, ReconcileSettles(gates, store, now))
  {
    var all, list := ExpiredFrom(gates, 0, now), ReconcileSettles(gates, store, now);
    ClearedPicks(all, store);
    forall k | 0 <= k < |list|
      ensures Expired(gates[list[k].index], now) && Lets(store, list[k].index)
              && list[k].outcome == TimeoutOutcome(gates[list[k].index].onTimeout)
    {
      assert list[k] in all;
    }
    forall i: nat | i < |gates| && Expired(gates[i], now) && Lets(store, i)
      ensures exists k :: 0 <= k < |list| && list[k].index == i
    {
      ExpiredAreFound(gates, 0, i, now);
      assert Settlement(i, TimeoutOutcome(gates[i].onTimeout), HALTED_GATE_TIMEOUT_REJECT) in list;
    }
  }

  /** The settlement is that of a gate whose layer is at position j. */
  predicate Hits(m: Snapshot, s: Settlement, j: nat) {
    s.index < |m.gates| && FindLayer(m.layers, m.gates[s.index].layer) == Some(j)
  }

  predicate HitsFailing(m: Snapshot, s: Settlement, j: nat) {
    Hits(m, s, j) && s.outcome.decision == Reject && m.gates[s.index].attemptsLeft == 0
  }

  /** The last settlement of the list that hits layer j. */
  predicate HitsLast(m: Snapshot, list: seq<Settlement>, k: int, j: nat) {
    0 <= k < |list| && Hits(m, list[k], j) && forall k' :: k < k' < |list| ==> !Hits(m, list[k'], j)
  }

  /** What a list of settlements makes of layer j: the status of the last one that hits it, and the label if
      one of them fails it. */
  ghost predicate LayerAfter(m: Snapshot, list: seq<Settlement>, j: nat, l: LayerResult, haltLabel: string)
    requires j < |m.layers|
  {
    && l.(status := m.layers[j].status, haltedBy := m.layers[j].haltedBy) == m.layers[j]
    && ((forall k :: 0 <= k < |list| ==> !Hits(m, list[k], j)) ==> l.status == m.layers[j].status)
    && (forall k :: HitsLast(m, list, k, j) ==>
          l.status == LayerVerdict(m.gates[list[k].index], DecidedStatus(list[k].outcome.decision)))
    && l.haltedBy == if exists k :: 0 <= k < |list| && HitsFailing(m, list[k], j) then Some(haltLabel) else m.layers[j].haltedBy
  }

  lemma {:induction false} SameNames(a: seq<LayerResult>, b: seq<LayerResult>, name: string)
    requires |a| == |b| && forall i :: 0 <= i < |a| ==> a[i].name == b[i].name
    ensures FindLayer(a, name) == FindLayer(b, name)
  {
  }

  lemma {:induction false} SettledLayers(m: Snapshot, list: seq<Settlement>, now: int, j: nat, haltLabel: string)
    requires forall k :: 0 <= k < |list| ==> list[k].index < |m.gates| && list[k].haltLabel == haltLabel
    requires Ascending(list) && j < |m.layers|
    ensures |SettleAll(m, list, now).layers| == |m.layers|
    ensures LayerAfter(m, list, j, SettleAll(m, list, now).layers[j], haltLabel)
    decreases |list|
  {
    if list != [] {
      var next, rest := Settle(m, list[0], now), list[1..];
      SettleDecidesAlone(m, list[0], now);
      SettledLayers(next, rest, now, j, haltLabel);
      forall k | 0 < k < |list| ensures Hits(next, list[k], j) <==> Hits(m, list[k], j) {
        SameNames(next.layers, m.layers, m.gates[list[k].index].layer);
      }
      OneMoreSettlement(m, list, next, SettleAll(m, list, now).layers[j], j, haltLabel);
    }
  }

  /** `next` is `m` after the first settlement of the list, as far as layer j and the rest of the list go. */
  predicate FirstSettled(m: Snapshot, list: seq<Settlement>, next: Snapshot, j: nat, haltLabel: string)
    requires list != [] && j < |m.layers| && list[0].index < |m.gates|
  {
    && |next.gates| == |m.gates| && |next.layers| == |m.layers|
    && (if Hits(m, list[0], j)
        then LayerBecomes(m.layers[j], next.layers[j],
                          LayerVerdict(m.gates[list[0].index], DecidedStatus(list[0].outcome.decision)), haltLabel)
        else next.layers[j] == m.layers[j])
    && forall k :: 0 < k < |list| ==>
         && list[k].index < |m.gates| && next.gates[list[k].index] == m.gates[list[k].index]
         && (Hits(next, list[k], j) <==> Hits(m, list[k], j))
  }

  lemma {:induction false} OneMoreSettlement(
      m: Snapshot, list: seq<Settlement>, next: Snapshot, l: LayerResult, j: nat, haltLabel: string)
    requires list != [] && j < |m.layers| && list[0].index < |m.gates| && FirstSettled(m, list, next, j, haltLabel)
    requires LayerAfter(next, list[1..], j, l, haltLabel)
    ensures LayerAfter(m, list, j, l, haltLabel)
  {
    forall k | HitsLast(m, list, k, j)
      ensures l.status == LayerVerdict(m.gates[list[k].index], DecidedStatus(list[k].outcome.decision))
    {
      LastOfRest(m, list, next, k, j, haltLabel);
    }
    if forall k :: 0 <= k < |list| ==> !Hits(m, list[k], j) {
      RestMisses(m, list, next, j, haltLabel);
    }
    FailureOfRest(m, list, next, j, haltLabel);
  }

  lemma {:induction false} RestMisses(m: Snapshot, list: seq<Settlement>, next: Snapshot, j: nat, haltLabel: string)
    requires list != [] && j < |m.layers| && list[0].index < |m.gates| && FirstSettled(m, list, next, j, haltLabel)
    requires forall k :: 0 < k < |list| ==> !Hits(m, list[k], j)
    ensures forall k :: 0 <= k < |list[1..]| ==> !Hits(next, list[1..][k], j)
  {
    assert forall k :: 0 <= k < |list[1..]| ==> list[1..][k] == list[k + 1];
  }

  lemma {:induction false} LastOfRest(m: Snapshot, list: seq<Settlement>, next: Snapshot, k: nat, j: nat, haltLabel: string)
    requires list != [] && j < |m.layers| && list[0].index < |m.gates| && FirstSettled(m, list, next, j, haltLabel)
    requires HitsLast(m, list, k, j)
    ensures 0 < k ==> HitsLast(next, list[1..], k - 1, j)
    ensures k == 0 ==> forall i :: 0 <= i < |list[1..]| ==> !Hits(next, list[1..][i], j)
  {
    if k == 0 {
      RestMisses(m, list, next, j, haltLabel);
    } else {
      var rest := list[1..];
      assert forall i :: 0 <= i < |rest| ==> rest[i] == list[i + 1];
      forall k' | k - 1 < k' < |rest| ensures !Hits(next, rest[k'], j) {
        assert !Hits(m, list[k' + 1], j);
      }
    }
  }

  lemma {:induction false} FailureOfRest(m: Snapshot, list: seq<Settlement>, next: Snapshot, j: nat, haltLabel: string)
    requires list != [] && j < |m.layers| && list[0].index < |m.gates| && FirstSettled(m, list, next, j, haltLabel)
    ensures var rest := list[1..];
            (exists k :: 0 <= k < |list| && HitsFailing(m, list[k], j)) <==>
              HitsFailing(m, list[0], j) || exists k :: 0 <= k < |rest| && HitsFailing(next, rest[k], j)
  {
    var rest := list[1..];
    assert forall k :: 0 <= k < |rest| ==> rest[k] == list[k + 1];
    if k :| 0 <= k < |list| && HitsFailing(m, list[k], j) {
      if k > 0 {
        assert HitsFailing(next, rest[k - 1], j);
      }
    }
    if k :| 0 <= k < |rest| && HitsFailing(next, rest[k], j) {
      assert HitsFailing(m, list[k + 1], j);
    }
  }

  /** The reconciler settles gate i: its deadline has passed, and its row is in the store, if that is opened. */
  predicate TimesOut(m: Snapshot, store: Store, i: nat, now: int) {
    && i < |m.gates| && m.gates[i].status == Pending
    && m.gates[i].timeoutAt.Some? && m.gates[i].timeoutAt.value <= now
    && (store.Opened? ==> i in store.audited)
  }

  /** It settles gate i, whose layer is at position j. */
  predicate TimesOutFor(m: Snapshot, store: Store, i: nat, now: int, j: nat) {
    TimesOut(m, store, i, now) && FindLayer(m.layers, m.gates[i].layer) == Some(j)
  }

  /** Gate i fails layer j: it times out as a rejection, and has no attempts left. */
  predicate TimeoutFails(m: Snapshot, store: Store, i: nat, now: int, j: nat) {
    TimesOutFor(m, store, i, now, j) && m.gates[i].onTimeout == TimeoutReject && m.gates[i].attemptsLeft == 0
  }

  /** What that makes of layer j: it has the status that the last such gate brings, and the label when one of them
      is a rejection without attempts left; without any it is unchanged. */
  ghost predicate LayerReconciled(m: Snapshot, store: Store, now: int, j: nat, l: LayerResult)
    requires j < |m.layers|
  {
    && l.(status := m.layers[j].status, haltedBy := m.layers[j].haltedBy) == m.layers[j]
    && ((forall i: nat :: !TimesOutFor(m, store, i, now, j)) ==> l == m.layers[j])
    && (forall i: nat :: TimesOutFor(m, store, i, now, j) && (forall i' :: i < i' ==> !TimesOutFor(m, store, i', now, j)) ==>
          l.status == LayerVerdict(m.gates[i], TimeoutVerdict(m.gates[i].onTimeout).0))
    && l.haltedBy ==
         if exists i: nat :: TimeoutFails(m, store, i, now, j)
         then Some("gate_timeout_reject") else m.layers[j].haltedBy
  }

  /** Every gate that times out is decided by its deadline, every other gate stays as it is, and so for the layers. */
  ghost predicate ReconciledTo(m: Snapshot, store: Store, now: int, after: Snapshot) {
    && |after.gates| == |m.gates| && |after.layers| == |m.layers|
    && (forall i: nat :: i < |m.gates| ==>
          if TimesOut(m, store, i, now)
          then GateBecomes(m.gates[i], after.gates[i], TimeoutVerdict(m.gates[i].onTimeout), now)
          else after.gates[i] == m.gates[i])
    && (forall j: nat :: j < |m.layers| ==> LayerReconciled(m, store, now, j, after.layers[j]))
  }

  lemma {:induction false} ListedTimesOut(m: Snapshot, store: Store, now: int, list: seq<Settlement>, k: nat, j: nat)
    requires SettlesExpired(m.gates, store, now, list) && k < |list|
    ensures TimesOut(m, store, list[k].index, now) && list[k].outcome == TimeoutOutcome(m.gates[list[k].index].onTimeout)
    ensures Hits(m, list[k], j) <==> TimesOutFor(m, store, list[k].index, now, j)
  {
  }

  lemma {:induction false} TimeoutIsListed(m: Snapshot, store: Store, now: int, list: seq<Settlement>, i: nat) returns (k: nat)
    requires SettlesExpired(m.gates, store, now, list) && TimesOut(m, store, i, now)
    ensures k < |list| && list[k].index == i
  {
    assert Lets(store, i) && Expired(m.gates[i], now);
    k :| 0 <= k < |list| && list[k].index == i;
  }

  lemma {:induction false} UntouchedLayer(m: Snapshot, store: Store, now: int, list: seq<Settlement>, j: nat, l: LayerResult)
    requires j < |m.layers| && SettlesExpired(m.gates, store, now, list)
    requires LayerAfter(m, list, j, l, HALTED_GATE_TIMEOUT_REJECT)
    requires forall i: nat :: !TimesOutFor(m, store, i, now, j)
    ensures l == m.layers[j]
  {
    forall k | 0 <= k < |list| ensures !Hits(m, list[k], j) {
      ListedTimesOut(m, store, now, list, k, j);
    }
  }

  lemma {:induction false} LastTimeoutTells(m: Snapshot, store: Store, now: int, list: seq<Settlement>, i: nat, j: nat, l: LayerResult)
    requires j < |m.layers| && Ascending(list) && SettlesExpired(m.gates, store, now, list)
    requires LayerAfter(m, list, j, l, HALTED_GATE_TIMEOUT_REJECT)
    requires TimesOutFor(m, store, i, now, j) && forall i' :: i < i' ==> !TimesOutFor(m, store, i', now, j)
    ensures l.status == LayerVerdict(m.gates[i], TimeoutVerdict(m.gates[i].onTimeout).0)
  {
    var k := TimeoutIsListed(m, store, now, list, i);
    ListedTimesOut(m, store, now, list, k, j);
    forall k' | k < k' < |list| ensures !Hits(m, list[k'], j) {
      ListedTimesOut(m, store, now, list, k', j);
    }
    assert HitsLast(m, list, k, j);
    OutcomesMean(Approve, m.gates[i].onTimeout);
  }

  lemma {:induction false} FailuresAreListed(m: Snapshot, store: Store, now: int, list: seq<Settlement>, j: nat)
    requires SettlesExpired(m.gates, store, now, list)
    ensures (exists i: nat :: TimeoutFails(m, store, i, now, j)) <==> exists k :: 0 <= k < |list| && HitsFailing(m, list[k], j)
  {
    if i: nat :| TimeoutFails(m, store, i, now, j) {
      var k := TimeoutIsListed(m, store, now, list, i);
      ListedTimesOut(m, store, now, list, k, j);
      assert HitsFailing(m, list[k], j);
    }
    if k :| 0 <= k < |list| && HitsFailing(m, list[k], j) {
      ListedTimesOut(m, store, now, list, k, j);
      assert TimeoutFails(m, store, list[k].index, now, j);
    }
  }

  lemma {:induction false} LayerIsReconciled(m: Snapshot, store: Store, now: int, list: seq<Settlement>, j: nat, l: LayerResult)
    requires j < |m.layers| && Ascending(list) && SettlesExpired(m.gates, store, now, list)
    requires LayerAfter(m, list, j, l, HALTED_GATE_TIMEOUT_REJECT)
    ensures LayerReconciled(m, store, now, j, l)
  {
    if forall i: nat :: !TimesOutFor(m, store, i, now, j) {
      UntouchedLayer(m, store, now, list, j, l);
    }
    forall i: nat | TimesOutFor(m, store, i, now, j) && (forall i' :: i < i' ==> !TimesOutFor(m, store, i', now, j))
      ensures l.status == LayerVerdict(m.gates[i], TimeoutVerdict(m.gates[i].onTimeout).0)
    {
      LastTimeoutTells(m, store, now, list, i, j, l);
    }
    FailuresAreListed(m, store, now, list, j);
  }

  lemma {:induction false} GateIsReconciled(m: Snapshot, store: Store, now: int, list: seq<Settlement>, i: nat)
    requires i < |m.gates| && Ascending(list) && SettlesExpired(m.gates, store, now, list)
    ensures var after := SettleAll(m, list, now).gates;
            && |after| == |m.gates|
            && if TimesOut(m, store, i, now) then GateBecomes(m.gates[i], after[i], TimeoutVerdict(m.gates[i].onTimeout), now)
               else after[i] == m.gates[i]
  {
    SettledGates(m, list, now);
    if TimesOut(m, store, i, now) {
      var k := TimeoutIsListed(m, store, now, list, i);
      ListedTimesOut(m, store, now, list, k, 0);
      OutcomesMean(Approve, m.gates[i].onTimeout);
      SettleDecidesAlone(m, list[k], now);
    } else {
      forall k | 0 <= k < |list| ensures list[k].index != i {
        ListedTimesOut(m, store, now, list, k, 0);
      }
    }
  }

  lemma {:induction false} ReconcilesEach(m: Snapshot, store: Store, now: int)
    ensures ReconciledTo(m, store, now, SettleAll(m, ReconcileSettles(m.gates, store, now), now))
  {
    var list := ReconcileSettles(m.gates, store, now);
    var after := SettleAll(m, list, now);
    ReconciledExactly(m.gates, store, now);
    SettledGates(m, list, now);
    LabelsOfReconciled(m.gates, store, now);
    forall i: nat | i < |m.gates|
      ensures if TimesOut(m, store, i, now)
              then GateBecomes(m.gates[i], after.gates[i], TimeoutVerdict(m.gates[i].onTimeout), now)
              else after.gates[i] == m.gates[i]
    {
      GateIsReconciled(m, store, now, list, i);
    }
    SettleAllKeepsLayers(m, list, now);
    forall j: nat | j < |m.layers| ensures LayerReconciled(m, store, now, j, after.layers[j]) {
      SettledLayers(m, list, now, j, HALTED_GATE_TIMEOUT_REJECT);
      LayerIsReconciled(m, store, now, list, j, after.layers[j]);
    }
  }

  lemma {:induction false} LabelsOfReconciled(gates: seq<Gate>, store: Store, now: int)
    ensures forall k :: 0 <= k < |ReconcileSettles(gates, store, now)| ==>
              ReconcileSettles(gates, store, now)[k].haltLabel == HALTED_GATE_TIMEOUT_REJECT
  {
    var all, list := ExpiredFrom(gates, 0, now), ReconcileSettles(gates, store, now);
    LabelsOfExpired(gates, 0, now);
    ClearedPicks(all, store);
    forall k | 0 <= k < |list| ensures list[k].haltLabel == HALTED_GATE_TIMEOUT_REJECT {
      assert list[k] in all;
    }
  }

  lemma {:induction false} LabelsOfExpired(gates: seq<Gate>, i: nat, now: int)
    requires i <= |gates|
    ensures forall s :: s in ExpiredFrom(gates, i, now) ==> s.haltLabel == HALTED_GATE_TIMEOUT_REJECT
    decreases |gates| - i
  {
    if i < |gates| {
      LabelsOfExpired(gates, i + 1, now);
    }
  }

  lemma {:induction false} SettleAllKeepsLayers(m: Snapshot, list: seq<Settlement>, now: int)
    requires forall k :: 0 <= k < |list| ==> list[k].index < |m.gates|
    ensures |SettleAll(m, list, now).layers| == |m.layers|
    decreases |list|
  {
    if list != [] {
      SettleAllKeepsLayers(Settle(m, list[0], now), list[1..], now);
    }
  }

  /** The verdict on a gate that a reviewer decides: the deadline's when it has passed, unless an earlier row of the
      same decision is recovered. */
  function VerdictOn(g: Gate, d: GateDecision, prior: Option<string>, now: int): (GateStatus, string) {
    if prior.None? && Expired(g, now) then TimeoutVerdict(g.onTimeout) else ManualVerdict(d)
  }

  /** An earlier row has this word, or without one the new row is in, or its place is taken by one with this word. */
  predicate StoreAgrees(prior: Option<string>, insert: AuditInsert, word: string) {
    if prior.Some? then prior.value == word else insert.Inserted? || insert == Taken(word)
  }

  lemma {:induction false} DecisionMeans(m: Snapshot, i: nat, d: GateDecision, prior: Option<string>, insert: AuditInsert, now: int)
    requires i < |m.gates|
    ensures var o := OutcomeOf(m.gates[i], d, prior, now);
            && (AuditAllows(prior, insert, o) <==> StoreAgrees(prior, insert, VerdictOn(m.gates[i], d, prior, now).1))
            && DecidedAlone(m, Settle(m, Settlement(i, o, HALTED_GATE_REJECTED), now), i, VerdictOn(m.gates[i], d, prior, now),
                            "gate_rejected", now)
  {
    OutcomesMean(d, m.gates[i].onTimeout);
    SettleDecidesAlone(m, Settlement(i, OutcomeOf(m.gates[i], d, prior, now), HALTED_GATE_REJECTED), now);
  }

  function AwaitReview(layers: seq<LayerResult>, names: seq<string>): seq<LayerResult>
    decreases |names|
  {
    if names == [] then layers
    else
      var next := match FindLayer(layers, names[0])
                  case Some(i) => layers[i := layers[i].(status := PendingReview)]
                  case None => layers;
      AwaitReview(next, names[1..])
  }

  /** The layers named are to wait for review, and no other changes. */
  predicate Await(layers: seq<LayerResult>, names: seq<string>, after: seq<LayerResult>) {
    && |after| == |layers|
    && forall j :: 0 <= j < |layers| ==>
         after[j] == if layers[j].name in names && FindLayer(layers, layers[j].name) == Some(j)
                     then layers[j].(status := PendingReview) else layers[j]
  }

  lemma {:induction false} AwaitReviewMeans(layers: seq<LayerResult>, names: seq<string>)
    ensures Await(layers, names, AwaitReview(layers, names))
    decreases |names|
  {
    if names != [] {
      var found := FindLayer(layers, names[0]);
      var next := if found.Some? then layers[found.value := layers[found.value].(status := PendingReview)] else layers;
      AwaitReviewMeans(next, names[1..]);
      forall j | 0 <= j < |layers| ensures FindLayer(next, layers[j].name) == FindLayer(layers, layers[j].name) {
        SameNames(next, layers, layers[j].name);
      }
    }
  }

  function Fired(m: Snapshot, b: Boundary, cohort: seq<string>, counter: nat): Snapshot {
    var fired := GatesFor(b, m.layers, m.gates, cohort, counter);
    Snapshot(AwaitReview(m.layers, LayersOf(fired)), m.gates + fired)
  }

  /** The reconciler's first phase only collects. */
  method ScanExpired(gates: seq<Gate>, now: int) returns (actions: seq<Settlement>)
    ensures actions == ExpiredFrom(gates, 0, now)
  {
    ghost var list := ExpiredFrom(gates, 0, now);
    actions := [];
    for i := 0 to |gates|
      invariant actions + ExpiredFrom(gates, i, now) == list
    {
      if Expired(gates[i], now) {
        var s := Settlement(i, TimeoutOutcome(gates[i].onTimeout), HALTED_GATE_TIMEOUT_REJECT);
        RegroupSettlements(actions, s, ExpiredFrom(gates, i + 1, now));
        actions := actions + [s];
      }
    }
  }

  datatype DecideAnswer = Settled | Conflict | NotPersisted

  /** The manifest, which the daemon's handlers update in place under its lock. */
  class Manifest {
    var layers: seq<LayerResult>
    var gates: seq<Gate>

    function Contents(): Snapshot
      reads this
    {
      Snapshot(layers, gates)
    }

    method SettleGate(s: Settlement, now: int)
      requires s.index < |gates|
      modifies this
      ensures Contents() == Settle(old(Contents()), s, now)
    {
      var g := gates[s.index];
      var newLayers := WithLayer(layers, g, s);
      gates := gates[s.index := SettledGate(g, s.outcome, now)];
      layers := newLayers;
    }

    /** The timeout check in place; the caller settles the gate with the outcome it returns. */
    method ApplyTimeoutIfExpired(i: nat, action: OnTimeout, now: int) returns (outcome: Option<Outcome>)
      requires i < |gates|
      modifies this`gates
      ensures gates == old(gates)[i := TimeoutApplied(old(gates)[i], action, now)]
      ensures outcome == TimeoutResult(old(gates)[i], action, now)
    {
      outcome := None;
      var gate := gates[i];
      if gate.status != Pending {
        return;
      }
      if gate.timeoutAt.None? {
        return;
      }
      if now < gate.timeoutAt.value {
        return;
      }
      var o := TimeoutOutcome(action);
      gates := gates[i := gate.(decision := Some(AuditString(o)), decidedAt := Some(now),
                                status := DecidedStatus(o.decision))];
      outcome := Some(o);
    }

    /** The audit store is asked first: an earlier row of the gate, or else the row of what the decision comes
        to, the timeout check included. */
    method ConsultAudit(i: nat, d: GateDecision, prior: Option<string>, insert: AuditInsert, now: int)
      returns (r: Result<Outcome, DecideAnswer>)
      requires i < |gates| && gates[i].status == Pending
      modifies this`gates
      ensures var o := OutcomeOf(old(gates)[i], d, prior, now);
              && (r.Ok? <==> AuditAllows(prior, insert, o)) && (r.Ok? ==> r.value == o)
              && (r.Err? ==> r.error == if prior.None? && insert.Broken? then NotPersisted else Conflict)
      ensures |gates| == |old(gates)| && gates == old(gates)[i := gates[i]]
      ensures gates[i].(status := Pending, decision := old(gates)[i].decision, decidedAt := old(gates)[i].decidedAt)
              == old(gates)[i]
    {
      var outcome := Outcome(d, Manual);
      if prior.Some? {
        return if prior.value == AuditString(outcome) then Ok(outcome) else Err(Conflict);
      }
      var timeout := ApplyTimeoutIfExpired(i, gates[i].onTimeout, now);
      if timeout.Some? {
        outcome := timeout.value;
      }
      match insert {
        case Inserted => return Ok(outcome);
        case Taken(word) => return if word == AuditString(outcome) then Ok(outcome) else Err(Conflict);
        case Broken => return Err(NotPersisted);
      }
    }

    /** The reviewer's handler, on the copy of the manifest that it loaded; it saves the copy only when it
        has settled the gate. Conflict is its answer for a gate that is missing, or decided already in the
        manifest or in the audit store. `prior` is the word of an earlier audit row. */
    method Decide(id: string, d: GateDecision, prior: Option<string>, insert: AuditInsert, now: int)
      returns (answer: DecideAnswer)
      modifies this
      ensures var before := old(Contents());
              var list := DecideSettles(before.gates, id, d, prior, insert, now);
              && (answer == Settled <==> list != [])
              && (answer == Settled ==> Contents() == SettleAll(before, list, now))
      ensures var found := FindGate(old(gates), id);
              answer == Settled <==>
                && found.Some? && old(gates)[found.value].status == Pending
                && StoreAgrees(prior, insert, VerdictOn(old(gates)[found.value], d, prior, now).1)
      ensures answer == Settled ==>
                var i := FindGate(old(gates), id).value;
                DecidedAlone(old(Contents()), Contents(), i, VerdictOn(old(gates)[i], d, prior, now), "gate_rejected", now)
      ensures answer == NotPersisted <==>
                var found := FindGate(old(gates), id);
                found.Some? && old(gates)[found.value].status == Pending && prior.None? && insert.Broken?
    {
      var found := FindGate(gates, id);
      if found.None? {
        return Conflict;
      }
      var i := found.value;
      if gates[i].status != Pending {
        return Conflict;
      }
      ghost var before := Contents();
      DecisionMeans(before, i, d, prior, insert, now);
      var consulted := ConsultAudit(i, d, prior, insert, now);
      if consulted.Err? {
        return consulted.error;
      }
      var s := Settlement(i, consulted.value, HALTED_GATE_REJECTED);
      SettleGate(s, now);
      assert gates == before.gates[i := SettledGate(before.gates[i], s.outcome, now)];
      SettleOne(before, s, now);
      answer := Settled;
    }

    /** The reconciler's other phases: the audit row of each gate, and then its update; a gate whose row
        could not be written is left for the next time. */
    method SettleEach(actions: seq<Settlement>, store: Store, now: int) returns (reconciled: nat)
      requires forall k :: 0 <= k < |actions| ==> actions[k].index < |gates|
      modifies this
      ensures forall k :: 0 <= k < |Cleared(actions, store)| ==> Cleared(actions, store)[k].index < |old(gates)|
      ensures Contents() == SettleAll(old(Contents()), Cleared(actions, store), now)
      ensures reconciled == |Cleared(actions, store)|
    {
      ghost var rest := Cleared(actions, store);
      ghost var count := |gates|;
      ClearedAreIn(actions, store, count);
      ghost var goal := SettleAll(Contents(), rest, now);
      assert actions[0..] == actions;
      reconciled := 0;
      for k := 0 to |actions|
        invariant |gates| == count && rest == Cleared(actions[k..], store)
        invariant reconciled + |rest| == |Cleared(actions, store)|
        invariant forall l :: 0 <= l < |rest| ==> rest[l].index < count
        invariant SettleAll(Contents(), rest, now) == goal
      {
        ClearedStep(actions, store, k);
        if Lets(store, actions[k].index) {
          SettleGate(actions[k], now);
          rest := rest[1..];
          reconciled := reconciled + 1;
        }
      }
    }

    /** The reconciler scans, then records and updates. */
    method ReconcileExpired(store: Store, now: int) returns (reconciled: nat)
      modifies this
      ensures var before := old(Contents());
              var list := ReconcileSettles(before.gates, store, now);
              Contents() == SettleAll(before, list, now) && reconciled == |list|
      ensures ReconciledTo(old(Contents()), store, now, Contents())
    {
      ReconcilesEach(Contents(), store, now);
      var actions := ScanExpired(gates, now);
      reconciled := SettleEach(actions, store, now);
    }

    /** A cohort boundary: new gates are appended and their layers wait for review. */
    method FireGates(b: Boundary, cohort: seq<string>, firstCounter: nat) returns (counter: nat)
      modifies this
      ensures Contents() == Fired(old(Contents()), b, cohort, firstCounter)
      ensures |old(gates)| <= |gates| && gates[..|old(gates)|] == old(gates)
      ensures AllDue(b, old(layers), old(gates), gates[|old(gates)|..], firstCounter)
      ensures Await(old(layers), LayersToReview(b, old(layers), old(gates), cohort), layers)
      ensures counter == firstCounter + |gates| - |old(gates)|
    {
      ghost var before := Contents();
      var newGates, names;
      newGates, names, counter := CheckGatesForCohort(b, layers, gates, cohort, firstCounter);
      for k := 0 to |names|
        invariant gates == before.gates && AwaitReview(layers, names[k..]) == AwaitReview(before.layers, names)
      {
        assert names[k..][0] == names[k] && names[k..][1..] == names[k + 1..];
        var found := FindLayer(layers, names[k]);
        if found.Some? {
          layers := layers[found.value := layers[found.value].(status := PendingReview)];
        }
      }
      gates := gates + newGates;
      GatesFireInOrder(b, before.layers, before.gates, cohort, firstCounter);
      AwaitReviewMeans(before.layers, names);
      assert gates[|before.gates|..] == newGates;
    }
  }

  lemma {:induction false} ClearedStep(list: seq<Settlement>, store: Store, k: nat)
    requires k < |list|
    ensures var rest := Cleared(list[k + 1..], store);
            Cleared(list[k..], store) == if Lets(store, list[k].index) then [list[k]] + rest else rest
  {
    assert list[k..][0] == list[k] && list[k..][1..] == list[k + 1..];
  }

  lemma {:induction false} ClearedAreIn(list: seq<Settlement>, store: Store, count: nat)
    requires forall k :: 0 <= k < |list| ==> list[k].index < count
    ensures forall k :: 0 <= k < |Cleared(list, store)| ==> Cleared(list, store)[k].index < count
  {
    ClearedPicks(list, store);
    forall k | 0 <= k < |Cleared(list, store)| ensures Cleared(list, store)[k].index < count {
      assert Cleared(list, store)[k] in list;
    }
  }

  lemma {:induction false} SettleOne(m: Snapshot, s: Settlement, now: int)
    requires s.index < |m.gates|
    ensures SettleAll(m, [s], now) == Settle(m, s, now)
  {
    assert [s][1..] == [];
  }

  lemma {:induction false} RegroupSettlements(a: seq<Settlement>, x: Settlement, b: seq<Settlement>)
    ensures a + ([x] + b) == (a + [x]) + b
  {
  }
}
