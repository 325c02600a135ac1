/** Firing review gates at a cohort boundary. */
module GateCohort {
  import opened Common
  import opened GateTypes

  datatype LayerStatus = LayerPending | InProgress | Passed | Failed | LayerSkipped | PendingReview

  datatype LayerResult = LayerResult(
    name: string,
    status: LayerStatus,
    passes: nat,
    finalConfidence: Option<real>,
    totalCost: Option<real>,
    haltedBy: Option<string>)

  datatype LayerOverride = LayerOverride(
    requireReview: Option<bool>, trigger: Option<string>, tier: Option<nat>, retryOnReject: Option<nat>)

  datatype ReviewConfig = ReviewConfig(
    enabled: bool, trigger: Option<string>, timeoutHours: nat, onTimeout: OnTimeout, retryOnReject: nat)

  datatype Workflow = Workflow(overrides: map<string, LayerOverride>, review: Option<ReviewConfig>)

  datatype TriggerContext = TriggerContext(
    tier: nat, layer: string, confidence: real, cost: real, passes: nat, changeScope: string)

  /** Whether a trigger expression parses and holds; its language is not part of this model. */
  type Evaluator = (string, TriggerContext) -> bool

  datatype Boundary = Boundary(
    fires: Evaluator, workflow: Workflow, featureId: string, defaultTier: nat, changeScope: string, now: int)

  function Get<T>(o: Option<T>, default: T): T {
    if o.Some? then o.value else default
  }

  function OverrideOf(w: Workflow, layer: string): Option<LayerOverride> {
    if layer in w.overrides then Some(w.overrides[layer]) else None
  }

  /** A required review fires always; else the layer's own trigger decides, and only without one the
      project's, when reviews are enabled. */
  function ResolveGateTrigger(fires: Evaluator, w: Workflow, layer: string, ctx: TriggerContext): Option<string> {
    match OverrideOf(w, layer)
    case Some(LayerOverride(Some(true), _, _, _)) => Some("true")
    case Some(LayerOverride(_, Some(expr), _, _)) => if fires(expr, ctx) then Some(expr) else None
    case _ =>
      match w.review
      case Some(ReviewConfig(true, Some(expr), _, _, _)) => if fires(expr, ctx) then Some(expr) else None
      case _ => None
  }

  /** The larger of what project and layer allow. */
  function EffectiveRetryOnReject(w: Workflow, layer: string): (n: nat)
    ensures w.review.Some? ==> w.review.value.retryOnReject <= n
    ensures layer in w.overrides && w.overrides[layer].retryOnReject.Some? ==> w.overrides[layer].retryOnReject.value <= n
    ensures n > 0 ==> (w.review.Some? && w.review.value.retryOnReject == n)
                      || (layer in w.overrides && w.overrides[layer].retryOnReject == Some(n))
  {
    var project := match w.review case Some(r) => r.retryOnReject case None => 0;
    var perLayer := match OverrideOf(w, layer) case Some(o) => Get(o.retryOnReject, 0) case None => 0;
    if project >= perLayer then project else perLayer
  }

  /** The position of the layer's last gate: a plain backward scan. */
  function LastIndex(gates: seq<Gate>, layer: string): (r: Option<nat>)
    ensures r.Some? ==> r.value < |gates| && gates[r.value].layer == layer
    ensures r.Some? ==> forall j :: r.value < j < |gates| ==> gates[j].layer != layer
    ensures r.None? ==> forall j :: 0 <= j < |gates| ==> gates[j].layer != layer
  {
    if gates == [] then None
    else if gates[|gates| - 1].layer == layer then Some(|gates| - 1)
    else LastIndex(gates[..|gates| - 1], layer)
  }

  function MostRecent(gates: seq<Gate>, layer: string): Option<Gate> {
    match LastIndex(gates, layer)
    case Some(i) => Some(gates[i])
    case None => None
  }

  function FindLayer(layers: seq<LayerResult>, name: string): (r: Option<nat>)
    ensures r.Some? ==> r.value < |layers| && layers[r.value].name == name
    ensures r.Some? ==> forall j :: 0 <= j < r.value ==> layers[j].name != name
    ensures r.None? ==> forall j :: 0 <= j < |layers| ==> layers[j].name != name
  {
    if layers == [] then None
    else if layers[0].name == name then Some(0)
    else match FindLayer(layers[1..], name) case Some(i) => Some(i + 1) case None => None
  }

  /** What a trigger gets to see of the layer: the tier of its override, else the workflow's; zero for a confidence
      or a cost that was not reported; and the number of passes in 32 bits. */
  function ContextOf(b: Boundary, l: LayerResult): (ctx: TriggerContext)
    ensures ctx.layer == l.name && ctx.changeScope == b.changeScope
    ensures ctx.passes < 0x1_0000_0000 && (l.passes - ctx.passes) % 0x1_0000_0000 == 0
    ensures ctx.confidence == (if l.finalConfidence.None? then 0.0 else l.finalConfidence.value)
    ensures ctx.cost == (if l.totalCost.None? then 0.0 else l.totalCost.value)
    ensures if l.name in b.workflow.overrides && b.workflow.overrides[l.name].tier.Some?
            then ctx.tier == b.workflow.overrides[l.name].tier.value else ctx.tier == b.defaultTier
  {
    var tier := match OverrideOf(b.workflow, l.name) case Some(o) => Get(o.tier, b.defaultTier) case None => b.defaultTier;
    TriggerContext(tier, l.name, Get(l.finalConfidence, 0.0), Get(l.totalCost, 0.0),
                   l.passes % (U32_MAX + 1), b.changeScope)
  }

  /** A layer with an open, approved or skipped gate gets no new one. */
  predicate BlocksNewGate(prior: Option<Gate>) {
    prior.Some? && (prior.value.status.Pending? || prior.value.status.Approved? || prior.value.status.Skipped?)
  }

  function NewGate(b: Boundary, layer: string, prior: Option<Gate>, trigger: string, counter: nat): Gate {
    var hours := match b.workflow.review case Some(r) => r.timeoutHours case None => 24;
    Gate(
      NewGateId(b.featureId, layer, b.now, counter),
      layer,
      Pending,
      trigger,
      TruncateToSeconds(b.now),
      Some(TruncateToSeconds(b.now + hours * HOUR_MS)),
      match b.workflow.review case Some(r) => r.onTimeout case None => TimeoutReject,
      match prior case Some(g) => g.attemptsLeft case None => EffectiveRetryOnReject(b.workflow, layer),
      None,
      None)
  }

  /* ---- When a gate fires ---- */

  predicate RequiresReview(w: Workflow, name: string) {
    name in w.overrides && w.overrides[name].requireReview == Some(true)
  }

  predicate HasOwnTrigger(w: Workflow, name: string) {
    name in w.overrides && w.overrides[name].trigger.Some?
  }

  /** The project's reviews are enabled and have a trigger. */
  predicate HasProjectTrigger(w: Workflow) {
    w.review.Some? && w.review.value.enabled && w.review.value.trigger.Some?
  }

  /** A layer that passed is to be reviewed: always, or because its own trigger holds, or because it has none and
      the project's holds. */
  predicate ReviewCalledFor(b: Boundary, l: LayerResult) {
    var w, ctx := b.workflow, ContextOf(b, l);
    || RequiresReview(w, l.name)
    || (HasOwnTrigger(w, l.name) && b.fires(w.overrides[l.name].trigger.value, ctx))
    || (!HasOwnTrigger(w, l.name) && HasProjectTrigger(w) && b.fires(w.review.value.trigger.value, ctx))
  }

  /** The trigger that the gate records. */
  function TriggerText(w: Workflow, name: string): string
    requires RequiresReview(w, name) || HasOwnTrigger(w, name) || HasProjectTrigger(w)
  {
    if RequiresReview(w, name) then "true"
    else if HasOwnTrigger(w, name) then w.overrides[name].trigger.value
    else w.review.value.trigger.value
  }

  /** Reviews wait as long as the workflow says, or a day. */
  function TimeoutHours(w: Workflow): nat {
    if w.review.Some? then w.review.value.timeoutHours else 24
  }

  /** A review that nobody answers is rejected unless the workflow says otherwise. */
  function TimeoutAction(w: Workflow): OnTimeout {
    if w.review.Some? then w.review.value.onTimeout else TimeoutReject
  }

  /** The gate is new: open, undecided, with its id, its deadline and what happens at it. */
  predicate IsNewGate(g: Gate, b: Boundary, name: string, counter: nat) {
    && g.layer == name && g.status == Pending && g.decision.None? && g.decidedAt.None?
    && g.id == NewGateId(b.featureId, name, b.now, counter)
    && BuiltAt(g, b.now, TimeoutHours(b.workflow)) && g.onTimeout == TimeoutAction(b.workflow)
  }

  /** The layer has passed, is to be reviewed, and its last gate, if any, was rejected. */
  predicate GetsGate(b: Boundary, layers: seq<LayerResult>, prior: Option<Gate>, name: string) {
    && (prior.Some? ==> prior.value.status == Rejected || prior.value.status == TimedOut)
    && var found := FindLayer(layers, name);
       found.Some? && layers[found.value].status == Passed && ReviewCalledFor(b, layers[found.value])
  }

  /** The gate that a layer of the cohort gets, if it gets one: exactly when it has passed, its last gate, if any, was
      rejected, and it is to be reviewed. */
  function GateFor(b: Boundary, layers: seq<LayerResult>, prior: Option<Gate>, name: string, counter: nat): (r: Option<Gate>)
    ensures r.Some? <==> GetsGate(b, layers, prior, name)
    ensures r.Some? ==>
              && IsNewGate(r.value, b, name, counter)
              && r.value.trigger == TriggerText(b.workflow, name)
    ensures r.Some? && prior.Some? ==> r.value.attemptsLeft == prior.value.attemptsLeft
    ensures r.Some? && prior.None? ==> r.value.attemptsLeft == EffectiveRetryOnReject(b.workflow, name)
  {
    match FindLayer(layers, name)
    case None => None
    case Some(i) =>
      if layers[i].status != Passed || BlocksNewGate(prior) then None
      else
        match ResolveGateTrigger(b.fires, b.workflow, name, ContextOf(b, layers[i]))
        case None => None
        case Some(trigger) => Some(NewGate(b, name, prior, trigger, counter))
  }

  /** The gates of the cohort's layers in order; the id counter moves with each gate. */
  function GatesFor(b: Boundary, layers: seq<LayerResult>, gates: seq<Gate>, cohort: seq<string>, counter: nat): seq<Gate> {
    if cohort == [] then []
    else
      match GateFor(b, layers, MostRecent(gates, cohort[0]), cohort[0], counter)
      case None => GatesFor(b, layers, gates, cohort[1..], counter)
      case Some(g) => [g] + GatesFor(b, layers, gates, cohort[1..], counter + 1)
  }

  function LayersOf(gates: seq<Gate>): seq<string> {
    seq(|gates|, i requires 0 <= i < |gates| => gates[i].layer)
  }

  /** The layers of the cohort that get a gate, in its order. */
  function LayersToReview(b: Boundary, layers: seq<LayerResult>, gates: seq<Gate>, cohort: seq<string>): seq<string> {
    if cohort == [] then []
    else
      (if GetsGate(b, layers, MostRecent(gates, cohort[0]), cohort[0]) then [cohort[0]] else [])
      + LayersToReview(b, layers, gates, cohort[1..])
  }

  /** The gate is new, due to its layer, and records the trigger that made it due. */
  predicate IsDue(b: Boundary, layers: seq<LayerResult>, gates: seq<Gate>, g: Gate, counter: nat) {
    && IsNewGate(g, b, g.layer, counter)
    && GetsGate(b, layers, MostRecent(gates, g.layer), g.layer)
    && g.trigger == TriggerText(b.workflow, g.layer)
  }

  lemma {:induction false} GateForIsDue(b: Boundary, layers: seq<LayerResult>, gates: seq<Gate>, name: string, counter: nat)
    ensures var r := GateFor(b, layers, MostRecent(gates, name), name, counter);
            r.Some? ==> r.value.layer == name && IsDue(b, layers, gates, r.value, counter)
  {
  }

  predicate AllDue(b: Boundary, layers: seq<LayerResult>, gates: seq<Gate>, fired: seq<Gate>, counter: nat) {
    forall k :: 0 <= k < |fired| ==> IsDue(b, layers, gates, fired[k], counter + k)
  }

  lemma {:induction false} AllDueOfCons(
      b: Boundary, layers: seq<LayerResult>, gates: seq<Gate>, g: Gate, rest: seq<Gate>, counter: nat)
    requires IsDue(b, layers, gates, g, counter) && AllDue(b, layers, gates, rest, counter + 1)
    ensures AllDue(b, layers, gates, [g] + rest, counter)
  {
    var all := [g] + rest;
    forall k | 0 <= k < |all| ensures IsDue(b, layers, gates, all[k], counter + k) {
      if k > 0 {
        assert all[k] == rest[k - 1];
        assert IsDue(b, layers, gates, rest[k - 1], counter + 1 + (k - 1));
      }
    }
  }

  /** One gate for each of these layers, its id made with the next counter. */
  lemma {:induction false} GatesFireInOrder(b: Boundary, layers: seq<LayerResult>, gates: seq<Gate>, cohort: seq<string>, counter: nat)
    ensures var fired := GatesFor(b, layers, gates, cohort, counter);
            LayersOf(fired) == LayersToReview(b, layers, gates, cohort) && AllDue(b, layers, gates, fired, counter)
  {
    if cohort != [] {
      var first := GateFor(b, layers, MostRecent(gates, cohort[0]), cohort[0], counter);
      var next := if first.Some? then counter + 1 else counter;
      var rest := GatesFor(b, layers, gates, cohort[1..], next);
      GateForIsDue(b, layers, gates, cohort[0], counter);
      GatesFireInOrder(b, layers, gates, cohort[1..], next);
      if first.Some? {
        LayersOfCons(first.value, rest);
        AllDueOfCons(b, layers, gates, first.value, rest, counter);
      }
    }
  }

  lemma {:induction false} LayersOfCons(g: Gate, rest: seq<Gate>)
    ensures LayersOf([g] + rest) == [g.layer] + LayersOf(rest)
  {
  }

  /* ---- The most-recent map ---- */

  /** The map holds, for every layer, what a backward scan of the gates finds. */
  ghost predicate CachesMostRecent(m: map<string, Gate>, gates: seq<Gate>) {
    forall l: string :: MostRecent(gates, l) == if l in m then Some(m[l]) else None
  }

  lemma {:induction false} MostRecentOfCons(g: Gate, gates: seq<Gate>, l: string)
    ensures MostRecent([g] + gates, l)
            == if MostRecent(gates, l).Some? then MostRecent(gates, l) else if g.layer == l then Some(g) else None
  {
    var all := [g] + gates;
    var r, s := LastIndex(all, l), LastIndex(gates, l);
    assert forall j :: 1 <= j < |all| ==> all[j] == gates[j - 1];
    if s.Some? {
      assert all[s.value + 1] == gates[s.value];
      assert forall j :: s.value + 1 < j < |all| ==> all[j].layer != l;
      assert r == Some(s.value + 1);
    } else {
      assert forall j :: 1 <= j < |all| ==> all[j].layer != l;
      assert all[0] == g;
    }
  }

  method BuildMostRecent(gates: seq<Gate>) returns (mostRecent: map<string, Gate>)
    ensures CachesMostRecent(mostRecent, gates)
  {
    mostRecent := map[];
    for i := |gates| downto 0
      invariant CachesMostRecent(mostRecent, gates[i..])
    {
      var g := gates[i];
      assert gates[i..] == [g] + gates[i + 1..];
      forall l: string ensures MostRecent(gates[i..], l)
          == if MostRecent(gates[i + 1..], l).Some? then MostRecent(gates[i + 1..], l)
             else if g.layer == l then Some(g) else None
      {
        MostRecentOfCons(g, gates[i + 1..], l);
      }
      if g.layer !in mostRecent {
        mostRecent := mostRecent[g.layer := g];
      }
    }
    assert gates[0..] == gates;
  }

  /** One layer of the cohort, its last gate looked up in the map. */
  method CheckLayer(b: Boundary, layers: seq<LayerResult>, ghost priorGates: seq<Gate>, mostRecent: map<string, Gate>,
                    name: string, counter: nat)
    returns (fired: Option<Gate>)
    requires CachesMostRecent(mostRecent, priorGates)
    ensures fired == GateFor(b, layers, MostRecent(priorGates, name), name, counter)
  {
    var prior := if name in mostRecent then Some(mostRecent[name]) else None;
    assert prior == MostRecent(priorGates, name);
    fired := GateFor(b, layers, prior, name, counter);
  }

  method CheckGatesForCohort(
    b: Boundary, layers: seq<LayerResult>, priorGates: seq<Gate>, cohort: seq<string>, firstCounter: nat
  ) returns (newGates: seq<Gate>, layersPendingReview: seq<string>, counter: nat)
    ensures newGates == GatesFor(b, layers, priorGates, cohort, firstCounter)
    ensures layersPendingReview == LayersOf(newGates) && counter == firstCounter + |newGates|
  {
    newGates, layersPendingReview, counter := [], [], firstCounter;
    ghost var all := GatesFor(b, layers, priorGates, cohort, firstCounter);
    var mostRecent := BuildMostRecent(priorGates);
    for k := 0 to |cohort|
      invariant counter == firstCounter + |newGates| && layersPendingReview == LayersOf(newGates)
      invariant newGates + GatesFor(b, layers, priorGates, cohort[k..], counter) == all
    {
      var name := cohort[k];
      GatesForStep(b, layers, priorGates, cohort, k, counter, newGates);
      var fired := CheckLayer(b, layers, priorGates, mostRecent, name, counter);
      if fired.Some? {
        LayersOfSnoc(newGates, fired.value);
        newGates := newGates + [fired.value];
        layersPendingReview := layersPendingReview + [name];
        counter := counter + 1;
      }
    }
    assert cohort[|cohort|..] == [];
  }

  lemma {:induction false} LayersOfSnoc(gates: seq<Gate>, g: Gate)
    ensures LayersOf(gates + [g]) == LayersOf(gates) + [g.layer]
  {
  }

  lemma {:induction false} GatesForStep(
    b: Boundary, layers: seq<LayerResult>, gates: seq<Gate>, cohort: seq<string>, k: nat, counter: nat, before: seq<Gate>)
    requires k < |cohort|
    ensures before + GatesFor(b, layers, gates, cohort[k..], counter)
            == match GateFor(b, layers, MostRecent(gates, cohort[k]), cohort[k], counter)
               case None => before + GatesFor(b, layers, gates, cohort[k + 1..], counter)
               case Some(g) => (before + [g]) + GatesFor(b, layers, gates, cohort[k + 1..], counter + 1)
  {
    assert cohort[k..][0] == cohort[k] && cohort[k..][1..] == cohort[k + 1..];
    var fired := GateFor(b, layers, MostRecent(gates, cohort[k]), cohort[k], counter);
    if fired.Some? {
      Regroup(before, fired.value, GatesFor(b, layers, gates, cohort[k + 1..], counter + 1));
    }
  }

  lemma {:induction false} Regroup(a: seq<Gate>, g: Gate, b: seq<Gate>)
    ensures a + ([g] + b) == (a + [g]) + b
  {
  }
}
