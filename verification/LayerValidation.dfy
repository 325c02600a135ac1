/** Validation of a layer configuration. */
module LayerValidation {
  import opened Common
  import opened LayerConfig
  import LayerCycles

  datatype LayerError =
    | EmptyOrder
    | DuplicateLayer(name: string)
    | UndefinedDependency(dep: string, user: string)
    | CyclicDependency(path: seq<string>)

  ghost predicate DepsDefined(c: Config) {
    forall n, d :: n in c.defs && d in c.defs[n].dependsOn ==> d in c.defs
  }

  ghost predicate Valid(c: Config) {
    c.order != [] && Distinct(c.order) && DepsDefined(c) && forall p :: !IsCycle(c, p)
  }

  /** What an error says of the configuration. */
  ghost predicate Explains(c: Config, e: LayerError) {
    match e
    case EmptyOrder => c.order == []
    case DuplicateLayer(n) => exists i, j :: 0 <= i < j < |c.order| && c.order[i] == n == c.order[j]
    case UndefinedDependency(d, n) => n in c.defs && d in c.defs[n].dependsOn && d !in c.defs
    case CyclicDependency(p) => IsCycle(c, p) && Distinct(p[1..])
  }

  method CheckOrder(c: Config) returns (r: Option<LayerError>)
    ensures r.Some? ==> Explains(c, r.value)
    ensures r.None? ==> Distinct(c.order)
  {
    var seen: set<string> := {};
    for k := 0 to |c.order|
      invariant forall n :: n in seen <==> n in c.order[..k]
      invariant Distinct(c.order[..k])
    {
      if c.order[k] in seen {
        ghost var i :| 0 <= i < k && c.order[..k][i] == c.order[k];
        assert c.order[i] == c.order[k];
        return Some(DuplicateLayer(c.order[k]));
      }
      assert c.order[..k + 1] == c.order[..k] + [c.order[k]];
      seen := seen + {c.order[k]};
    }
    assert c.order[..|c.order|] == c.order;
    r := None;
  }

  method CheckDeps(c: Config) returns (r: Option<LayerError>)
    requires WellFormed(c)
    ensures r.Some? ==> Explains(c, r.value)
    ensures r.None? ==> DepsDefined(c)
  {
    for k := 0 to |c.names|
      invariant forall i, d :: 0 <= i < k && d in DepsOf(c, c.names[i]) ==> d in c.defs
    {
      var deps := DepsOf(c, c.names[k]);
      for j := 0 to |deps|
        invariant forall i :: 0 <= i < j ==> deps[i] in c.defs
      {
        if deps[j] !in c.defs {
          return Some(UndefinedDependency(deps[j], c.names[k]));
        }
      }
    }
    r := None;
  }

  /** Validation accepts exactly the configurations whose order is there and without repetition, whose
      dependencies are defined, and whose graph has no cycle; and it rejects with a reason that holds. */
  method Validate(c: Config) returns (r: Result<(), LayerError>)
    requires WellFormed(c)
    ensures r.Ok? <==> Valid(c)
    ensures r.Err? ==> Explains(c, r.error)
  {
    if c.order == [] {
      return Err(EmptyOrder);
    }
    var bad := CheckOrder(c);
    if bad.Some? {
      return Err(bad.value);
    }
    bad := CheckDeps(c);
    if bad.Some? {
      return Err(bad.value);
    }
    var cycle, _ := LayerCycles.DetectCycle(c);
    if cycle.Err? {
      return Err(CyclicDependency(cycle.error));
    }
    r := Ok(());
  }
}
