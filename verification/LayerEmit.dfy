/** The configuration made of detected layers: an order that puts dependencies first. */
module LayerEmit {
  import opened Common
  import opened LayerConfig
  import opened NameOrder
  import LayerDetect
  import LayerValidation

  datatype DetectedLayer = DetectedLayer(name: string, paths: seq<string>, alwaysRun: bool, dependsOn: seq<string>)

  const CANONICAL: seq<string> :=
    ["backend", "database", "api", "frontend", "infrastructure", "deployment", "observability"]

  function Names(layers: seq<DetectedLayer>): seq<string> {
    seq(|layers|, i requires 0 <= i < |layers| => layers[i].name)
  }

  function FindLayer(layers: seq<DetectedLayer>, name: string): (r: Option<DetectedLayer>)
    ensures r.Some? ==> r.value in layers && r.value.name == name
    ensures r.None? ==> forall l :: l in layers ==> l.name != name
  {
    if layers == [] then None
    else if layers[0].name == name then Some(layers[0])
    else FindLayer(layers[1..], name)
  }

  /** The layers with a canonical name, in canonical order. */
  function CanonicalLayers(layers: seq<DetectedLayer>, canonical: seq<string>): seq<DetectedLayer> {
    if canonical == [] then []
    else
      var rest := CanonicalLayers(layers, canonical[1..]);
      match FindLayer(layers, canonical[0])
      case Some(l) => [l] + rest
      case None => rest
  }

  function Extras(layers: seq<DetectedLayer>): seq<DetectedLayer> {
    if layers == [] then []
    else if layers[0].name in CANONICAL then Extras(layers[1..])
    else [layers[0]] + Extras(layers[1..])
  }

  function NameOf(l: DetectedLayer): string {
    l.name
  }

  function SortLayers(layers: seq<DetectedLayer>): seq<DetectedLayer> {
    SortBy(layers, NameOf)
  }

  /** The layers in the order they are emitted. */
  function Listed(layers: seq<DetectedLayer>): seq<DetectedLayer> {
    CanonicalLayers(layers, CANONICAL) + SortLayers(Extras(layers))
  }

  function KeptDeps(deps: seq<string>, names: seq<string>): (r: seq<string>)
    ensures forall d :: d in r <==> d in deps && d in names
  {
    if deps == [] then []
    else if deps[0] in names then [deps[0]] + KeptDeps(deps[1..], names)
    else KeptDeps(deps[1..], names)
  }

  function LayerToDef(l: DetectedLayer, names: seq<string>): LayerDef {
    LayerDef(l.paths, l.alwaysRun, KeptDeps(l.dependsOn, names))
  }

  /** The definitions of the listed layers; a later layer of the same name replaces an earlier one. */
  function DefsOf(listed: seq<DetectedLayer>, names: seq<string>): map<string, LayerDef> {
    if listed == [] then map[]
    else
      var l := listed[|listed| - 1];
      DefsOf(listed[..|listed| - 1], names)[l.name := LayerToDef(l, names)]
  }

  method ToLayersConfig(layers: seq<DetectedLayer>) returns (order: seq<string>, defs: map<string, LayerDef>)
    ensures order == Names(Listed(layers)) && defs == DefsOf(Listed(layers), Names(layers))
  {
    var allNames := Names(layers);
    order, defs := EmitCanonical(layers, CANONICAL, allNames);
    ghost var canonical := CanonicalLayers(layers, CANONICAL);
    var extras := SortLayers(Extras(layers));
    assert canonical + extras[..0] == canonical;
    for i := 0 to |extras|
      invariant order == Names(canonical + extras[..i]) && defs == DefsOf(canonical + extras[..i], allNames)
    {
      assert canonical + extras[..i + 1] == (canonical + extras[..i]) + [extras[i]];
      ListSnoc(canonical + extras[..i], extras[i], allNames);
      order := order + [extras[i].name];
      defs := defs[extras[i].name := LayerToDef(extras[i], allNames)];
    }
    assert extras[..|extras|] == extras;
  }

  /** The first pass: the layers with a canonical name. */
  method EmitCanonical(layers: seq<DetectedLayer>, canonical: seq<string>, allNames: seq<string>)
    returns (order: seq<string>, defs: map<string, LayerDef>)
    ensures order == Names(CanonicalLayers(layers, canonical)) && defs == DefsOf(CanonicalLayers(layers, canonical), allNames)
  {
    order, defs := [], map[];
    ghost var listed: seq<DetectedLayer> := [];
    ghost var all := CanonicalLayers(layers, canonical);
    for i := 0 to |canonical|
      invariant listed + CanonicalLayers(layers, canonical[i..]) == all
      invariant order == Names(listed) && defs == DefsOf(listed, allNames)
    {
      CanonicalStep(layers, canonical, i, listed);
      var found := FindLayer(layers, canonical[i]);
      if found.Some? {
        ListSnoc(listed, found.value, allNames);
        order := order + [found.value.name];
        defs := defs[found.value.name := LayerToDef(found.value, allNames)];
        listed := listed + [found.value];
      }
    }
    assert canonical[|canonical|..] == [] && listed + [] == listed;
  }

  lemma {:induction false} CanonicalStep(layers: seq<DetectedLayer>, canonical: seq<string>, i: nat, before: seq<DetectedLayer>)
    requires i < |canonical|
    ensures before + CanonicalLayers(layers, canonical[i..])
            == match FindLayer(layers, canonical[i])
               case Some(l) => (before + [l]) + CanonicalLayers(layers, canonical[i + 1..])
               case None => before + CanonicalLayers(layers, canonical[i + 1..])
  {
    assert canonical[i..][0] == canonical[i] && canonical[i..][1..] == canonical[i + 1..];
    var rest := CanonicalLayers(layers, canonical[i + 1..]);
    if FindLayer(layers, canonical[i]).Some? {
      var l := FindLayer(layers, canonical[i]).value;
      assert before + ([l] + rest) == (before + [l]) + rest;
    }
  }

  lemma {:induction false} ListSnoc(listed: seq<DetectedLayer>, l: DetectedLayer, names: seq<string>)
    ensures Names(listed + [l]) == Names(listed) + [l.name]
    ensures DefsOf(listed + [l], names) == DefsOf(listed, names)[l.name := LayerToDef(l, names)]
  {
    assert (listed + [l])[..|listed + [l]| - 1] == listed;
  }

  /* ---- What is listed ---- */

  /** No two layers have one name. */
  predicate OnceEach(layers: seq<DetectedLayer>) {
    OncePerName(layers, NameOf)
  }

  lemma {:induction false} CanonicalMembers(layers: seq<DetectedLayer>, canonical: seq<string>)
    requires OnceEach(layers)
    ensures forall l :: l in CanonicalLayers(layers, canonical) <==> l in layers && l.name in canonical
  {
    if canonical != [] {
      CanonicalMembers(layers, canonical[1..]);
      var found := FindLayer(layers, canonical[0]);
      forall l ensures l in CanonicalLayers(layers, canonical) <==> l in layers && l.name in canonical {
        if l in layers && l.name == canonical[0] {
          OneOfName(layers, l, found.value, NameOf);
        }
      }
    }
  }

  lemma {:induction false} CanonicalOnce(layers: seq<DetectedLayer>, canonical: seq<string>)
    requires OnceEach(layers) && Distinct(canonical)
    ensures OnceEach(CanonicalLayers(layers, canonical))
  {
    if canonical != [] {
      CanonicalOnce(layers, canonical[1..]);
      CanonicalMembers(layers, canonical[1..]);
      assert canonical[0] !in canonical[1..];
      var rest := CanonicalLayers(layers, canonical[1..]);
      assert forall k :: 0 <= k < |rest| ==> rest[k] in rest && rest[k].name in canonical[1..];
    }
  }

  lemma {:induction false} ExtrasMembers(layers: seq<DetectedLayer>)
    ensures forall l :: l in Extras(layers) <==> l in layers && l.name !in CANONICAL
    ensures OnceEach(layers) ==> OnceEach(Extras(layers))
  {
    if layers != [] {
      ExtrasMembers(layers[1..]);
      var rest := Extras(layers[1..]);
      assert forall k :: 0 <= k < |rest| ==> rest[k] in rest && rest[k] in layers[1..];
      assert OnceEach(layers) ==> forall l :: l in layers[1..] ==> l.name != layers[0].name;
    }
  }

  lemma {:induction false} SortOnce(layers: seq<DetectedLayer>)
    requires OnceEach(layers)
    ensures OnceEach(SortLayers(layers)) && forall l :: l in SortLayers(layers) <==> l in layers
  {
    SortKeeps(layers, NameOf);
    var sorted := SortLayers(layers);
    forall i, j | 0 <= i < j < |sorted| ensures NameOf(sorted[i]) != NameOf(sorted[j]) {
      if NameOf(sorted[i]) == NameOf(sorted[j]) {
        OneOfName(layers, sorted[i], sorted[j], NameOf);
      }
    }
  }

  /** Every detected layer is listed, once. */
  lemma {:induction false} ListedOnce(layers: seq<DetectedLayer>)
    requires OnceEach(layers)
    ensures OnceEach(Listed(layers)) && forall l :: l in Listed(layers) <==> l in layers
  {
    CanonicalMembers(layers, CANONICAL);
    CanonicalOnce(layers, CANONICAL);
    ExtrasMembers(layers);
    SortOnce(Extras(layers));
    var a, b := CanonicalLayers(layers, CANONICAL), SortLayers(Extras(layers));
    assert forall i, j :: 0 <= i < |a| && 0 <= j < |b| ==> a[i] in a && b[j] in b && a[i].name != b[j].name;
  }

  /* ---- The emitted configuration ---- */

  /** A configuration with the emitted order and definitions; the keys of the map are ascending. */
  function Emitted(layers: seq<DetectedLayer>): Config {
    Config(Names(Listed(layers)), Sort(Names(Listed(layers))), DefsOf(Listed(layers), Names(layers)))
  }

  lemma {:induction false} DefsAre(listed: seq<DetectedLayer>, names: seq<string>)
    requires OnceEach(listed)
    ensures forall n :: n in DefsOf(listed, names) <==> exists l :: l in listed && l.name == n
    ensures forall l :: l in listed ==> DefsOf(listed, names)[l.name] == LayerToDef(l, names)
  {
    if listed != [] {
      var last, init := listed[|listed| - 1], listed[..|listed| - 1];
      DefsAre(init, names);
      assert listed == init + [last];
      forall n ensures n in DefsOf(listed, names) <==> exists l :: l in listed && l.name == n {
        if n == last.name {
          assert last in listed;
        }
      }
    }
  }

  lemma {:induction false} InNames(layers: seq<DetectedLayer>, n: string)
    ensures n in Names(layers) <==> exists l :: l in layers && l.name == n
  {
    if n in Names(layers) {
      var i :| 0 <= i < |layers| && Names(layers)[i] == n;
      assert layers[i] in layers;
    }
    if l :| l in layers && l.name == n {
      var i :| 0 <= i < |layers| && layers[i] == l;
      assert Names(layers)[i] == n;
    }
  }

  /** The layers only depend on each other as the presets say, and each has one entry. */
  ghost predicate FromPresets(layers: seq<DetectedLayer>) {
    OnceEach(layers) && forall l, d :: l in layers && d in l.dependsOn ==> LayerDetect.PresetEdge(l.name, d)
  }

  /** Where a canonical name comes in the emitted order. */
  lemma {:induction false} CanonicalBefore(layers: seq<DetectedLayer>, canonical: seq<string>, i: nat, j: nat, a: DetectedLayer, b: DetectedLayer)
    requires OnceEach(layers) && Distinct(canonical) && i < j < |canonical|
    requires a in layers && b in layers && a.name == canonical[i] && b.name == canonical[j]
    ensures exists x, y :: 0 <= x < y < |CanonicalLayers(layers, canonical)|
              && CanonicalLayers(layers, canonical)[x] == a && CanonicalLayers(layers, canonical)[y] == b
  {
    var rest := CanonicalLayers(layers, canonical[1..]);
    var found := FindLayer(layers, canonical[0]);
    var off := if found.Some? then 1 else 0;
    if i == 0 {
      OneOfName(layers, a, found.value, NameOf);
      CanonicalMembers(layers, canonical[1..]);
      assert canonical[1..][j - 1] == b.name;
      assert b in rest;
      var y :| 0 <= y < |rest| && rest[y] == b;
      assert CanonicalLayers(layers, canonical)[0] == a && CanonicalLayers(layers, canonical)[y + 1] == b;
    } else {
      CanonicalBefore(layers, canonical[1..], i - 1, j - 1, a, b);
      var x, y :| 0 <= x < y < |rest| && rest[x] == a && rest[y] == b;
      assert CanonicalLayers(layers, canonical)[x + off] == a && CanonicalLayers(layers, canonical)[y + off] == b;
    }
  }

  /** Every kept dependency is in the order, strictly before the layer that has it. */
  lemma {:induction false} DependenciesComeFirst(layers: seq<DetectedLayer>, l: DetectedLayer, d: string)
    requires FromPresets(layers) && l in layers && d in KeptDeps(l.dependsOn, Names(layers))
    ensures exists x, y :: 0 <= x < y < |Names(Listed(layers))|
              && Names(Listed(layers))[x] == d && Names(Listed(layers))[y] == l.name
  {
    InNames(layers, d);
    var dep :| dep in layers && dep.name == d;
    assert LayerDetect.PresetEdge(l.name, d);
    var i, j := CanonicalIndex(d), CanonicalIndex(l.name);
    CanonicalBefore(layers, CANONICAL, i, j, dep, l);
    var x, y :| 0 <= x < y < |CanonicalLayers(layers, CANONICAL)|
      && CanonicalLayers(layers, CANONICAL)[x] == dep && CanonicalLayers(layers, CANONICAL)[y] == l;
    assert Names(Listed(layers))[x] == d && Names(Listed(layers))[y] == l.name;
  }

  function CanonicalIndex(n: string): (i: nat)
    requires n == "backend" || n == "database" || n == "api" || n == "frontend"
    ensures i < |CANONICAL| && CANONICAL[i] == n
  {
    if n == "backend" then 0 else if n == "database" then 1 else if n == "api" then 2 else 3
  }

  lemma {:induction false} NamesOnce(layers: seq<DetectedLayer>)
    requires OnceEach(layers)
    ensures Distinct(Names(layers))
  {
  }

  /** What detection emits always passes validation, as soon as there is a layer at all. */
  lemma {:induction false} EmittedIsValid(layers: seq<DetectedLayer>)
    requires FromPresets(layers) && layers != []
    ensures LayerValidation.Valid(Emitted(layers))
  {
    var c := Emitted(layers);
    ListedOnce(layers);
    NamesOnce(Listed(layers));
    DefsAre(Listed(layers), Names(layers));
    assert layers[0] in Listed(layers);
    forall n, d | n in c.defs && d in c.defs[n].dependsOn ensures d in c.defs {
      var l :| l in Listed(layers) && l.name == n;
      InNames(layers, d);
    }
    EmittedFinished(layers);
    forall p ensures !IsCycle(c, p) {
      FinishedMeansAcyclic(c, c.order, p);
    }
  }

  lemma {:induction false} EmittedFinished(layers: seq<DetectedLayer>)
    requires FromPresets(layers)
    ensures Finished(Emitted(layers), Emitted(layers).order) && AllListed(Emitted(layers), Emitted(layers).order)
  {
    var c := Emitted(layers);
    ListedOnce(layers);
    NamesOnce(Listed(layers));
    DefsAre(Listed(layers), Names(layers));
    forall i, d | 0 <= i < |c.order| && Edge(c, c.order[i], d) ensures d in c.order[..i] {
      var l := Listed(layers)[i];
      assert l in Listed(layers);
      DependenciesComeFirst(layers, l, d);
      var x, y :| 0 <= x < y < |c.order| && c.order[x] == d && c.order[y] == l.name;
      assert y == i;
      assert c.order[..i][x] == d;
    }
    forall n | n in c.defs ensures n in c.order {
      InNames(Listed(layers), n);
    }
  }

  /** The layers of a map of candidates, in any order. */
  ghost predicate Lists(m: LayerDetect.Candidates, layers: seq<DetectedLayer>) {
    && OnceEach(layers) && (forall n :: n in m <==> exists l :: l in layers && l.name == n)
    && forall l :: l in layers ==> l.name in m && forall d :: d in l.dependsOn <==> d in m[l.name].dependsOn
  }

  /** Whatever the scans find, the configuration emitted for it has every layer once, dependencies before
      their dependents, and passes validation. */
  lemma {:induction false} DetectionIsValid(
    early: seq<LayerDetect.Finding>, s: LayerDetect.Signals, late: seq<LayerDetect.Finding>, layers: seq<DetectedLayer>)
    requires Lists(LayerDetect.Detect(early, s, late), layers) && layers != []
    ensures FromPresets(layers) && LayerValidation.Valid(Emitted(layers))
  {
    LayerDetect.DetectedEdges(early, s, late);
    EmittedIsValid(layers);
  }

  /** The same layers in another order give the same configuration. */
  lemma {:induction false} OrderOfDetectionIrrelevant(a: seq<DetectedLayer>, b: seq<DetectedLayer>)
    requires OnceEach(a) && OnceEach(b) && forall l :: l in a <==> l in b
    ensures Names(Listed(a)) == Names(Listed(b)) && DefsOf(Listed(a), Names(a)) == DefsOf(Listed(b), Names(b))
  {
    SameCanonical(a, b, CANONICAL);
    ExtrasMembers(a);
    ExtrasMembers(b);
    SortOnce(Extras(a));
    SortOnce(Extras(b));
    SortOrdered(Extras(a), NameOf);
    SortOrdered(Extras(b), NameOf);
    OrderedUnique(SortLayers(Extras(a)), SortLayers(Extras(b)), NameOf);
    forall n ensures n in Names(a) <==> n in Names(b) {
      InNames(a, n);
      InNames(b, n);
    }
    SameDefs(Listed(a), Names(a), Names(b));
  }

  lemma {:induction false} SameCanonical(a: seq<DetectedLayer>, b: seq<DetectedLayer>, canonical: seq<string>)
    requires OnceEach(a) && OnceEach(b) && forall l :: l in a <==> l in b
    ensures CanonicalLayers(a, canonical) == CanonicalLayers(b, canonical)
  {
    if canonical != [] {
      SameCanonical(a, b, canonical[1..]);
      var x, y := FindLayer(a, canonical[0]), FindLayer(b, canonical[0]);
      if x.Some? && y.Some? {
        OneOfName(a, x.value, y.value, NameOf);
      }
    }
  }

  lemma {:induction false} SameKept(deps: seq<string>, a: seq<string>, b: seq<string>)
    requires forall n :: n in a <==> n in b
    ensures KeptDeps(deps, a) == KeptDeps(deps, b)
  {
    if deps != [] {
      SameKept(deps[1..], a, b);
    }
  }

  lemma {:induction false} SameDefs(listed: seq<DetectedLayer>, a: seq<string>, b: seq<string>)
    requires forall n :: n in a <==> n in b
    ensures DefsOf(listed, a) == DefsOf(listed, b)
  {
    if listed != [] {
      SameDefs(listed[..|listed| - 1], a, b);
      SameKept(listed[|listed| - 1].dependsOn, a, b);
    }
  }
}
