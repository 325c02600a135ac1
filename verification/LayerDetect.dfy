/** Detected layers: the edges that presets accumulate and the configuration made of them. */
module LayerDetect {
  import opened Common
  import opened LayerConfig
  import opened NameOrder

  /* ---- Candidates and presets ---- */

  datatype Level = Manifest | Directory | Framework | ConfigFile

  datatype Candidate = Candidate(paths: set<string>, detectedBy: set<Level>, dependsOn: set<string>)

  datatype Preset = NextJs | Remix | SvelteKit | FastApi | Rails | Express | RustCli

  /** What the project holds, as far as the presets ask. */
  datatype Signals = Signals(deps: set<string>, manifests: set<string>, hasPages: bool, hasApp: bool)

  type Candidates = map<string, Candidate>

  function EntryOf(m: Candidates, name: string): Candidate {
    if name in m then m[name] else Candidate({}, {}, {})
  }

  /** A scan that finds a layer adds paths and its level, never a dependency. */
  function Found(m: Candidates, name: string, paths: set<string>, level: Level): Candidates {
    var e := EntryOf(m, name);
    m[name := e.(paths := e.paths + paths, detectedBy := e.detectedBy + {level})]
  }

  /** A preset names a layer; its paths are taken only when the layer has none yet. */
  function Suggested(m: Candidates, name: string, paths: set<string>): Candidates {
    var e := EntryOf(m, name);
    m[name := e.(paths := if e.paths == {} then paths else e.paths, detectedBy := e.detectedBy + {Framework})]
  }

  function Depends(m: Candidates, name: string, dep: string): Candidates {
    var e := EntryOf(m, name);
    m[name := e.(dependsOn := e.dependsOn + {dep})]
  }

  function ApplyPreset(m: Candidates, p: Preset, deps: set<string>): Candidates {
    match p
    case NextJs =>
      var a := Suggested(m, "frontend", {"pages/**", "app/**", "src/client/**"});
      var b := Depends(Suggested(a, "api", {"pages/api/**", "app/api/**"}), "api", "backend");
      var d := Depends(b, "frontend", "api");
      if "prisma" in deps || "@prisma/client" in deps then Depends(d, "api", "database") else d
    case Express =>
      var a := Depends(Suggested(m, "api", {"src/server/routes/**", "routes/**"}), "api", "backend");
      Suggested(a, "backend", {"src/server/**", "src/**"})
    case FastApi =>
      var a := Depends(Suggested(m, "api", {"app/**", "src/**"}), "api", "backend");
      Suggested(a, "backend", {"app/**", "src/**"})
    case Rails =>
      var a := Suggested(m, "api", {"app/controllers/**", "config/routes.rb"});
      var b := Depends(Depends(a, "api", "backend"), "api", "database");
      Suggested(Suggested(b, "backend", {"app/**", "lib/**"}), "database", {"db/**", "app/models/**"})
    case SvelteKit =>
      var a := Depends(Suggested(m, "frontend", {"src/routes/**", "src/lib/**"}), "frontend", "api");
      Suggested(a, "api", {"src/routes/api/**"})
    case Remix =>
      var a := Depends(Suggested(m, "frontend", {"app/routes/**", "app/components/**"}), "frontend", "api");
      Suggested(a, "api", {"app/routes/**"})
    case RustCli => Suggested(m, "backend", {"src/**"})
  }

  function ApplyPresets(m: Candidates, presets: seq<Preset>, deps: set<string>): Candidates
    decreases |presets|
  {
    if presets == [] then m else ApplyPresets(ApplyPreset(m, presets[0], deps), presets[1..], deps)
  }

  /** The presets a project shows, in the order they are asked for. */
  function DetectPresets(s: Signals): seq<Preset> {
    var next := "next" in s.deps && (s.hasPages || s.hasApp);
    (if next then [NextJs] else [])
    + (if "@sveltejs/kit" in s.deps then [SvelteKit] else [])
    + (if "@remix-run/react" in s.deps then [Remix] else [])
    + (if "express" in s.deps && !next then [Express] else [])
    + (if "fastapi" in s.deps then [FastApi] else [])
    + (if "rails" in s.deps then [Rails] else [])
    + (if "Cargo.toml" in s.manifests && "clap" in s.deps then [RustCli] else [])
  }

  /** One finding of the manifest, directory or config-file scans. */
  datatype Finding = Finding(name: string, paths: set<string>, level: Level)

  function ApplyFindings(m: Candidates, findings: seq<Finding>): Candidates
    decreases |findings|
  {
    if findings == [] then m
    else ApplyFindings(Found(m, findings[0].name, findings[0].paths, findings[0].level), findings[1..])
  }

  /** Detection without an override file: scans, presets, then config files. */
  function Detect(early: seq<Finding>, s: Signals, late: seq<Finding>): Candidates {
    ApplyFindings(ApplyPresets(ApplyFindings(map[], early), DetectPresets(s), s.deps), late)
  }

  /** The map of candidates, which the scans and the presets change in place. */
  class LayerMap {
    var layers: Candidates

    constructor ()
      ensures layers == map[]
    {
      layers := map[];
    }

    method Scan(findings: seq<Finding>)
      modifies this
      ensures layers == ApplyFindings(old(layers), findings)
    {
      ghost var goal := ApplyFindings(layers, findings);
      for i := 0 to |findings|
        invariant ApplyFindings(layers, findings[i..]) == goal
      {
        assert findings[i..][0] == findings[i] && findings[i..][1..] == findings[i + 1..];
        layers := Found(layers, findings[i].name, findings[i].paths, findings[i].level);
      }
    }

    method ApplyFrameworkPresets(s: Signals)
      modifies this
      ensures layers == ApplyPresets(old(layers), DetectPresets(s), s.deps)
    {
      var presets := DetectPresets(s);
      ghost var goal := ApplyPresets(layers, presets, s.deps);
      for i := 0 to |presets|
        invariant ApplyPresets(layers, presets[i..], s.deps) == goal
      {
        assert presets[i..][0] == presets[i] && presets[i..][1..] == presets[i + 1..];
        layers := ApplyPreset(layers, presets[i], s.deps);
      }
    }
  }

  /* ---- The edges that can come about ---- */

  /** The only dependencies any preset adds. */
  predicate PresetEdge(name: string, dep: string) {
    (name == "api" && (dep == "backend" || dep == "database")) || (name == "frontend" && dep == "api")
  }

  ghost predicate OnlyPresetEdges(m: Candidates) {
    forall n, d :: n in m && d in m[n].dependsOn ==> PresetEdge(n, d)
  }

  lemma {:induction false} PresetKeepsEdges(m: Candidates, p: Preset, deps: set<string>)
    requires OnlyPresetEdges(m)
    ensures OnlyPresetEdges(ApplyPreset(m, p, deps))
  {
  }

  lemma {:induction false} PresetsKeepEdges(m: Candidates, presets: seq<Preset>, deps: set<string>)
    requires OnlyPresetEdges(m)
    ensures OnlyPresetEdges(ApplyPresets(m, presets, deps))
    decreases |presets|
  {
    if presets != [] {
      PresetKeepsEdges(m, presets[0], deps);
      PresetsKeepEdges(ApplyPreset(m, presets[0], deps), presets[1..], deps);
    }
  }

  lemma {:induction false} FindingsKeepEdges(m: Candidates, findings: seq<Finding>)
    requires OnlyPresetEdges(m)
    ensures OnlyPresetEdges(ApplyFindings(m, findings))
    decreases |findings|
  {
    if findings != [] {
      FindingsKeepEdges(Found(m, findings[0].name, findings[0].paths, findings[0].level), findings[1..]);
    }
  }

  lemma {:induction false} DetectedEdges(early: seq<Finding>, s: Signals, late: seq<Finding>)
    ensures OnlyPresetEdges(Detect(early, s, late))
  {
    FindingsKeepEdges(map[], early);
    PresetsKeepEdges(ApplyFindings(map[], early), DetectPresets(s), s.deps);
    FindingsKeepEdges(ApplyPresets(ApplyFindings(map[], early), DetectPresets(s), s.deps), late);
  }

  /* ---- What detection finds, exactly ---- */

  /** The preset brings this layer in. */
  predicate BringsLayer(p: Preset, name: string) {
    || (name == "api" && p != RustCli)
    || (name == "frontend" && (p == NextJs || p == SvelteKit || p == Remix))
    || (name == "backend" && (p == Express || p == FastApi || p == Rails || p == RustCli))
    || (name == "database" && p == Rails)
  }

  /** The preset makes layer `name` depend on `dep`; Prisma is a database, too. */
  predicate BringsEdge(p: Preset, deps: set<string>, name: string, dep: string) {
    || (name == "frontend" && dep == "api" && (p == NextJs || p == SvelteKit || p == Remix))
    || (name == "api" && dep == "backend" && (p == NextJs || p == Express || p == FastApi || p == Rails))
    || (name == "api" && dep == "database" && (p == Rails || (p == NextJs && ("prisma" in deps || "@prisma/client" in deps))))
  }

  /** What the signals show of the preset: Express stands back when Next.js is there. */
  predicate Shown(s: Signals, p: Preset) {
    match p
    case NextJs => "next" in s.deps && (s.hasPages || s.hasApp)
    case Remix => "@remix-run/react" in s.deps
    case SvelteKit => "@sveltejs/kit" in s.deps
    case FastApi => "fastapi" in s.deps
    case Rails => "rails" in s.deps
    case Express => "express" in s.deps && ("next" !in s.deps || (!s.hasPages && !s.hasApp))
    case RustCli => "clap" in s.deps && "Cargo.toml" in s.manifests
  }

  lemma {:induction false} NamesDiffer()
    ensures "api" != "backend" && "api" != "frontend" && "api" != "database"
    ensures "backend" != "frontend" && "backend" != "database" && "frontend" != "database"
  {
    assert "frontend"[0] == 'f' && "database"[0] == 'd';
  }

  /** An entry before and after: it keeps its paths, unless it had none and is brought in, and may gain dependencies. */
  predicate EntryGrows(before: Candidate, after: Candidate, brought: bool) {
    && before.dependsOn <= after.dependsOn
    && after.detectedBy == before.detectedBy + (if brought then {Framework} else {})
    && (before.paths != {} || !brought ==> after.paths == before.paths)
    && (before.paths == {} && brought ==> after.paths != {})
  }

  lemma {:induction false} PresetBringsLayers(m: Candidates, p: Preset, deps: set<string>, name: string)
    ensures name in ApplyPreset(m, p, deps) <==> name in m || BringsLayer(p, name)
  {
    NamesDiffer();
  }

  lemma {:induction false} NextJsGrows(m: Candidates, p: Preset, deps: set<string>, name: string)
    requires p == NextJs
    ensures EntryGrows(EntryOf(m, name), EntryOf(ApplyPreset(m, p, deps), name), BringsLayer(p, name))
  {
    NamesDiffer();
  }

  lemma {:induction false} RailsGrows(m: Candidates, p: Preset, deps: set<string>, name: string)
    requires p == Rails
    ensures EntryGrows(EntryOf(m, name), EntryOf(ApplyPreset(m, p, deps), name), BringsLayer(p, name))
  {
    NamesDiffer();
  }

  lemma {:induction false} SmallerGrows(m: Candidates, p: Preset, deps: set<string>, name: string)
    requires p != NextJs && p != Rails
    ensures EntryGrows(EntryOf(m, name), EntryOf(ApplyPreset(m, p, deps), name), BringsLayer(p, name))
  {
    NamesDiffer();
  }

  lemma {:induction false} NextJsEdges(m: Candidates, p: Preset, deps: set<string>, name: string, dep: string)
    requires p == NextJs
    ensures dep in EntryOf(ApplyPreset(m, p, deps), name).dependsOn <==>
              dep in EntryOf(m, name).dependsOn || BringsEdge(p, deps, name, dep)
  {
    NamesDiffer();
  }

  lemma {:induction false} RailsEdges(m: Candidates, p: Preset, deps: set<string>, name: string, dep: string)
    requires p == Rails
    ensures dep in EntryOf(ApplyPreset(m, p, deps), name).dependsOn <==>
              dep in EntryOf(m, name).dependsOn || BringsEdge(p, deps, name, dep)
  {
    NamesDiffer();
  }

  lemma {:induction false} SmallerEdges(m: Candidates, p: Preset, deps: set<string>, name: string, dep: string)
    requires p != NextJs && p != Rails
    ensures dep in EntryOf(ApplyPreset(m, p, deps), name).dependsOn <==>
              dep in EntryOf(m, name).dependsOn || BringsEdge(p, deps, name, dep)
  {
    NamesDiffer();
  }

  lemma {:induction false} PresetGrowsEntries(m: Candidates, p: Preset, deps: set<string>, name: string)
    ensures EntryGrows(EntryOf(m, name), EntryOf(ApplyPreset(m, p, deps), name), BringsLayer(p, name))
  {
    match p
    case NextJs => NextJsGrows(m, p, deps, name);
    case Rails => RailsGrows(m, p, deps, name);
    case _ => SmallerGrows(m, p, deps, name);
  }

  lemma {:induction false} PresetBringsEdges(m: Candidates, p: Preset, deps: set<string>, name: string, dep: string)
    ensures dep in EntryOf(ApplyPreset(m, p, deps), name).dependsOn <==>
              dep in EntryOf(m, name).dependsOn || BringsEdge(p, deps, name, dep)
  {
    match p
    case NextJs => NextJsEdges(m, p, deps, name, dep);
    case Rails => RailsEdges(m, p, deps, name, dep);
    case _ => SmallerEdges(m, p, deps, name, dep);
  }

  lemma {:induction false} PresetAddsExactly(m: Candidates, p: Preset, deps: set<string>, name: string)
    ensures var after := ApplyPreset(m, p, deps);
            && (name in after <==> name in m || BringsLayer(p, name))
            && EntryGrows(EntryOf(m, name), EntryOf(after, name), BringsLayer(p, name))
            && forall d :: d in EntryOf(after, name).dependsOn <==> d in EntryOf(m, name).dependsOn || BringsEdge(p, deps, name, d)
  {
    PresetBringsLayers(m, p, deps, name);
    PresetGrowsEntries(m, p, deps, name);
    forall d ensures d in EntryOf(ApplyPreset(m, p, deps), name).dependsOn <==>
                     d in EntryOf(m, name).dependsOn || BringsEdge(p, deps, name, d)
    {
      PresetBringsEdges(m, p, deps, name, d);
    }
  }

  lemma {:induction false} PresetsAddExactly(m: Candidates, presets: seq<Preset>, deps: set<string>, name: string)
    ensures var after := ApplyPresets(m, presets, deps);
            && (name in after <==> name in m || exists p :: p in presets && BringsLayer(p, name))
            && (EntryOf(m, name).paths != {} ==> EntryOf(after, name).paths == EntryOf(m, name).paths)
            && forall d :: d in EntryOf(after, name).dependsOn <==>
                 d in EntryOf(m, name).dependsOn || exists p :: p in presets && BringsEdge(p, deps, name, d)
    decreases |presets|
  {
    if presets != [] {
      PresetAddsExactly(m, presets[0], deps, name);
      PresetsAddExactly(ApplyPreset(m, presets[0], deps), presets[1..], deps, name);
      assert forall p :: p in presets <==> p == presets[0] || p in presets[1..];
    }
  }

  lemma {:induction false} FindingsAddExactly(m: Candidates, findings: seq<Finding>, name: string)
    ensures var after := ApplyFindings(m, findings);
            && (name in after <==> name in m || exists f :: f in findings && f.name == name)
            && EntryOf(after, name).dependsOn == EntryOf(m, name).dependsOn
            && (forall l :: l in EntryOf(after, name).detectedBy <==>
                  l in EntryOf(m, name).detectedBy || exists f :: f in findings && f.name == name && f.level == l)
            && forall x :: x in EntryOf(after, name).paths <==>
                 x in EntryOf(m, name).paths || exists f :: f in findings && f.name == name && x in f.paths
    decreases |findings|
  {
    if findings != [] {
      FindingsAddExactly(Found(m, findings[0].name, findings[0].paths, findings[0].level), findings[1..], name);
      assert forall f :: f in findings <==> f == findings[0] || f in findings[1..];
    }
  }

  lemma {:induction false} PresetsShownExactly(s: Signals, p: Preset)
    ensures p in DetectPresets(s) <==> Shown(s, p)
  {
  }

  /** Detected are exactly the layers that a scan finds or a shown preset brings in, with exactly the dependencies
      that the shown presets name. */
  lemma {:induction false} DetectsExactly(early: seq<Finding>, s: Signals, late: seq<Finding>, name: string)
    ensures var found := Detect(early, s, late);
            && (name in found <==>
                  || (exists f :: f in early && f.name == name) || (exists f :: f in late && f.name == name)
                  || exists p :: Shown(s, p) && BringsLayer(p, name))
            && forall d :: d in EntryOf(found, name).dependsOn <==> exists p :: Shown(s, p) && BringsEdge(p, s.deps, name, d)
  {
    var scanned := ApplyFindings(map[], early);
    var framed := ApplyPresets(scanned, DetectPresets(s), s.deps);
    FindingsAddExactly(map[], early, name);
    PresetsAddExactly(scanned, DetectPresets(s), s.deps, name);
    FindingsAddExactly(framed, late, name);
    forall p ensures p in DetectPresets(s) <==> Shown(s, p) {
      PresetsShownExactly(s, p);
    }
  }
}
