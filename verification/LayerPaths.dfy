/** What a rule about direct imports says about import paths of any length. */
module LayerPaths {
  import opened Basics
  import opened Texts
  import opened Layers

  /** The layer of a project module, "" for anything else. */
  function Layer(s: SourceModel, name: string): string {
    var layer := LayerOf(name, s.root);
    if layer.Some? then layer.value else ""
  }

  /** Each module imports the next. */
  predicate Path(s: SourceModel, p: seq<string>) {
    p != [] && forall i :: 0 < i < |p| ==> Step(s, p, i)
  }

  predicate Step(s: SourceModel, p: seq<string>, i: nat)
    requires 0 < i < |p|
  {
    p[i - 1] in s.imports && p[i] in s.imports[p[i - 1]]
  }

  /** What the scanner builds: keys are project modules, and only the package root has no layer. */
  predicate Scanned(s: SourceModel) {
    forall name <- s.imports :: LayerOf(name, s.root).Some? && (LayerOf(name, s.root) == Some("") ==> name == s.root)
  }

  /** The layers a module of this layer may come to depend on. */
  function Reach(b: Baseline, layer: string): set<string> {
    {layer} + b.AllowedFor(layer)
  }

  /** Permissions are closed: what an allowed layer is allowed is allowed. */
  predicate Closed(b: Baseline) {
    forall layer <- b.allowed :: forall other <- b.allowed[layer] :: b.AllowedFor(other) <= b.allowed[layer]
  }

  lemma MatricesAreClosed()
    ensures Closed(V1_0) && Closed(V1_1)
  {
  }

  /** The target is outside the project, is the bare root, or is in reach. */
  predicate Within(s: SourceModel, b: Baseline, layer: string, target: string) {
    var to := LayerOf(target, s.root);
    to.None? || to.value == "" || to.value in Reach(b, layer)
  }

  ghost predicate PathBounded(s: SourceModel, b: Baseline, p: seq<string>)
    requires p != []
  {
    var from := LayerOf(p[0], s.root);
    from.Some? && from.value != "" ==> forall i :: 0 <= i < |p| ==> Within(s, b, from.value, p[i])
  }

  predicate Avoids(s: SourceModel, p: seq<string>) {
    forall i :: 0 <= i < |p| ==> p[i] != s.root
  }

  /** One import of a compliant model stays in reach of its module's layer. */
  lemma EdgeWithin(s: SourceModel, b: Baseline, name: string, target: string, layer: string)
    requires Compliant(s, b) && name in s.imports && target in s.imports[name]
    requires LayerOf(name, s.root) == Some(layer) && layer != ""
    ensures Within(s, b, layer, target)
  {
    hide LayerOf;
    assert !IsForbiddenImport(s, b, Violation(FORBIDDEN_IMPORT, name, target)) by {
      assert !IsViolation(s, b, Violation(FORBIDDEN_IMPORT, name, target));
    }
  }

  /** Reach within reach is within reach. */
  lemma ReachTransitive(b: Baseline, layer: string, middle: string)
    requires Closed(b) && middle in Reach(b, layer)
    ensures Reach(b, middle) <= Reach(b, layer)
  {
  }

  /** Compliance of the direct imports bounds every path that avoids the bare root. */
  lemma {:induction false} AvoidingPathBounded(s: SourceModel, b: Baseline, p: seq<string>, i: nat, layer: string)
    requires Scanned(s) && Compliant(s, b) && Closed(b) && Path(s, p) && Avoids(s, p) && i < |p|
    requires LayerOf(p[0], s.root) == Some(layer) && layer != ""
    ensures Within(s, b, layer, p[i])
    decreases i
  {
    hide LayerOf, Compliant;
    if i > 0 {
      AvoidingPathBounded(s, b, p, i - 1, layer);
      assert Step(s, p, i);
      var middle := Layer(s, p[i - 1]);
      EdgeWithin(s, b, p[i - 1], p[i], middle);
      ReachTransitive(b, layer, middle);
    }
  }

  // -- the bare root -------------------------------------------------------------------------

  /** Whoever imports the bare root is in reach of everything the bare root imports. */
  ghost predicate RootHarmless(s: SourceModel, b: Baseline) {
    s.root in s.imports ==>
      forall name <- s.imports :: name != s.root && s.root in s.imports[name] ==>
        forall target <- s.imports[s.root] :: Within(s, b, Layer(s, name), target)
  }

  /** The position is in reach, and at the bare root, so is some module that imports it. */
  ghost predicate Anchored(s: SourceModel, b: Baseline, layer: string, name: string) {
    && Within(s, b, layer, name)
    && (name == s.root ==>
          exists importer <- s.imports :: importer != s.root && s.root in s.imports[importer]
                                          && Layer(s, importer) in Reach(b, layer))
  }

  lemma {:induction false} HarmlessPathBounded(s: SourceModel, b: Baseline, p: seq<string>, i: nat, layer: string)
    requires Scanned(s) && Compliant(s, b) && Closed(b) && RootHarmless(s, b) && Path(s, p) && i < |p|
    requires LayerOf(p[0], s.root) == Some(layer) && layer != ""
    ensures Anchored(s, b, layer, p[i])
    decreases i
  {
    hide Compliant;
    if i > 0 {
      HarmlessPathBounded(s, b, p, i - 1, layer);
      assert Step(s, p, i);
      hide LayerOf, Closed;
      var here, next := p[i - 1], p[i];
      if here == s.root {
        var importer :| importer in s.imports && importer != s.root && s.root in s.imports[importer]
                        && Layer(s, importer) in Reach(b, layer);
        ReachTransitive(b, layer, Layer(s, importer));
      } else {
        var middle := Layer(s, here);
        EdgeWithin(s, b, here, next, middle);
        ReachTransitive(b, layer, middle);
      }
    } else {
      RootHasNoLayer(s);
    }
  }

  lemma RootHasNoLayer(s: SourceModel)
    ensures LayerOf(s.root, s.root) == Some("")
  {
  }

  /**
    The exact condition. In a compliant scanned model every import path, through the bare root or not,
    stays in reach of the layer it starts from if and only if the bare root is harmless.
   */
  lemma PathsBoundedIffRootHarmless(s: SourceModel, b: Baseline)
    requires Scanned(s) && Compliant(s, b) && Closed(b)
    ensures (forall p :: Path(s, p) ==> PathBounded(s, b, p)) <==> RootHarmless(s, b)
  {
    hide LayerOf, Compliant, Closed;
    if RootHarmless(s, b) {
      forall p | Path(s, p)
        ensures PathBounded(s, b, p)
      {
        var from := LayerOf(p[0], s.root);
        if from.Some? && from.value != "" {
          forall i | 0 <= i < |p|
            ensures Within(s, b, from.value, p[i])
          {
            HarmlessPathBounded(s, b, p, i, from.value);
          }
        }
      }
    } else {
      var name, target :| s.root in s.imports && name in s.imports && name != s.root && s.root in s.imports[name]
                          && target in s.imports[s.root] && !Within(s, b, Layer(s, name), target);
      var p := [name, s.root, target];
      assert Path(s, p) && !Within(s, b, Layer(s, name), p[2]);
      assert !PathBounded(s, b, p);
    }
  }

  // -- sqlite3 ------------------------------------------------------------------------------------

  lemma WhoReachesInfrastructure(layer: string)
    requires INFRASTRUCTURE in Reach(V1_1, layer)
    ensures layer == INFRASTRUCTURE || layer == COMPOSITION
  {
  }

  lemma SqliteImporters(s: SourceModel, name: string)
    requires Compliant(s, V1_1) && name in s.imports && SQLITE in s.imports[name]
    ensures LayerOf(name, s.root) == Some(INFRASTRUCTURE)
  {
    hide LayerOf;
    assert !IsViolation(s, V1_1, Violation(SQLITE_OUTSIDE, name, SQLITE));
  }

  /** Only infrastructure and composition modules can reach sqlite3 at all, on paths that avoid the bare root. */
  lemma OnlyTwoLayersReachSqlite(s: SourceModel, p: seq<string>, layer: string)
    requires Scanned(s) && Compliant(s, V1_1) && Path(s, p) && Avoids(s, p)
    requires |p| >= 2 && p[|p| - 1] == SQLITE && LayerOf(p[0], s.root) == Some(layer) && layer != ""
    ensures layer == INFRASTRUCTURE || layer == COMPOSITION
  {
    hide LayerOf, Compliant, Closed, Reach;
    var last := p[|p| - 2];
    assert Step(s, p, |p| - 1);
    SqliteImporters(s, last);
    MatricesAreClosed();
    AvoidingPathBounded(s, V1_1, p, |p| - 2, layer);
    WhoReachesInfrastructure(layer);
  }

  // -- the two baselines ------------------------------------------------------------------------------

  /** Architecture v1.1 only adds: whatever complied with v1.0 complies with v1.1. */
  lemma OlderComplianceIsEnough(s: SourceModel)
    requires Compliant(s, V1_0)
    ensures Compliant(s, V1_1)
  {
    hide LayerOf;
    forall v
      ensures !IsViolation(s, V1_1, v)
    {
      assert !IsViolation(s, V1_0, v);
      assert forall layer <- V1_0.allowed :: V1_0.AllowedFor(layer) == V1_1.AllowedFor(layer);
    }
  }

  /** The module named after a layer, directly below the root. */
  function ModuleOf(root: string, layer: string): string {
    root + "." + layer
  }

  lemma {:induction false} NoDot(text: string)
    requires '.' !in text
    ensures UntilDot(text) == text
    decreases |text|
  {
    if text != "" {
      NoDot(text[1..]);
      assert text == [text[0]] + text[1..];
    }
  }

  lemma ModuleLayer(root: string, layer: string)
    requires '.' !in layer
    ensures LayerOf(ModuleOf(root, layer), root) == Some(layer) && ModuleOf(root, layer) != root
  {
    NoDot(layer);
    assert ModuleOf(root, layer)[|root| + 1..] == layer;
    assert |ModuleOf(root, layer)| > |root|;
  }

  /** The converse fails: a composition module alone complies with v1.1 and not with v1.0. */
  lemma NewerComplianceIsNotEnough(root: string) returns (s: SourceModel)
    ensures Scanned(s) && Compliant(s, V1_1) && !Compliant(s, V1_0)
  {
    var name := ModuleOf(root, COMPOSITION);
    s := SourceModel(map[name := {}], root);
    ModuleLayer(root, COMPOSITION) by { DotFree(); }
    LayerNames();
    LoneModule(s, name);
  }

  lemma LoneModule(s: SourceModel, name: string)
    requires s.imports == map[name := {}] && LayerOf(name, s.root) == Some(COMPOSITION)
    requires COMPOSITION != "" && COMPOSITION !in V1_0.known && COMPOSITION in V1_1.known
    ensures Scanned(s) && Compliant(s, V1_1) && !Compliant(s, V1_0)
  {
    hide LayerOf, V1_0, V1_1, COMPOSITION, UNKNOWN_LAYER;
    assert s.imports.Keys == {name};
    assert IsViolation(s, V1_0, Violation(UNKNOWN_LAYER, name, COMPOSITION));
  }

  lemma LayerNames()
    ensures COMPOSITION != "" && COMPOSITION !in V1_0.known && COMPOSITION in V1_1.known
    ensures DOMAIN != "" && INFRASTRUCTURE != "" && {DOMAIN, INFRASTRUCTURE} <= V1_1.known
    ensures INFRASTRUCTURE !in Reach(V1_1, DOMAIN)
  {
  }

  /**
    Through the bare root the bound fails: for every root name there is a compliant model in which a
    domain module reaches the infrastructure layer in two imports.
   */
  lemma RootEscapes(root: string) returns (s: SourceModel, p: seq<string>)
    requires root != SQLITE
    ensures Scanned(s) && Compliant(s, V1_1) && Path(s, p) && |p| == 3 && !PathBounded(s, V1_1, p)
  {
    hide *;
    var low, high := ModuleOf(root, DOMAIN), ModuleOf(root, INFRASTRUCTURE);
    s := SourceModel(map[low := {root}, root := {high}], root);
    p := [low, root, high];
    DotFree();
    ModuleLayer(root, DOMAIN);
    ModuleLayer(root, INFRASTRUCTURE);
    ModuleHasDot(root, INFRASTRUCTURE);
    RootHasNoLayer(s);
    EscapingModel(s, low, high);
  }

  lemma DotFree()
    ensures '.' !in DOMAIN && '.' !in INFRASTRUCTURE && '.' !in COMPOSITION && '.' !in SQLITE
  {
  }

  lemma ModuleHasDot(root: string, layer: string)
    ensures '.' in ModuleOf(root, layer)
  {
    assert ModuleOf(root, layer)[|root|] == '.';
  }

  lemma EscapingModel(s: SourceModel, low: string, high: string)
    requires s.imports == map[low := {s.root}, s.root := {high}] && low != s.root && high != SQLITE && s.root != SQLITE
    requires LayerOf(low, s.root) == Some(DOMAIN) && LayerOf(high, s.root) == Some(INFRASTRUCTURE) && LayerOf(s.root, s.root) == Some("")
    ensures Scanned(s) && Compliant(s, V1_1) && Path(s, [low, s.root, high]) && !PathBounded(s, V1_1, [low, s.root, high])
  {
    hide LayerOf;
    LayerNames();
    var p := [low, s.root, high];
    assert s.imports.Keys == {low, s.root};
    assert !Within(s, V1_1, DOMAIN, p[2]);
  }
}
