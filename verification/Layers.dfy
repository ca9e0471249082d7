/** The architecture rules (architecture/rules.py, architecture/validator.py) over a source model. */
module Layers {
  import opened Basics
  import opened Texts

  /** Which module imports which names; only modules of the project are keys. */
  datatype SourceModel = SourceModel(imports: map<string, set<string>>, root: string) {
    function ImportsOf(name: string): set<string> {
      if name in imports then imports[name] else {}
    }
  }

  datatype Violation = Violation(rule: string, name: string, target: string)

  datatype Baseline = Baseline(version: string, known: set<string>, allowed: map<string, set<string>>) {
    function AllowedFor(layer: string): set<string> {
      if layer in allowed then allowed[layer] else {}
    }
  }

  const DOMAIN := "domain"
  const PORTS := "ports"
  const APPLICATION := "application"
  const ARCHITECTURE := "architecture"
  const INFRASTRUCTURE := "infrastructure"
  const COMPOSITION := "composition"
  const SQLITE := "sqlite3"

  const UNKNOWN_LAYER := "unknown-layer"
  const FORBIDDEN_IMPORT := "forbidden-layer-import"
  const SQLITE_OUTSIDE := "sqlite-outside-infrastructure"

  /** Architecture v1.0, frozen history. */
  const V1_0 := Baseline("1.0", {DOMAIN, PORTS, APPLICATION, ARCHITECTURE, INFRASTRUCTURE},
                         map[DOMAIN := {}, PORTS := {DOMAIN}, APPLICATION := {DOMAIN, PORTS},
                             ARCHITECTURE := {DOMAIN}, INFRASTRUCTURE := {DOMAIN, PORTS}])

  /** Architecture v1.1: one outer layer more, and no new permission for any other. */
  const V1_1 := Baseline("1.1", V1_0.known + {COMPOSITION},
                         V1_0.allowed[COMPOSITION := {DOMAIN, PORTS, APPLICATION, ARCHITECTURE, INFRASTRUCTURE}])

  function UntilDot(text: string): string {
    if text == "" || text[0] == '.' then "" else [text[0]] + UntilDot(text[1..])
  }

  /** The layer a project module belongs to; "" is the package root itself, None is not a project module. */
  function LayerOf(name: string, root: string): Option<string> {
    if name == root then Some("")
    else if !(root + "." <= name) then None
    else Some(UntilDot(name[|root| + 1..]))
  }

  // -- what each rule calls a violation -----------------------------------------------------

  predicate IsUnknownLayer(s: SourceModel, b: Baseline, v: Violation) {
    v.rule == UNKNOWN_LAYER && v.name in s.imports
    && LayerOf(v.name, s.root) == Some(v.target) && v.target != "" && v.target !in b.known
  }

  /** An edge the rule looks at, and does not allow. */
  predicate ForbiddenEdge(s: SourceModel, b: Baseline, name: string, target: string) {
    var from, to := LayerOf(name, s.root), LayerOf(target, s.root);
    from.Some? && from.value != "" && to.Some? && to.value != ""
    && to != from && to.value !in b.AllowedFor(from.value)
  }

  predicate IsForbiddenImport(s: SourceModel, b: Baseline, v: Violation) {
    v.rule == FORBIDDEN_IMPORT && v.name in s.imports && v.target in s.imports[v.name] && ForbiddenEdge(s, b, v.name, v.target)
  }

  predicate IsSqliteOutside(s: SourceModel, v: Violation) {
    v.rule == SQLITE_OUTSIDE && v.target == SQLITE && v.name in s.imports && SQLITE in s.imports[v.name]
    && LayerOf(v.name, s.root) != Some(INFRASTRUCTURE)
  }

  predicate IsViolation(s: SourceModel, b: Baseline, v: Violation) {
    IsUnknownLayer(s, b, v) || IsForbiddenImport(s, b, v) || IsSqliteOutside(s, v)
  }

  ghost predicate Compliant(s: SourceModel, b: Baseline) {
    forall v :: !IsViolation(s, b, v)
  }

  // -- the checks ---------------------------------------------------------------------------------

  /** No violation is listed twice. */
  ghost predicate EachOnce(violations: seq<Violation>) {
    forall v :: multiset(violations)[v] <= 1
  }

  lemma OnceSnoc(violations: seq<Violation>, v: Violation)
    requires EachOnce(violations) && v !in violations
    ensures EachOnce(violations + [v])
  {
    assert multiset(violations + [v]) == multiset(violations) + multiset{v};
    assert v !in multiset(violations);
  }

  lemma OnceConcat(a: seq<Violation>, b: seq<Violation>)
    requires EachOnce(a) && EachOnce(b) && forall v :: v in a ==> v !in b
    ensures EachOnce(a + b)
  {
    forall v
      ensures multiset(a + b)[v] <= 1
    {
      assert multiset(a + b) == multiset(a) + multiset(b);
      assert v in multiset(a) ==> v in a;
      assert v in multiset(b) ==> v in b;
    }
  }

  /** In an ascending listing, nothing comes before itself. */
  lemma NotBefore(texts: seq<string>, i: nat)
    requires Ascending(texts) && i < |texts|
    ensures texts[i] !in texts[..i]
  {
    Trichotomy(texts[i], texts[i]);
  }

  method CheckUnknownLayers(s: SourceModel, b: Baseline) returns (violations: seq<Violation>)
    ensures EachOnce(violations) && forall v :: v in violations <==> IsUnknownLayer(s, b, v)
  {
    var names := Sorted(s.imports.Keys);
    violations := [];
    for i := 0 to |names|
      invariant EachOnce(violations)
      invariant forall v :: v in violations <==> v.name in names[..i] && IsUnknownLayer(s, b, v)
    {
      assert names[i] in names;
      NotBefore(names, i);
      var layer := LayerOf(names[i], s.root);
      if layer.Some? && layer.value != "" && layer.value !in b.known {
        OnceSnoc(violations, Violation(UNKNOWN_LAYER, names[i], layer.value));
        violations := violations + [Violation(UNKNOWN_LAYER, names[i], layer.value)];
      }
    }
    assert names[..|names|] == names;
  }

  method CheckForbiddenImports(s: SourceModel, b: Baseline) returns (violations: seq<Violation>)
    ensures EachOnce(violations) && forall v :: v in violations <==> IsForbiddenImport(s, b, v)
  {
    var names := Sorted(s.imports.Keys);
    violations := [];
    for i := 0 to |names|
      invariant EachOnce(violations)
      invariant forall v :: v in violations <==> v.name in names[..i] && IsForbiddenImport(s, b, v)
    {
      assert names[i] in names;
      NotBefore(names, i);
      var here := CheckImportsOf(s, b, names[i]);
      OnceConcat(violations, here);
      violations := violations + here;
      assert names[..i + 1] == names[..i] + [names[i]];
    }
    assert names[..|names|] == names;
  }

  method CheckImportsOf(s: SourceModel, b: Baseline, name: string) returns (violations: seq<Violation>)
    requires name in s.imports
    ensures EachOnce(violations) && forall v :: v in violations <==> v.name == name && IsForbiddenImport(s, b, v)
  {
    violations := [];
    var layer := LayerOf(name, s.root);
    if layer.None? || layer.value == "" { return; }
    var allowed := b.AllowedFor(layer.value);
    var targets := Sorted(s.imports[name]);
    for i := 0 to |targets|
      invariant EachOnce(violations)
      invariant forall v :: v in violations <==> v.name == name && v.target in targets[..i] && IsForbiddenImport(s, b, v)
    {
      NotBefore(targets, i);
      assert targets[i] in targets;
      assert targets[..i + 1] == targets[..i] + [targets[i]];
      var to := LayerOf(targets[i], s.root);
      if to.None? || to.value == "" { continue; }
      if to == layer || to.value in allowed { continue; }
      OnceSnoc(violations, Violation(FORBIDDEN_IMPORT, name, targets[i]));
      violations := violations + [Violation(FORBIDDEN_IMPORT, name, targets[i])];
    }
    assert targets[..|targets|] == targets;
  }

  method CheckSqlite(s: SourceModel) returns (violations: seq<Violation>)
    ensures EachOnce(violations) && forall v :: v in violations <==> IsSqliteOutside(s, v)
  {
    var names := Sorted(s.imports.Keys);
    violations := [];
    for i := 0 to |names|
      invariant EachOnce(violations)
      invariant forall v :: v in violations <==> v.name in names[..i] && IsSqliteOutside(s, v)
    {
      NotBefore(names, i);
      assert names[i] in names;
      assert names[..i + 1] == names[..i] + [names[i]];
      if LayerOf(names[i], s.root) == Some(INFRASTRUCTURE) { continue; }
      if SQLITE in s.ImportsOf(names[i]) {
        OnceSnoc(violations, Violation(SQLITE_OUTSIDE, names[i], SQLITE));
        violations := violations + [Violation(SQLITE_OUTSIDE, names[i], SQLITE)];
      }
    }
    assert names[..|names|] == names;
  }

  // -- the validator ----------------------------------------------------------------------------------

  /** The ordering key: rule, then module, then target. */
  predicate KeyAtMost(v: Violation, w: Violation) {
    if v.rule != w.rule then Below(v.rule, w.rule)
    else if v.name != w.name then Below(v.name, w.name)
    else v.target == w.target || Below(v.target, w.target)
  }

  function Inserted(sorted: seq<Violation>, v: Violation): seq<Violation> {
    if sorted == [] then [v]
    else if KeyAtMost(v, sorted[0]) then [v] + sorted
    else [sorted[0]] + Inserted(sorted[1..], v)
  }

  function SortedByKey(violations: seq<Violation>): seq<Violation> {
    if violations == [] then [] else Inserted(SortedByKey(violations[1..]), violations[0])
  }

  predicate InOrder(violations: seq<Violation>) {
    forall i :: 0 < i < |violations| ==> KeyAtMost(violations[i - 1], violations[i])
  }

  lemma KeyTotal(v: Violation, w: Violation)
    ensures KeyAtMost(v, w) || KeyAtMost(w, v)
  {
    Trichotomy(v.rule, w.rule);
    Trichotomy(v.name, w.name);
    Trichotomy(v.target, w.target);
  }

  lemma InOrderCons(v: Violation, rest: seq<Violation>)
    requires InOrder(rest) && (rest == [] || KeyAtMost(v, rest[0]))
    ensures InOrder([v] + rest)
  {
    hide KeyAtMost;
  }

  lemma InOrderTail(sorted: seq<Violation>)
    requires InOrder(sorted) && |sorted| > 1
    ensures InOrder(sorted[1..]) && KeyAtMost(sorted[0], sorted[1])
  {
    hide KeyAtMost;
  }

  lemma {:induction false} InsertedBag(sorted: seq<Violation>, v: Violation)
    ensures multiset(Inserted(sorted, v)) == multiset(sorted) + multiset{v}
    decreases |sorted|
  {
    if sorted != [] {
      InsertedBag(sorted[1..], v);
      assert sorted == [sorted[0]] + sorted[1..];
    }
  }

  lemma {:induction false} InsertedInOrder(sorted: seq<Violation>, v: Violation)
    requires InOrder(sorted)
    ensures InOrder(Inserted(sorted, v))
    ensures Inserted(sorted, v)[0] == v || (sorted != [] && Inserted(sorted, v)[0] == sorted[0])
    decreases |sorted|
  {
    hide InOrder, KeyAtMost;
    if sorted == [] {
      NothingInOrder();
      InOrderCons(v, []);
      assert [v] + [] == [v];
    } else {
      KeyTotal(v, sorted[0]);
      if KeyAtMost(v, sorted[0]) {
        InOrderCons(v, sorted);
      } else {
        if |sorted| > 1 { InOrderTail(sorted); } else { NothingInOrder(); }
        InsertedInOrder(sorted[1..], v);
        InOrderCons(sorted[0], Inserted(sorted[1..], v));
      }
    }
  }

  lemma NothingInOrder()
    ensures InOrder([])
  {
  }

  lemma {:induction false} SortedByKeySorts(violations: seq<Violation>)
    ensures InOrder(SortedByKey(violations)) && multiset(SortedByKey(violations)) == multiset(violations)
    decreases |violations|
  {
    hide Inserted, InOrder;
    if violations == [] {
      NothingInOrder();
    } else {
      SortedByKeySorts(violations[1..]);
      InsertedInOrder(SortedByKey(violations[1..]), violations[0]);
      InsertedBag(SortedByKey(violations[1..]), violations[0]);
      assert violations == [violations[0]] + violations[1..];
    }
  }

  lemma SameMembers(a: seq<Violation>, b: seq<Violation>)
    requires multiset(a) == multiset(b)
    ensures forall v :: v in a <==> v in b
  {
    forall v
      ensures v in a <==> v in b
    {
      assert v in a <==> v in multiset(a);
      assert v in b <==> v in multiset(b);
    }
  }

  datatype ValidationResult = ValidationResult(version: string, violations: seq<Violation>)

  /** Three rules, three kinds of violation. */
  lemma RulesDiffer(s: SourceModel, b: Baseline, v: Violation)
    ensures IsUnknownLayer(s, b, v) ==> !IsForbiddenImport(s, b, v) && !IsSqliteOutside(s, v)
    ensures IsForbiddenImport(s, b, v) ==> !IsSqliteOutside(s, v)
  {
    assert UNKNOWN_LAYER[0] != FORBIDDEN_IMPORT[0] && FORBIDDEN_IMPORT[0] != SQLITE_OUTSIDE[0];
    assert UNKNOWN_LAYER[0] != SQLITE_OUTSIDE[0];
  }

  /** Every rule, and everything they find, each violation once, in key order. */
  method Validate(s: SourceModel, b: Baseline) returns (r: ValidationResult)
    ensures r.version == b.version && InOrder(r.violations) && EachOnce(r.violations)
    ensures forall v :: v in r.violations <==> IsViolation(s, b, v)
    ensures r.violations == [] <==> Compliant(s, b)
  {
    hide IsUnknownLayer, IsForbiddenImport, IsSqliteOutside;
    var violations := CheckUnknownLayers(s, b);
    var more := CheckForbiddenImports(s, b);
    forall v { RulesDiffer(s, b, v); }
    OnceConcat(violations, more);
    violations := violations + more;
    more := CheckSqlite(s);
    OnceConcat(violations, more);
    violations := violations + more;
    SortedByKeySorts(violations);
    SameMembers(SortedByKey(violations), violations);
    r := ValidationResult(b.version, SortedByKey(violations));
    assert r.violations != [] ==> r.violations[0] in r.violations;
  }

  // -- the permissions, pair by pair -----------------------------------------------------------------

  /** Which layer may import which other one, in v1.0. */
  const PERMITTED_V1_0: set<(string, string)> :=
    {("ports", "domain"), ("application", "domain"), ("application", "ports"), ("architecture", "domain"),
     ("infrastructure", "domain"), ("infrastructure", "ports")}

  /** v1.1 adds what the composition layer may import, and nothing else. */
  const PERMITTED_V1_1: set<(string, string)> :=
    PERMITTED_V1_0 + {("composition", "domain"), ("composition", "ports"), ("composition", "application"),
                      ("composition", "architecture"), ("composition", "infrastructure")}

  lemma NamesDiffer()
    ensures "domain" != "ports" && "domain" != "application" && "domain" != "architecture" && "domain" != "infrastructure"
    ensures "domain" != "composition" && "ports" != "application" && "ports" != "architecture" && "ports" != "infrastructure"
    ensures "ports" != "composition" && "application" != "architecture" && "application" != "infrastructure"
    ensures "application" != "composition" && "architecture" != "infrastructure" && "architecture" != "composition"
    ensures "infrastructure" != "composition"
  {
    assert "domain"[0] == 'd' && "ports"[0] == 'p' && "application"[0] == 'a' && "infrastructure"[0] == 'i' && "composition"[0] == 'c';
    assert "architecture"[0] == 'a' && "architecture"[1] == 'r' && "application"[1] == 'p';
  }

  lemma PermittedPairs(from: string, to: string)
    ensures to in V1_0.AllowedFor(from) <==> (from, to) in PERMITTED_V1_0
    ensures to in V1_1.AllowedFor(from) <==> (from, to) in PERMITTED_V1_1
  {
    NamesDiffer();
  }

  /** An import between two layers is reported exactly when they differ and the pair is not a permitted one. */
  lemma ReportedPairs(s: SourceModel, name: string, target: string)
    requires name in s.imports && target in s.imports[name]
    ensures var v := Violation(FORBIDDEN_IMPORT, name, target);
            && (IsForbiddenImport(s, V1_0, v) <==> Reported(s, name, target, PERMITTED_V1_0))
            && (IsForbiddenImport(s, V1_1, v) <==> Reported(s, name, target, PERMITTED_V1_1))
  {
    hide LayerOf;
    var from, to := LayerOf(name, s.root), LayerOf(target, s.root);
    if from.Some? && to.Some? { PermittedPairs(from.value, to.value); }
  }

  /** Both ends are in a layer of the project, the layers differ, and nobody permitted the pair. */
  predicate Reported(s: SourceModel, name: string, target: string, permitted: set<(string, string)>) {
    var from, to := LayerOf(name, s.root), LayerOf(target, s.root);
    from.Some? && to.Some? && from.value != "" && to.value != "" && from.value != to.value && (from.value, to.value) !in permitted
  }

  // -- the layer of a name -----------------------------------------------------------------------------

  lemma {:induction false} UpToDot(layer: string, rest: string)
    requires '.' !in layer && (rest == "" || rest[0] == '.')
    ensures UntilDot(layer + rest) == layer
    decreases |layer|
  {
    if layer == "" {
      assert layer + rest == rest;
    } else {
      assert (layer + rest)[1..] == layer[1..] + rest;
      assert layer == [layer[0]] + layer[1..];
      UpToDot(layer[1..], rest);
    }
  }

  /** root, root.layer and root.layer.rest have their layer; any other name is not a module of the project. */
  lemma LayerOfNames(root: string, layer: string, rest: string, other: string)
    requires '.' !in layer && (rest == "" || rest[0] == '.')
    ensures LayerOf(root, root) == Some("")
    ensures LayerOf(root + "." + layer + rest, root) == Some(layer)
    ensures other != root && !(root + "." <= other) ==> LayerOf(other, root) == None
  {
    var name := root + "." + layer + rest;
    assert name[|root| + 1..] == layer + rest;
    assert root + "." <= name;
    UpToDot(layer, rest);
  }
}
