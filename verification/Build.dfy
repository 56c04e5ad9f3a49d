/** `build`: the mutable arenas, the duplicate checks and the fixpoint loop. */
module Build {
  import opened Wrappers
  import opened Ast
  import opened Passes
  import opened OneShot
  import opened EnvironmentLemmas
  import opened Declarations
  import opened DeclarationSteps
  import opened Typechecker
  import opened TypecheckerTheorems
  import opened Acceptance
  import opened Parts
  import opened Rounds
  import opened PanicRuns
  import opened PanicOutcomes
  import opened Outcomes
  import opened RuleOutcomes

  /** `core_model::mapped_arena`: values in order of arrival, found by key; the first value added
      under a key wins. */
  class MappedArena<V> {
    var values: seq<V>
    var ids: map<string, nat>

    ghost predicate Valid()
      reads this
    {
      forall k :: k in ids ==> ids[k] < |values|
    }

    constructor ()
      ensures Valid() && values == [] && ids == map[]
    {
      values, ids := [], map[];
    }

    function GetByKey(key: string): Option<V>
      requires Valid()
      reads this
    {
      if key in ids then Some(values[ids[key]]) else None
    }

    method Add(key: string, v: V) returns (id: nat)
      requires Valid()
      modifies this
      ensures Valid()
      ensures key in old(ids) ==> values == old(values) && ids == old(ids) && id == old(ids)[key]
      ensures key !in old(ids) ==>
                values == old(values) + [v] && ids == old(ids)[key := |old(values)|] && id == |old(values)|
    {
      if key in ids {
        id := ids[key];
      } else {
        id := |values|;
        values, ids := values + [v], ids[key := id];
      }
    }

    /** Assignment through `get_by_key_mut`. */
    method SetByKey(key: string, v: V)
      requires Valid() && key in ids
      modifies this`values
      ensures Valid() && values == old(values)[ids[key] := v]
    {
      values := values[ids[key] := v];
    }
  }

  function View(arena: MappedArena<Entry>): Arena
    reads arena
  {
    Arena(arena.values, arena.ids)
  }

  // ----- Duplicate names -----

  predicate Distinct(names: seq<string>) {
    forall i, j :: 0 <= i < j < |names| ==> names[i] != names[j]
  }

  /** One diagnostic for every name that occurred before. */
  function Repeats(names: seq<string>): seq<Diagnostic> {
    if names == [] then []
    else
      var n := |names| - 1;
      Repeats(names[..n]) + if names[n] in names[..n] then [Duplicate(names[n])] else []
  }

  lemma {:induction false} RepeatsNone(names: seq<string>)
    ensures Repeats(names) == [] <==> Distinct(names)
  {
    if names != [] {
      var n := |names| - 1;
      RepeatsNone(names[..n]);
      assert forall i :: 0 <= i < n ==> names[..n][i] == names[i];
      if names[n] in names[..n] {
        var i :| 0 <= i < n && names[..n][i] == names[n];
        assert names[i] == names[n];
      }
    }
  }

  lemma {:induction false} RepeatsAre(names: seq<string>, d: Diagnostic)
    ensures d in Repeats(names) <==>
            exists i, j :: 0 <= i < j < |names| && names[i] == names[j] && d == Duplicate(names[j])
  {
    if names != [] {
      var n := |names| - 1;
      RepeatsAre(names[..n], d);
      assert forall i :: 0 <= i < n ==> names[..n][i] == names[i];
      if names[n] in names[..n] {
        var i :| 0 <= i < n && names[..n][i] == names[n];
        assert names[i] == names[n];
      }
    }
  }

  /** `validate_no_duplicates`. */
  method ValidateNoDuplicates(names: seq<string>) returns (errors: seq<Diagnostic>)
    ensures errors == [] <==> forall i, j :: 0 <= i < j < |names| ==> names[i] != names[j]
    ensures forall d :: d in errors <==>
              exists i, j :: 0 <= i < j < |names| && names[i] == names[j] && d == Duplicate(names[j])
    ensures errors == Repeats(names)
  {
    errors := [];
    var seen: set<string> := {};
    assert names[..0] == [];
    for n := 0 to |names|
      invariant seen == set i | 0 <= i < n :: names[i]
      invariant errors == Repeats(names[..n])
    {
      assert names[..n + 1][..n] == names[..n];
      if names[n] in seen { errors := errors + [Duplicate(names[n])]; }
      seen := seen + {names[n]};
    }
    assert names[..|names|] == names;
    RepeatsNone(names);
    forall d
      ensures d in errors <==>
              exists i, j :: 0 <= i < j < |names| && names[i] == names[j] && d == Duplicate(names[j])
    {
      RepeatsAre(names, d);
    }
  }

  predicate ValidModule(m: Module) {
    && Distinct(Map(m.methods, (c: Callable) => c.name))
    && Distinct(Map(m.types, (t: Model) => t.name))
    && Distinct(Map(m.enums, (e: Enum) => e.name))
    && (forall i :: 0 <= i < |m.types| ==> Distinct(Map(m.types[i].fields, (f: Field) => f.name)))
    && (forall i :: 0 <= i < |m.enums| ==> Distinct(m.enums[i].variants))
  }

  function FieldRepeats(t: Model): seq<Diagnostic> {
    Repeats(Map(t.fields, (f: Field) => f.name))
  }

  function VariantRepeats(e: Enum): seq<Diagnostic> {
    Repeats(e.variants)
  }

  /** Repeated methods, types, enums, fields and variants. */
  function ModuleRepeats(m: Module): seq<Diagnostic> {
    Repeats(Map(m.methods, (c: Callable) => c.name)) + Repeats(Map(m.types, (t: Model) => t.name)) +
    Repeats(Map(m.enums, (e: Enum) => e.name)) + Gather(m.types, FieldRepeats) + Gather(m.enums, VariantRepeats)
  }

  lemma ModuleRepeatsNone(m: Module)
    ensures ModuleRepeats(m) == [] <==> ValidModule(m)
  {
    RepeatsNone(Map(m.methods, (c: Callable) => c.name));
    RepeatsNone(Map(m.types, (t: Model) => t.name));
    RepeatsNone(Map(m.enums, (e: Enum) => e.name));
    GatherEmpty(m.types, FieldRepeats);
    GatherEmpty(m.enums, VariantRepeats);
    forall i | 0 <= i < |m.types|
      ensures FieldRepeats(m.types[i]) == [] <==> Distinct(Map(m.types[i].fields, (f: Field) => f.name))
    {
      RepeatsNone(Map(m.types[i].fields, (f: Field) => f.name));
    }
    forall i | 0 <= i < |m.enums| ensures VariantRepeats(m.enums[i]) == [] <==> Distinct(m.enums[i].variants) {
      RepeatsNone(m.enums[i].variants);
    }
  }

  method ValidateModule(m: Module) returns (errors: seq<Diagnostic>)
    ensures errors == [] <==> ValidModule(m)
    ensures errors == ModuleRepeats(m)
  {
    errors := ValidateNoDuplicates(Map(m.methods, (c: Callable) => c.name));
    var more := ValidateNoDuplicates(Map(m.types, (t: Model) => t.name));
    errors := errors + more;
    more := ValidateNoDuplicates(Map(m.enums, (e: Enum) => e.name));
    errors := errors + more;
    more := ValidateFields(m.types);
    errors := errors + more;
    more := ValidateVariants(m.enums);
    errors := errors + more;
    ModuleRepeatsNone(m);
  }

  method ValidateFields(types: seq<Model>) returns (errors: seq<Diagnostic>)
    ensures errors == Gather(types, FieldRepeats)
  {
    errors := [];
    assert types[..0] == [];
    for i := 0 to |types|
      invariant errors == Gather(types[..i], FieldRepeats)
    {
      assert types[..i + 1][..i] == types[..i];
      var more := ValidateNoDuplicates(Map(types[i].fields, (f: Field) => f.name));
      errors := errors + more;
    }
    assert types[..|types|] == types;
  }

  method ValidateVariants(enums: seq<Enum>) returns (errors: seq<Diagnostic>)
    ensures errors == Gather(enums, VariantRepeats)
  {
    errors := [];
    assert enums[..0] == [];
    for i := 0 to |enums|
      invariant errors == Gather(enums[..i], VariantRepeats)
    {
      assert enums[..i + 1][..i] == enums[..i];
      var more := ValidateNoDuplicates(enums[i].variants);
      errors := errors + more;
    }
    assert enums[..|enums|] == enums;
  }

  predicate ValidSystem(sys: AstSystem) {
    && Distinct(Map(sys.modules, (m: Module) => m.name))
    && AllValid(sys.modules, |sys.modules|)
  }

  predicate AllValid(ms: seq<Module>, n: nat)
    requires n <= |ms|
  {
    n > 0 ==> AllValid(ms, n - 1) && ValidModule(ms[n - 1])
  }

  lemma {:induction false} InvalidSoFar(ms: seq<Module>, few: nat, n: nat)
    requires few <= n <= |ms| && !AllValid(ms, few)
    ensures !AllValid(ms, n)
  {
    if few < n { InvalidSoFar(ms, few, n - 1); }
  }

  /** What the first module that is not valid repeats. */
  function FirstRepeats(ms: seq<Module>): seq<Diagnostic> {
    if ms == [] then []
    else if ModuleRepeats(ms[0]) != [] then ModuleRepeats(ms[0])
    else FirstRepeats(ms[1..])
  }

  lemma {:induction false} FirstRepeatsAt(ms: seq<Module>, n: nat)
    requires n < |ms| && AllValid(ms, n) && !ValidModule(ms[n])
    ensures FirstRepeats(ms) == ModuleRepeats(ms[n])
    decreases |ms|
  {
    ModuleRepeatsNone(ms[0]);
    if n > 0 {
      ValidAmong(ms, n);
      ValidTail(ms[1..], n - 1);
      FirstRepeatsAt(ms[1..], n - 1);
    } else {
      ModuleRepeatsNone(ms[n]);
    }
  }

  lemma {:induction false} ValidAmong(ms: seq<Module>, n: nat)
    requires n <= |ms|
    ensures AllValid(ms, n) <==> forall j :: 0 <= j < n ==> ValidModule(ms[j])
  {
    if n > 0 { ValidAmong(ms, n - 1); }
  }

  lemma ValidTail(ms: seq<Module>, n: nat)
    requires n <= |ms| && forall j :: 0 <= j < n ==> ValidModule(ms[j])
    ensures AllValid(ms, n)
  {
    ValidAmong(ms, n);
  }

  /** Repeated names of modules are reported alone, and otherwise what one module repeats. */
  function Refusal(sys: AstSystem): seq<Diagnostic> {
    var names := Repeats(Map(sys.modules, (m: Module) => m.name));
    if names != [] then names else FirstRepeats(sys.modules)
  }

  lemma {:induction false} FirstRepeatsNone(ms: seq<Module>)
    ensures FirstRepeats(ms) == [] <==> forall j :: 0 <= j < |ms| ==> ValidModule(ms[j])
  {
    if ms != [] {
      ModuleRepeatsNone(ms[0]);
      FirstRepeatsNone(ms[1..]);
      assert forall j :: 0 < j < |ms| ==> ms[j] == ms[1..][j - 1];
    }
  }

  /** Something is reported exactly for a program that is not valid. */
  lemma RefusalExactly(sys: AstSystem)
    ensures Refusal(sys) == [] <==> ValidSystem(sys)
  {
    RepeatsNone(Map(sys.modules, (m: Module) => m.name));
    FirstRepeatsNone(sys.modules);
    ValidAmong(sys.modules, |sys.modules|);
  }

  /** Names differ among modules, and in each module among its methods, its types, its enums, the fields of each type
      and the variants of each enum. */
  lemma ValidExactly(sys: AstSystem)
    ensures ValidSystem(sys) <==>
            && (forall i, j :: 0 <= i < j < |sys.modules| ==> sys.modules[i].name != sys.modules[j].name)
            && forall m :: m in sys.modules ==>
                 && (forall i, j :: 0 <= i < j < |m.methods| ==> m.methods[i].name != m.methods[j].name)
                 && (forall i, j :: 0 <= i < j < |m.types| ==> m.types[i].name != m.types[j].name)
                 && (forall i, j :: 0 <= i < j < |m.enums| ==> m.enums[i].name != m.enums[j].name)
                 && (forall t, i, j :: t in m.types && 0 <= i < j < |t.fields| ==> t.fields[i].name != t.fields[j].name)
                 && (forall e, i, j :: e in m.enums && 0 <= i < j < |e.variants| ==> e.variants[i] != e.variants[j])
  {
    ValidAmong(sys.modules, |sys.modules|);
  }

  // ----- The annotation loop -----

  lemma {:induction false} PassEachSnoc<T>(xs: seq<T>, x: T, f: T -> Outcome<T>)
    ensures var r, q := PassEach(xs, f), f(x);
            PassEach(xs + [x], f) == Outcome(r.node + [q.node], r.changed || q.changed, r.errors + q.errors)
  {
    if xs == [] {
      assert xs + [x] == [x] && [x][1..] == [];
      assert [f(x).node] + [] == [] + [f(x).node] && f(x).errors + [] == [] + f(x).errors;
    } else {
      assert (xs + [x])[1..] == xs[1..] + [x];
      PassEachSnoc(xs[1..], x, f);
      var r0, rest, q := f(xs[0]), PassEach(xs[1..], f), f(x);
      assert [r0.node] + (rest.node + [q.node]) == ([r0.node] + rest.node) + [q.node];
      assert r0.errors + (rest.errors + q.errors) == (r0.errors + rest.errors) + q.errors;
    }
  }

  /** The loop of `AnnotationMap::pass` with its early return. */
  method AnnotationLoop(m: AnnotationMap, env: Arena, sc: Scope) returns (r: Outcome<AnnotationMap>)
    ensures r == PassAnnotations(m, env, sc)
  {
    var done: seq<Annotation> := [];
    var changed := false;
    var errors: seq<Diagnostic> := [];
    var duplicates := DuplicateErrors(m.duplicates);
    ghost var f := (a: Annotation) => PassAnnotation(a, env, sc);
    for i := 0 to |m.annotations|
      invariant i <= FirstUndeclared(m.annotations)
      invariant Outcome(done, changed, errors) == PassEach(m.annotations[..i], f)
    {
      var a := m.annotations[i];
      if !a.declared {
        assert i == FirstUndeclared(m.annotations);
        return Outcome(m.(annotations := done + m.annotations[i..]), false,
                       duplicates + errors + [UnknownAnnotation(a.name)]);
      }
      DeclaredBefore(m.annotations, i);
      var ra := PassAnnotation(a, env, sc);
      PassEachSnoc(m.annotations[..i], a, f);
      assert m.annotations[..i] + [a] == m.annotations[..i + 1];
      done, changed, errors := done + [ra.node], changed || ra.changed, errors + ra.errors;
    }
    r := Outcome(m.(annotations := done), changed, duplicates + errors);
    assert done + m.annotations[|m.annotations|..] == done;
  }

  lemma {:induction false} DeclaredBefore(annotations: seq<Annotation>, i: nat)
    requires i < |annotations| && annotations[i].declared && i <= FirstUndeclared(annotations)
    ensures i < FirstUndeclared(annotations)
  {
    if i > 0 { DeclaredBefore(annotations[1..], i - 1); }
  }

  // ----- Filling the type arena -----

  lemma AddAllSnoc(es: seq<Entry>, e: Entry)
    ensures AddAll(es + [e]) == AddEntry(AddAll(es), e)
  {
    assert (es + [e])[..|es|] == es;
  }

  method AddEntries(types: MappedArena<Entry>, ghost before: seq<Entry>, es: seq<Entry>)
    requires types.Valid() && View(types) == AddAll(before)
    modifies types
    ensures types.Valid() && View(types) == AddAll(before + es)
  {
    assert before + es[..0] == before;
    for i := 0 to |es|
      invariant types.Valid() && View(types) == AddAll(before + es[..i])
    {
      var _ := types.Add(EntryName(es[i]), es[i]);
      AddAllSnoc(before + es[..i], es[i]);
      assert before + es[..i] + [es[i]] == before + es[..i + 1];
    }
    assert es[..|es|] == es;
  }

  // ----- One iteration of the fixpoint loop -----

  ghost function StateIn(types: MappedArena<Entry>, modules: MappedArena<Module>): State
    reads types, modules
  {
    State(View(types), modules.values)
  }

  method RootLoop(roots: seq<Model>, types: MappedArena<Entry>) returns (errors: seq<Diagnostic>)
    requires types.Valid()
    ensures errors == RootErrors(roots, View(types))
  {
    errors := [];
    for i := 0 to |roots|
      invariant errors == RootErrors(roots[..i], View(types))
    {
      var found := types.GetByKey(roots[i].name);
      assert roots[..i + 1][..i] == roots[..i];
      if found.Some? && found.value.ModelEntry? && !found.value.model.kind.ContextKind? {
        errors := errors + [ModelOutsideModule(roots[i].name)];
      }
    }
    assert roots[..|roots|] == roots;
  }

  lemma TypeStepIs(st: State, i: nat)
    requires i < |st.types.values|
    ensures var e, r := st.types.values[i], StepPass(st, OfType(i));
            if e.ModelEntry? then
              var p := PassModel(e.model, st.types);
              && (StepPanics(st, OfType(i)) <==> PartsPanic(ModelParts(e.model), st.types)) && r.changed == p.changed
              && r.node == if p.changed
                   then State(Arena(st.types.values[i := ModelEntry(p.node)], st.types.ids), st.modules) else st
            else (StepPanics(st, OfType(i)) <==> e.InjectedEntry?) && !r.changed && r.node == st
  {
  }

  lemma ModuleStepIs(st: State, j: nat)
    requires j < |st.modules|
    ensures StepPanics(st, OfModule(j)) <==> PartsPanic(ModuleParts(st.modules[j]), st.types)
    ensures var r, p := StepPass(st, OfModule(j)), PassModule(st.modules[j], st.types);
            && r.changed == p.changed && r.errors == p.errors
            && r.node == if p.changed then State(st.types, st.modules[j := p.node]) else st
  {
  }

  method VisitType(t: Model, types: MappedArena<Entry>, ghost modules: seq<Module>)
    returns (panicked: bool, changed: bool, errors: seq<Diagnostic>)
    requires types.Valid() && t.name in types.ids
    modifies types
    ensures types.Valid() && types.ids == old(types.ids)
    ensures panicked <==> StepPanics(old(State(View(types), modules)), TypeStep(t, old(types.ids)))
    ensures !panicked ==>
              var was := old(State(View(types), modules));
              var r := StepPass(was, TypeStep(t, was.types.ids));
              && State(View(types), modules) == r.node && changed == r.changed
              && errors == if IsModelName(t.name, was.types) then [] else [NotAModel(t.name)]
  {
    panicked, changed, errors := false, false, [];
    var found := types.GetByKey(t.name).value;
    TypeStepIs(State(View(types), modules), types.ids[t.name]);
    if found.ModelEntry? {
      if PartsPanic(ModelParts(found.model), View(types)) {
        panicked := true;
        return;
      }
      var r := PassModel(found.model, View(types));
      if r.changed {
        types.SetByKey(t.name, ModelEntry(r.node));
        changed := true;
      }
    } else {
      panicked, errors := found.InjectedEntry?, [NotAModel(t.name)];
    }
  }

  /** The types up to `i` have been visited. */
  ghost predicate TypesVisited(all: seq<Model>, i: nat, was: State, now: State, changed: bool,
                               errors: seq<Diagnostic>) {
    && i <= |all| && (forall k :: 0 <= k < |all| ==> all[k].name in was.types.ids)
    && var steps := TypeSteps(all[..i], was.types.ids);
    && Calm(was, steps)
    && now == Run(was, steps) && now.types.ids == was.types.ids && (changed <==> Changes(was, steps) > 0)
    && (!changed ==> errors == NonModelErrors(all[..i], was.types))
  }

  lemma {:induction false} TypesVisitedStep(all: seq<Model>, i: nat, was: State, before: State, now: State,
                                            changed: bool, visited: bool,
                         errors: seq<Diagnostic>, more: seq<Diagnostic>)
    requires TypesVisited(all, i, was, before, changed, errors) && i < |all|
    requires var r := StepPass(before, TypeStep(all[i], was.types.ids)); now == r.node && visited == r.changed
    requires !StepPanics(before, TypeStep(all[i], was.types.ids))
    requires now.types.ids == was.types.ids
    requires more == if IsModelName(all[i].name, before.types) then [] else [NotAModel(all[i].name)]
    ensures TypesVisited(all, i + 1, was, now, changed || visited, errors + more)
  {
    var steps, step := TypeSteps(all[..i], was.types.ids), TypeStep(all[i], was.types.ids);
    TypeStepsNext(all, i, was.types.ids);
    RunSnoc(was, steps, step);
    CalmSnoc(was, steps, step);
    if !changed {
      Unchanging(was, steps);
      assert all[..i + 1][..i] == all[..i];
    }
  }

  lemma {:induction false} TypeStepsNext(all: seq<Model>, i: nat, ids: map<string, nat>)
    requires i < |all| && forall k :: 0 <= k < |all| ==> all[k].name in ids
    ensures TypeSteps(all[..i + 1], ids) == TypeSteps(all[..i], ids) + [TypeStep(all[i], ids)]
  {
  }

  lemma {:induction false} TypePanicsHere(all: seq<Model>, i: nat, was: State, before: State, changed: bool,
                                          errors: seq<Diagnostic>)
    requires TypesVisited(all, i, was, before, changed, errors) && i < |all|
    requires StepPanics(before, TypeStep(all[i], was.types.ids))
    ensures !Calm(was, TypeSteps(all, was.types.ids))
  {
    var ids := was.types.ids;
    CalmSnoc(was, TypeSteps(all[..i], ids), TypeStep(all[i], ids));
    TypeStepsSplit(all, i, ids);
    CalmSplit(was, TypeSteps(all[..i], ids) + [TypeStep(all[i], ids)], TypeSteps(all, ids)[i + 1..]);
  }

  lemma {:induction false} TypeStepsSplit(all: seq<Model>, i: nat, ids: map<string, nat>)
    requires i < |all| && forall k :: 0 <= k < |all| ==> all[k].name in ids
    ensures TypeSteps(all, ids) == TypeSteps(all[..i], ids) + [TypeStep(all[i], ids)] + TypeSteps(all, ids)[i + 1..]
  {
  }

  /** Passes every declared type's arena entry; the diagnostics of the passes are ignored. */
  method TypeLoop(all: seq<Model>, types: MappedArena<Entry>, ghost modules: seq<Module>)
    returns (panicked: bool, changed: bool, errors: seq<Diagnostic>)
    requires types.Valid() && forall i :: 0 <= i < |all| ==> all[i].name in types.ids
    modifies types
    ensures panicked <==> !Calm(old(State(View(types), modules)), TypeSteps(all, old(types.ids)))
    ensures !panicked ==> types.Valid()
    ensures !panicked ==>
              TypesVisited(all, |all|, old(State(View(types), modules)), State(View(types), modules), changed, errors)
  {
    panicked, changed, errors := false, false, [];
    ghost var was := State(View(types), modules);
    for i := 0 to |all|
      invariant types.Valid() && !panicked
      invariant TypesVisited(all, i, was, State(View(types), modules), changed, errors)
    {
      ghost var before := State(View(types), modules);
      var stop, visited, more := VisitType(all[i], types, modules);
      if stop {
        TypePanicsHere(all, i, was, before, changed, errors);
        panicked := true;
        return;
      }
      TypesVisitedStep(all, i, was, before, State(View(types), modules), changed, visited, errors, more);
      changed, errors := changed || visited, errors + more;
    }
    assert all[..|all|] == all;
  }

  method VisitModule(name: string, types: MappedArena<Entry>, modules: MappedArena<Module>)
    returns (panicked: bool, changed: bool, errors: seq<Diagnostic>)
    requires modules.Valid() && name in modules.ids
    modifies modules
    ensures modules.Valid() && modules.ids == old(modules.ids) && |modules.values| == old(|modules.values|)
    ensures panicked <==> StepPanics(old(StateIn(types, modules)), OfModule(old(modules.ids)[name]))
    ensures !panicked ==>
              var r := StepPass(old(StateIn(types, modules)), OfModule(old(modules.ids)[name]));
              StateIn(types, modules) == r.node && changed == r.changed && errors == r.errors
  {
    panicked, changed, errors := false, false, [];
    var found := modules.GetByKey(name).value;
    ModuleStepIs(StateIn(types, modules), modules.ids[name]);
    if PartsPanic(ModuleParts(found), View(types)) {
      panicked := true;
      return;
    }
    var r := PassModule(found, View(types));
    errors := r.errors;
    if r.changed {
      modules.SetByKey(name, r.node);
      changed := true;
    }
  }

  /** The modules up to `j` have been visited. */
  ghost predicate ModulesVisited(j: nat, was: State, now: State, changed: bool, errors: seq<Diagnostic>) {
    && j <= |was.modules| && Calm(was, ModuleSteps(j)) && now == Run(was, ModuleSteps(j)) &&
       (changed <==> Changes(was, ModuleSteps(j)) > 0)
    && (!changed ==> errors == ModuleErrors(was.modules[..j], was.types))
  }

  lemma {:induction false} ModulesVisitedStep(j: nat, was: State, before: State, now: State, changed: bool,
                                              visited: bool,
                                             errors: seq<Diagnostic>, more: seq<Diagnostic>)
    requires ModulesVisited(j, was, before, changed, errors) && j < |was.modules|
    requires var r := StepPass(before, OfModule(j)); now == r.node && visited == r.changed && more == r.errors
    requires !StepPanics(before, OfModule(j))
    ensures ModulesVisited(j + 1, was, now, changed || visited, errors + more)
  {
    ModuleStepsNext(j);
    RunSnoc(was, ModuleSteps(j), OfModule(j));
    CalmSnoc(was, ModuleSteps(j), OfModule(j));
    assert now == Run(was, ModuleSteps(j + 1));
    assert changed || visited <==> Changes(was, ModuleSteps(j + 1)) > 0;
    if !changed {
      Unchanging(was, ModuleSteps(j));
      VisitErrors(was, j);
    }
  }

  lemma ModuleStepsNext(j: nat)
    ensures ModuleSteps(j + 1) == ModuleSteps(j) + [OfModule(j)]
  {
  }

  lemma VisitErrors(st: State, j: nat)
    requires j < |st.modules|
    ensures ModuleErrors(st.modules[..j + 1], st.types) ==
            ModuleErrors(st.modules[..j], st.types) + StepPass(st, OfModule(j)).errors
  {
    ModuleErrorsSnoc(st.modules, j, st.types);
  }

  lemma ModuleErrorsSnoc(ms: seq<Module>, j: nat, types: Arena)
    requires j < |ms|
    ensures ModuleErrors(ms[..j + 1], types) == ModuleErrors(ms[..j], types) + PassModule(ms[j], types).errors
  {
    assert ms[..j + 1][..j] == ms[..j];
  }

  lemma {:induction false} ModulePanicsHere(j: nat, n: nat, was: State, before: State, changed: bool,
                                            errors: seq<Diagnostic>)
    requires ModulesVisited(j, was, before, changed, errors) && j < n && StepPanics(before, OfModule(j))
    ensures !Calm(was, ModuleSteps(n))
  {
    CalmSnoc(was, ModuleSteps(j), OfModule(j));
    ModuleStepsSplit(j, n);
    CalmSplit(was, ModuleSteps(j) + [OfModule(j)], ModuleSteps(n)[j + 1..]);
  }

  lemma ModuleStepsSplit(j: nat, n: nat)
    requires j < n
    ensures ModuleSteps(n) == ModuleSteps(j) + [OfModule(j)] + ModuleSteps(n)[j + 1..]
  {
  }

  method ModuleLoop(names: seq<string>, types: MappedArena<Entry>, modules: MappedArena<Module>)
    returns (panicked: bool, changed: bool, errors: seq<Diagnostic>)
    requires modules.Valid() && |names| == |modules.values|
    requires forall j :: 0 <= j < |names| ==> names[j] in modules.ids && modules.ids[names[j]] == j
    modifies modules
    ensures modules.Valid() && modules.ids == old(modules.ids) && |modules.values| == |names|
    ensures panicked <==> !Calm(old(StateIn(types, modules)), ModuleSteps(|names|))
    ensures !panicked ==>
              ModulesVisited(|names|, old(StateIn(types, modules)), StateIn(types, modules), changed, errors)
  {
    panicked, changed, errors := false, false, [];
    ghost var was := StateIn(types, modules);
    for j := 0 to |names|
      invariant modules.Valid() && modules.ids == old(modules.ids) && |modules.values| == |names| && !panicked
      invariant ModulesVisited(j, was, StateIn(types, modules), changed, errors)
    {
      ghost var before := StateIn(types, modules);
      var stop, visited, more := VisitModule(names[j], types, modules);
      if stop {
        ModulePanicsHere(j, |names|, was, before, changed, errors);
        panicked := true;
        return;
      }
      ModulesVisitedStep(j, was, before, StateIn(types, modules), changed, visited, errors, more);
      changed, errors := changed || visited, errors + more;
    }
  }

  // ----- The fixpoint loop -----

  /** Every module is found under its own name, at its own position. */
  ghost predicate Located(modules: MappedArena<Module>, sys: AstSystem)
    reads modules
  {
    && modules.Valid() && |modules.values| == |sys.modules|
    && forall j :: 0 <= j < |sys.modules| ==>
         sys.modules[j].name in modules.ids && modules.ids[sys.modules[j].name] == j
  }

  /** One iteration of the loop of `build`. */
  method Iterate(sys: AstSystem, types: MappedArena<Entry>, modules: MappedArena<Module>)
    returns (panicked: bool, changed: bool, errors: seq<Diagnostic>)
    requires ParsedSystem(sys) && types.Valid() && Located(modules, sys) &&
             Inv(StateIn(types, modules), InitialState(sys))
    modifies types, modules
    ensures panicked <==> !Calm(old(StateIn(types, modules)), IterationSteps(sys))
    ensures !panicked ==>
              && types.Valid() && Located(modules, sys)
              && StateIn(types, modules) == Run(old(StateIn(types, modules)), IterationSteps(sys))
              && (changed <==> Changes(old(StateIn(types, modules)), IterationSteps(sys)) > 0)
              && (!changed ==> Final(sys, StateIn(types, modules)) && errors == Verdict(sys, StateIn(types, modules)))
  {
    changed, errors := false, [];
    ghost var start := StateIn(types, modules);
    var typesChanged, rootErrors, typeErrors;
    panicked, typesChanged, rootErrors, typeErrors := IterateTypes(sys, types, modules.values);
    ghost var middle := StateIn(types, modules);
    IterationCalm(sys, start);
    if panicked { return; }
    var modulesChanged, moduleErrors;
    panicked, modulesChanged, moduleErrors := IterateModules(sys, types, modules);
    if panicked { return; }
    changed, errors := typesChanged || modulesChanged, rootErrors + typeErrors + moduleErrors;
    TwoParts(start, DeclaredSteps(sys), ModuleSteps(|sys.modules|));
    if !changed {
      IterationQuiet(sys, start, rootErrors, typeErrors, moduleErrors);
    }
  }

  /** The part of an iteration that visits the declared types. */
  method IterateTypes(sys: AstSystem, types: MappedArena<Entry>, ghost modules: seq<Module>)
    returns (panicked: bool, changed: bool, rootErrors: seq<Diagnostic>, typeErrors: seq<Diagnostic>)
    requires types.Valid() && types.ids == InitialTypes(sys).ids
    modifies types
    ensures rootErrors == RootErrors(sys.types, old(View(types)))
    ensures panicked <==> !Calm(old(State(View(types), modules)), DeclaredSteps(sys))
    ensures !panicked ==>
              && types.Valid()
              && State(View(types), modules) == Run(old(State(View(types), modules)), DeclaredSteps(sys))
              && (changed <==> Changes(old(State(View(types), modules)), DeclaredSteps(sys)) > 0)
              && (!changed ==> typeErrors == NonModelErrors(AllTypes(sys), old(View(types))))
  {
    NamesDeclared(sys);
    rootErrors := RootLoop(sys.types, types);
    panicked, changed, typeErrors := TypeLoop(AllTypes(sys), types, modules);
    WholeSlice(AllTypes(sys));
  }

  /** The part of an iteration that visits the modules. */
  method IterateModules(sys: AstSystem, types: MappedArena<Entry>, modules: MappedArena<Module>)
    returns (panicked: bool, changed: bool, errors: seq<Diagnostic>)
    requires Located(modules, sys)
    modifies modules
    ensures panicked <==> !Calm(old(StateIn(types, modules)), ModuleSteps(|sys.modules|))
    ensures !panicked ==>
              && Located(modules, sys)
              && StateIn(types, modules) == Run(old(StateIn(types, modules)), ModuleSteps(|sys.modules|))
              && (changed <==> Changes(old(StateIn(types, modules)), ModuleSteps(|sys.modules|)) > 0)
              && (!changed ==> errors == ModuleErrors(old(modules.values), View(types)))
  {
    ghost var was := modules.values;
    panicked, changed, errors := ModuleLoop(Map(sys.modules, (m: Module) => m.name), types, modules);
    WholeSlice(was);
  }

  lemma WholeSlice<T>(xs: seq<T>)
    ensures xs[..|xs|] == xs
  {
  }

  /** The next iteration of the loop. */
  method Round(sys: AstSystem, types: MappedArena<Entry>, modules: MappedArena<Module>, ghost n: nat)
    returns (panicked: bool, changed: bool, errors: seq<Diagnostic>)
    requires ParsedSystem(sys) && Productive(sys, n) && Holds(sys, types, modules, n)
    modifies types, modules
    ensures panicked <==> !CalmRounds(sys, n + 1)
    ensures !panicked ==> Holds(sys, types, modules, n + 1)
    ensures !panicked ==> if changed then Productive(sys, n + 1) else Concluded(sys, n + 1, errors)
  {
    RoundNext(sys, n);
    panicked, changed, errors := Iterate(sys, types, modules);
    RoundIs(sys, n, panicked, changed, errors);
  }

  /** The arenas are as after that many iterations. */
  ghost predicate Holds(sys: AstSystem, types: MappedArena<Entry>, modules: MappedArena<Module>, n: nat)
    reads types, modules
  {
    types.Valid() && Located(modules, sys) && StateIn(types, modules) == After(sys, n)
  }

  /** The loop of `build`. */
  method Fixpoint(sys: AstSystem, types: MappedArena<Entry>, modules: MappedArena<Module>)
    returns (res: Result<State, Failure>, ghost iterations: nat)
    requires ParsedSystem(sys) && types.Valid() && Located(modules, sys) && StateIn(types, modules) == InitialState(sys)
    modifies types, modules
    ensures Ended(sys, iterations, res) && iterations <= CountState(InitialState(sys)) + 1
    ensures res != Err(Panic) ==> StateIn(types, modules) == After(sys, iterations)
  {
    iterations := 0;
    ProductiveStart(sys);
    while true
      invariant Holds(sys, types, modules, iterations) && Productive(sys, iterations)
      decreases CountState(InitialState(sys)) - iterations
    {
      var panicked, didChange, errors := Round(sys, types, modules, iterations);
      iterations := iterations + 1;
      if panicked { return Err(Panic), iterations; }
      if !didChange {
        Conclude(sys, iterations, errors);
        return Answer(errors, State(Arena(types.values, types.ids), modules.values)), iterations;
      }
    }
  }

  /** The modules up to `j` have been added, each under its own name. */
  ghost predicate Added(modules: MappedArena<Module>, ms: seq<Module>, j: nat)
    reads modules
  {
    && modules.Valid() && j <= |ms| && modules.values == Map(ms[..j], ShallowModule)
    && (forall k :: 0 <= k < j ==> ms[k].name in modules.ids && modules.ids[ms[k].name] == k)
    && (forall n :: n in modules.ids ==> modules.ids[n] < j && ms[modules.ids[n]].name == n)
  }

  method AddModule(modules: MappedArena<Module>, ms: seq<Module>, j: nat)
    requires j < |ms| && Added(modules, ms, j) && forall k :: 0 <= k < j ==> ms[k].name != ms[j].name
    modifies modules
    ensures Added(modules, ms, j + 1)
  {
    var _ := modules.Add(ms[j].name, ShallowModule(ms[j]));
    assert modules.values == Map(ms[..j + 1], ShallowModule);
  }

  /** What is in the type arena when the first `j` modules have been loaded. */
  function EntriesBefore(pre: seq<Entry>, ms: seq<Module>, j: nat): seq<Entry>
    requires j <= |ms|
  {
    if j == 0 then pre else EntriesBefore(pre, ms, j - 1) + Map(ms[j - 1].enums, (e: Enum) => EnumEntry(e))
  }

  lemma {:induction false} EntriesBeforeIs(pre: seq<Entry>, ms: seq<Module>, j: nat)
    requires j <= |ms|
    ensures EntriesBefore(pre, ms, j) == pre + EnumEntries(ms[..j])
  {
    if j > 0 {
      EntriesBeforeIs(pre, ms, j - 1);
      assert ms[..j][..j - 1] == ms[..j - 1];
    }
  }

  /** The modules up to `j` and their enums have been added to what was there before. */
  ghost predicate Loaded(types: MappedArena<Entry>, modules: MappedArena<Module>, sys: AstSystem, pre: seq<Entry>,
                         j: nat)
    reads types, modules
  {
    && types.Valid() && Added(modules, sys.modules, j)
    && View(types) == AddAll(EntriesBefore(pre, sys.modules, j))
  }

  /** Adds module `j` and its enums, and checks it. */
  method LoadModule(sys: AstSystem, types: MappedArena<Entry>, modules: MappedArena<Module>, ghost pre: seq<Entry>,
                    j: nat)
    returns (errors: seq<Diagnostic>)
    requires j < |sys.modules| && Distinct(Map(sys.modules, (m: Module) => m.name))
    requires Loaded(types, modules, sys, pre, j)
    modifies types, modules
    ensures Loaded(types, modules, sys, pre, j + 1)
    ensures errors == [] <==> ValidModule(sys.modules[j])
    ensures errors == ModuleRepeats(sys.modules[j])
  {
    ghost var names := Map(sys.modules, (m: Module) => m.name);
    var m := sys.modules[j];
    assert forall k :: 0 <= k < j ==> names[k] != names[j];
    AddModule(modules, sys.modules, j);
    AddEntries(types, EntriesBefore(pre, sys.modules, j), Map(m.enums, (e: Enum) => EnumEntry(e)));
    errors := ValidateModule(m);
  }

  /** Adds the modules and their enums up to the first module that is not valid. */
  method LoadModules(sys: AstSystem, types: MappedArena<Entry>, modules: MappedArena<Module>, ghost pre: seq<Entry>)
    returns (errors: seq<Diagnostic>)
    requires types.Valid() && View(types) == AddAll(pre) && Added(modules, sys.modules, 0)
    requires Distinct(Map(sys.modules, (m: Module) => m.name))
    modifies types, modules
    ensures errors == [] <==> AllValid(sys.modules, |sys.modules|)
    ensures errors != [] ==> errors == FirstRepeats(sys.modules)
    ensures errors == [] ==> Loaded(types, modules, sys, pre, |sys.modules|)
  {
    for j := 0 to |sys.modules|
      invariant Loaded(types, modules, sys, pre, j)
      invariant AllValid(sys.modules, j)
    {
      errors := LoadModule(sys, types, modules, pre, j);
      if errors != [] {
        InvalidSoFar(sys.modules, j + 1, |sys.modules|);
        FirstRepeatsAt(sys.modules, j);
        return;
      }
    }
    errors := [];
  }

  /** Fills both arenas, first with what is predefined. */
  method Populate(sys: AstSystem, types: MappedArena<Entry>, modules: MappedArena<Module>)
      returns (errors: seq<Diagnostic>)
    requires types.Valid() && View(types) == AddAll([]) && Added(modules, sys.modules, 0)
    requires Distinct(Map(sys.modules, (m: Module) => m.name))
    modifies types, modules
    ensures errors == [] <==> AllValid(sys.modules, |sys.modules|)
    ensures errors != [] ==> errors == FirstRepeats(sys.modules)
    ensures errors == [] ==> types.Valid() && Located(modules, sys) && StateIn(types, modules) == InitialState(sys)
  {
    AddEntries(types, [], PREDEFINED);
    assert [] + PREDEFINED == PREDEFINED;
    errors := LoadModules(sys, types, modules, PREDEFINED);
    if errors == [] {
      AllAdded(modules, sys);
      AddModels(sys, types);
    }
  }

  lemma AllAdded(modules: MappedArena<Module>, sys: AstSystem)
    requires Added(modules, sys.modules, |sys.modules|)
    ensures Located(modules, sys) && modules.values == InitialState(sys).modules
  {
    WholeSlice(sys.modules);
  }

  method AddModels(sys: AstSystem, types: MappedArena<Entry>)
    requires types.Valid() && View(types) == AddAll(EntriesBefore(PREDEFINED, sys.modules, |sys.modules|))
    modifies types
    ensures types.Valid() && View(types) == InitialTypes(sys)
  {
    EntriesBeforeIs(PREDEFINED, sys.modules, |sys.modules|);
    WholeSlice(sys.modules);
    AddEntries(types, PREDEFINED + EnumEntries(sys.modules),
               Map(AllTypes(sys), (t: Model) => ModelEntry(ShallowModel(t))));
  }

  /** `build` on modules with distinct names. */
  method BuildDistinct(sys: AstSystem) returns (res: Result<State, Failure>, ghost iterations: nat)
    requires ParsedSystem(sys) && Distinct(Map(sys.modules, (m: Module) => m.name))
    ensures AllValid(sys.modules, |sys.modules|) ==> Ended(sys, iterations, res)
    ensures !AllValid(sys.modules, |sys.modules|) ==> res == Err(Diagnosed(FirstRepeats(sys.modules)))
    ensures iterations <= CountState(InitialState(sys)) + 1
  {
    iterations := 0;
    var types := new MappedArena<Entry>();
    var modules := new MappedArena<Module>();
    var errors := Populate(sys, types, modules);
    if errors != [] { return Err(Diagnosed(errors)), iterations; }
    res, iterations := Fixpoint(sys, types, modules);
  }

  /** `build`, as to how it ends. */
  method BuildEnded(sys: AstSystem) returns (res: Result<State, Failure>, ghost iterations: nat)
    requires ParsedSystem(sys)
    ensures if ValidSystem(sys) then Ended(sys, iterations, res) else res == Err(Diagnosed(Refusal(sys)))
    ensures iterations <= CountState(InitialState(sys)) + 1
  {
    var errors := ValidateNoDuplicates(Map(sys.modules, (m: Module) => m.name));
    RepeatsNone(Map(sys.modules, (m: Module) => m.name));
    if errors != [] { return Err(Diagnosed(errors)), 0; }
    res, iterations := BuildDistinct(sys);
  }

  /** `build`.  Accepted means: no duplicate names, no panic, and a state after the last iteration that draws no
      diagnostic; that is, the program is well typed.  A panic needs a fault of the program, and a certain fault
      makes it panic; in a regular program every fault is certain.  What is well typed, what a fault is and which
      diagnostics there are is what the rules say. */
  method Build(sys: AstSystem) returns (res: Result<State, Failure>, ghost iterations: nat)
    requires ParsedSystem(sys)
    ensures if ValidSystem(sys) then Ended(sys, iterations, res) else res == Err(Diagnosed(Refusal(sys)))
    ensures iterations <= CountState(InitialState(sys)) + 1
    ensures ValidSystem(sys) ==> PanicsByFaults(sys, res) && AcceptsWellTyped(sys, res) && FollowsRules(sys, res)
  {
    res, iterations := BuildEnded(sys);
    if ValidSystem(sys) {
      PanicOutcome(sys, iterations, res);
      TypedOutcome(sys, iterations, res);
      RuleOutcome(sys, iterations, res);
    }
  }
}
