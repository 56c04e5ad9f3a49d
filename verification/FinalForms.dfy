/** What the final states of one program have in common. */
module FinalForms {
  import opened Wrappers
  import opened Ast
  import opened Passes
  import opened OneShot
  import opened EnvironmentLemmas
  import opened ExprSoundness
  import opened ExprCompletion
  import opened QuietForms
  import opened IdealForms
  import opened FieldTypeLemmas
  import opened Declarations
  import opened DeclarationSteps
  import opened Parts
  import opened PartPasses
  import opened PartFacts
  import opened PartShapes
  import opened IdealDeclarations
  import opened Typechecker
  import opened TypecheckerTheorems

  // ----- The parts of a final state -----

  ghost predicate FinalParts(p: Parts, env: Arena, env0: Arena) {
    && StateOf(env, env0) && EnvSettled(env)
    && SoundParts(p, env0) && ScopesOk(p, env0) && QuietParts(p, env)
  }

  lemma FinalModuleParts(sys: AstSystem, st: State, j: nat)
    requires Final(sys, st) && j < |st.modules|
    ensures FinalParts(ModuleParts(st.modules[j]), st.types, InitialTypes(sys))
  {
    var m := st.modules[j];
    FinalSettled(sys, st);
    InvStateOf(st, InitialState(sys));
    FinalModule(sys, st, j);
    SoundModuleParts(m, InitialTypes(sys));
    ModuleScopes(m, InitialTypes(sys));
    DigestModule(m, st.types);
  }

  lemma FinalEntryParts(sys: AstSystem, st: State, i: nat)
    requires Final(sys, st) && i < |st.types.values| && st.types.values[i].ModelEntry?
    ensures FinalParts(ModelParts(st.types.values[i].model), st.types, InitialTypes(sys))
  {
    var m := st.types.values[i].model;
    FinalSettled(sys, st);
    InvStateOf(st, InitialState(sys));
    FinalEntry(sys, st, i);
    SoundModelParts(m, InitialTypes(sys));
    ModelScopes(m, InitialTypes(sys));
    DigestModel(m, st.types);
  }

  // ----- What is resolved -----

  /** An expression that is heard is resolved, in every node, exactly when it has a one-shot type. */
  predicate UseExact(u: Use, env0: Arena) {
    u.heard ==> (AllComplete(u.expr) <==> Complete(Infer(u.expr, env0, u.scope)))
  }

  /** And flags say which names are known. */
  ghost predicate ExactParts(p: Parts, env0: Arena) {
    Every(p, (u: Use) => UseExact(u, env0), (t: FieldType) => FlagsSettled(t, env0.ids),
          (f: Fragment) => f.known <==> IsModelName(f.name, env0))
  }

  lemma FinalPartsExact(p: Parts, env: Arena, env0: Arena)
    requires FinalParts(p, env, env0)
    ensures ExactParts(p, env0)
  {
    forall k | 0 <= k < |p.uses| ensures UseExact(p.uses[k], env0) {
      var u := p.uses[k];
      assert UseQuiet(u, env) && Sound(u.expr, env0, u.scope) && ScopeOk(u.scope, env0);
      if u.heard { QuietExact(u.expr, env, env0, u.scope); }
    }
    forall k | 0 <= k < |p.types| ensures FlagsSettled(p.types[k], env0.ids) {
      assert !PassFieldType(p.types[k], env.ids).changed && FlagsSound(p.types[k], env0.ids);
      PassFlags(p.types[k], env.ids);
    }
    forall k | 0 <= k < |p.fragments| ensures p.fragments[k].known <==> IsModelName(p.fragments[k].name, env0) {
      assert !PassFragment(p.fragments[k], env).changed && SoundFragment(p.fragments[k], env0);
      SameModelName(p.fragments[k].name, env, env0);
    }
  }

  /** In every final state, of any program, accepted or not: an expression whose annotations are declared is resolved
      exactly when it has a one-shot type, and every flag says whether its name is known. */
  lemma FinalExact(sys: AstSystem, st: State)
    requires Final(sys, st)
    ensures forall j :: 0 <= j < |st.modules| ==> ExactParts(ModuleParts(st.modules[j]), InitialTypes(sys))
    ensures forall i :: 0 <= i < |st.types.values| && st.types.values[i].ModelEntry? ==>
                          ExactParts(ModelParts(st.types.values[i].model), InitialTypes(sys))
  {
    forall j | 0 <= j < |st.modules| ensures ExactParts(ModuleParts(st.modules[j]), InitialTypes(sys)) {
      FinalModuleParts(sys, st, j);
      FinalPartsExact(ModuleParts(st.modules[j]), st.types, InitialTypes(sys));
    }
    forall i | 0 <= i < |st.types.values| && st.types.values[i].ModelEntry?
      ensures ExactParts(ModelParts(st.types.values[i].model), InitialTypes(sys))
    {
      FinalEntryParts(sys, st, i);
      FinalPartsExact(ModelParts(st.types.values[i].model), st.types, InitialTypes(sys));
    }
  }

  // ----- Two final states -----

  /** Resolved in both or in neither, and equal when resolved. */
  predicate UseResolvedAlike(u: Use, v: Use) {
    u.heard == v.heard &&
    (u.heard ==> (AllComplete(u.expr) <==> AllComplete(v.expr)) && (AllComplete(u.expr) ==> v.expr == u.expr))
  }

  ghost predicate ResolvedAlike(p: Parts, q: Parts) {
    Alike(p, q, UseResolvedAlike, (t: FieldType, v: FieldType) => v == t, (f: Fragment, g: Fragment) => g == f)
  }

  lemma SettledTypes(p: Parts, q: Parts, env0: Arena)
    requires SameShape(p, q) && ExactParts(p, env0) && ExactParts(q, env0)
    ensures forall k :: 0 <= k < |p.types| ==> q.types[k] == p.types[k]
    ensures forall k :: 0 <= k < |p.fragments| ==> q.fragments[k] == p.fragments[k]
  {
    forall k | 0 <= k < |p.types| ensures q.types[k] == p.types[k] {
      assert FlagsSettled(p.types[k], env0.ids) && FlagsSettled(q.types[k], env0.ids);
      assert ShallowFieldType(q.types[k]) == ShallowFieldType(p.types[k]);
      BothSettledEqual(p.types[k], q.types[k], env0.ids);
    }
    forall k | 0 <= k < |p.fragments| ensures q.fragments[k] == p.fragments[k] {
      assert (p.fragments[k].known <==> IsModelName(p.fragments[k].name, env0)) &&
             (q.fragments[k].known <==> IsModelName(q.fragments[k].name, env0));
    }
  }

  lemma FinalPartsAlike(p: Parts, q: Parts, e1: Arena, e2: Arena, env0: Arena)
    requires FinalParts(p, e1, env0) && FinalParts(q, e2, env0) && SameShape(p, q)
    ensures ResolvedAlike(p, q)
  {
    FinalPartsExact(p, e1, env0);
    FinalPartsExact(q, e2, env0);
    SettledTypes(p, q, env0);
    forall k | 0 <= k < |p.uses| ensures UseResolvedAlike(p.uses[k], q.uses[k]) {
      var u, v := p.uses[k], q.uses[k];
      assert UseShape(u, v) && UseExact(u, env0) && UseExact(v, env0);
      assert Sound(u.expr, env0, u.scope) && Sound(v.expr, env0, v.scope);
      SameInfer(u.expr, v.expr, env0, u.scope);
      if u.heard && AllComplete(u.expr) {
        CompleteRoot(u.expr);
        CompleteRoot(v.expr);
        CompleteUnique(u.expr, v.expr, env0, u.scope);
      }
    }
  }

  lemma FinalShapes(sys: AstSystem, a: State, b: State)
    requires Final(sys, a) && Final(sys, b)
    ensures |a.modules| == |b.modules| && |a.types.values| == |b.types.values| && a.types.ids == b.types.ids
    ensures forall j :: 0 <= j < |a.modules| ==> SameShape(ModuleParts(a.modules[j]), ModuleParts(b.modules[j]))
    ensures forall i :: 0 <= i < |a.types.values| ==>
                          if a.types.values[i].ModelEntry? then
                            b.types.values[i].ModelEntry? &&
                            SameShape(ModelParts(a.types.values[i].model), ModelParts(b.types.values[i].model))
                          else b.types.values[i] == a.types.values[i]
  {
    var init := InitialState(sys);
    forall j | 0 <= j < |a.modules| ensures SameShape(ModuleParts(a.modules[j]), ModuleParts(b.modules[j])) {
      assert ModuleOk(a, init, j) && ModuleOk(b, init, j);
      ShapeModule(a.modules[j], b.modules[j]);
    }
    forall i | 0 <= i < |a.types.values|
      ensures if a.types.values[i].ModelEntry? then
                b.types.values[i].ModelEntry? &&
                SameShape(ModelParts(a.types.values[i].model), ModelParts(b.types.values[i].model))
              else b.types.values[i] == a.types.values[i]
    {
      assert EntryOk(a, init, i) && EntryOk(b, init, i);
      if a.types.values[i].ModelEntry? && b.types.values[i].ModelEntry? {
        ShapeModel(a.types.values[i].model, b.types.values[i].model);
      }
    }
  }

  /** Any two final states of any program, whatever orders led to them, resolve the same expressions to the same types
      (of those whose annotations are declared), and agree on every field type and fragment reference. */
  lemma FinalsResolveAlike(sys: AstSystem, a: State, b: State)
    requires Final(sys, a) && Final(sys, b)
    ensures |a.modules| == |b.modules| && |a.types.values| == |b.types.values|
    ensures forall j :: 0 <= j < |a.modules| ==> ResolvedAlike(ModuleParts(a.modules[j]), ModuleParts(b.modules[j]))
    ensures forall i :: 0 <= i < |a.types.values| ==>
                          if a.types.values[i].ModelEntry? then
                            b.types.values[i].ModelEntry? &&
                            ResolvedAlike(ModelParts(a.types.values[i].model), ModelParts(b.types.values[i].model))
                          else b.types.values[i] == a.types.values[i]
  {
    FinalShapes(sys, a, b);
    forall j | 0 <= j < |a.modules| ensures ResolvedAlike(ModuleParts(a.modules[j]), ModuleParts(b.modules[j])) {
      FinalModuleParts(sys, a, j);
      FinalModuleParts(sys, b, j);
      FinalPartsAlike(ModuleParts(a.modules[j]), ModuleParts(b.modules[j]), a.types, b.types, InitialTypes(sys));
    }
    forall i | 0 <= i < |a.types.values| && a.types.values[i].ModelEntry?
      ensures ResolvedAlike(ModelParts(a.types.values[i].model), ModelParts(b.types.values[i].model))
    {
      FinalEntryParts(sys, a, i);
      FinalEntryParts(sys, b, i);
      FinalPartsAlike(ModelParts(a.types.values[i].model), ModelParts(b.types.values[i].model), a.types, b.types,
                      InitialTypes(sys));
    }
  }

  // ----- Whole states -----

  /** The same, up to the marker of unresolved slots. */
  ghost predicate SameParts(p: Parts, q: Parts) {
    Alike(p, q, (u: Use, v: Use) => Blank(v.expr) == Blank(u.expr), (t: FieldType, v: FieldType) => v == t,
          (f: Fragment, g: Fragment) => g == f)
  }

  ghost predicate SameEntry(a: Entry, b: Entry) {
    if a.ModelEntry? then b.ModelEntry? && SameParts(ModelParts(a.model), ModelParts(b.model)) else b == a
  }

  ghost predicate SameStates(a: State, b: State) {
    && |b.modules| == |a.modules| &&
       (forall j :: 0 <= j < |a.modules| ==> SameParts(ModuleParts(a.modules[j]), ModuleParts(b.modules[j])))
    && |b.types.values| == |a.types.values| &&
       (forall i :: 0 <= i < |a.types.values| ==> SameEntry(a.types.values[i], b.types.values[i]))
  }

  ghost predicate HeardParts(p: Parts) {
    Every(p, (u: Use) => u.heard && u.visited, (t: FieldType) => true, (f: Fragment) => true)
  }

  ghost predicate FreeParts(p: Parts, env0: Arena) {
    Every(p, (u: Use) => SetFieldFree(u.expr, env0, u.scope), (t: FieldType) => true, (f: Fragment) => true)
  }

  /** Every annotation of the program is declared. */
  ghost predicate AllHeard(st: State) {
    && (forall j :: 0 <= j < |st.modules| ==> HeardParts(ModuleParts(st.modules[j])))
    && (forall i :: 0 <= i < |st.types.values| && st.types.values[i].ModelEntry? ==>
          HeardParts(ModelParts(st.types.values[i].model)))
  }

  /** No expression of the program selects a plain field on a set, by the one-shot types. */
  ghost predicate NoSetFields(st: State, env0: Arena) {
    && (forall j :: 0 <= j < |st.modules| ==> FreeParts(ModuleParts(st.modules[j]), env0))
    && (forall i :: 0 <= i < |st.types.values| && st.types.values[i].ModelEntry? ==>
          FreeParts(ModelParts(st.types.values[i].model), env0))
  }

  lemma HeardShape(p: Parts, q: Parts)
    requires SameShape(p, q) && HeardParts(p)
    ensures HeardParts(q)
  {
    forall k | 0 <= k < |q.uses| ensures q.uses[k].heard && q.uses[k].visited {
      assert UseShape(p.uses[k], q.uses[k]) && p.uses[k].heard && p.uses[k].visited;
    }
  }

  lemma FreeShape(p: Parts, q: Parts, env0: Arena)
    requires SameShape(p, q) && FreeParts(p, env0)
    ensures FreeParts(q, env0)
  {
    forall k | 0 <= k < |q.uses| ensures SetFieldFree(q.uses[k].expr, env0, q.uses[k].scope) {
      var u, v := p.uses[k], q.uses[k];
      assert UseShape(u, v) && SetFieldFree(u.expr, env0, u.scope);
      SameSetFieldFree(u.expr, v.expr, env0, u.scope);
    }
  }

  lemma ShapeBack(p: Parts, q: Parts)
    requires SameShape(p, q)
    ensures SameShape(q, p)
  {
    forall k | 0 <= k < |q.uses| ensures UseShape(q.uses[k], p.uses[k]) { assert UseShape(p.uses[k], q.uses[k]); }
    forall k | 0 <= k < |q.types| ensures ShallowFieldType(p.types[k]) == ShallowFieldType(q.types[k]) {
      assert ShallowFieldType(q.types[k]) == ShallowFieldType(p.types[k]);
    }
  }

  lemma FreePartsSame(p: Parts, q: Parts, e1: Arena, e2: Arena, env0: Arena)
    requires FinalParts(p, e1, env0) && FinalParts(q, e2, env0) && SameShape(p, q) && HeardParts(p) &&
             FreeParts(p, env0)
    ensures SameParts(p, q)
  {
    FinalPartsExact(p, e1, env0);
    FinalPartsExact(q, e2, env0);
    SettledTypes(p, q, env0);
    forall k | 0 <= k < |p.uses| ensures Blank(q.uses[k].expr) == Blank(p.uses[k].expr) {
      var u, v := p.uses[k], q.uses[k];
      assert UseShape(u, v) && u.heard && SetFieldFree(u.expr, env0, u.scope);
      assert UseQuiet(u, e1) && UseQuiet(v, e2) && ScopeOk(u.scope, env0);
      assert Sound(u.expr, env0, u.scope) && Sound(v.expr, env0, v.scope);
      QuietUnique(u.expr, v.expr, e1, e2, env0, u.scope);
    }
  }

  /** Without plain fields on sets, all final states are the same. */
  lemma FreeFinalsSame(sys: AstSystem, a: State, b: State)
    requires Final(sys, a) && Final(sys, b) && AllHeard(a) && NoSetFields(a, InitialTypes(sys))
    ensures SameStates(a, b)
  {
    FinalShapes(sys, a, b);
    forall j | 0 <= j < |a.modules| ensures SameParts(ModuleParts(a.modules[j]), ModuleParts(b.modules[j])) {
      FinalModuleParts(sys, a, j);
      FinalModuleParts(sys, b, j);
      FreePartsSame(ModuleParts(a.modules[j]), ModuleParts(b.modules[j]), a.types, b.types, InitialTypes(sys));
    }
    forall i | 0 <= i < |a.types.values| ensures SameEntry(a.types.values[i], b.types.values[i]) {
      if a.types.values[i].ModelEntry? {
        FinalEntryParts(sys, a, i);
        FinalEntryParts(sys, b, i);
        FreePartsSame(ModelParts(a.types.values[i].model), ModelParts(b.types.values[i].model), a.types, b.types,
                      InitialTypes(sys));
      }
    }
  }

  // ----- The ideal states -----

  function IdealEntry(e: Entry, env0: Arena, loose: bool): Entry {
    if e.ModelEntry? then ModelEntry(IdealModel(e.model, env0, loose)) else e
  }

  function IdealState(st: State, env0: Arena, loose: bool): State {
    State(Arena(Map(st.types.values, (e: Entry) => IdealEntry(e, env0, loose)), st.types.ids),
          Map(st.modules, (m: Module) => IdealModule(m, env0, loose)))
  }

  lemma {:induction false} SingleShape(a: Expr, b: Expr)
    requires ShallowExpr(a) == ShallowExpr(b) && SingleParameter(a)
    ensures SingleParameter(b)
    decreases a, 0
  {
    match a
    case Lit(_) =>
    case Select(s) => SingleSelectionShape(s, b.sel);
    case Not(x, _) => SingleShape(x, b.arg);
    case Logical(_, l, r, _) => SingleShape(l, b.left); SingleShape(r, b.right);
    case Relational(_, l, r, _) => SingleShape(l, b.left); SingleShape(r, b.right);
  }

  lemma {:induction false} SingleSelectionShape(a: Selection, b: Selection)
    requires ShallowSelection(a) == ShallowSelection(b) && SelectionSingleParameter(a)
    ensures SelectionSingleParameter(b)
    decreases a, 0
  {
    if a.Path? {
      SingleSelectionShape(a.prefix, b.prefix);
      if a.elem.HofCall? { SingleShape(a.elem.body, b.elem.body); }
      if a.elem.NormalCall? { assert |ShallowExprs(a.elem.params)| == |ShallowExprs(b.elem.params)|; }
    }
  }

  lemma SingleModuleShape(a: Module, b: Module)
    requires ShallowModule(a) == ShallowModule(b) && SingleModule(a)
    ensures SingleModule(b)
  {
    SingleModuleParts(a);
    SingleModuleParts(b);
    ShapeModule(a, b);
    var p, q := ModuleParts(a), ModuleParts(b);
    forall k | 0 <= k < |q.uses| ensures SingleParameter(q.uses[k].expr) {
      assert UseShape(p.uses[k], q.uses[k]) && SingleParameter(p.uses[k].expr);
      SingleShape(p.uses[k].expr, q.uses[k].expr);
    }
  }

  lemma IdealEntryOk(sys: AstSystem, st: State, i: nat, loose: bool)
    requires Final(sys, st) && i < |st.types.values|
    ensures EntryOk(IdealState(st, InitialTypes(sys), loose), InitialState(sys), i)
  {
    var env0, init := InitialTypes(sys), InitialState(sys);
    var e := st.types.values[i];
    assert EntryOk(st, init, i);
    assert IdealState(st, env0, loose).types.values[i] == IdealEntry(e, env0, loose);
    if e.ModelEntry? {
      FinalEntryParts(sys, st, i);
      FinalEntry(sys, st, i);
      var m := IdealModel(e.model, env0, loose);
      IdealModelParts(e.model, env0, loose);
      IdealSoundParts(ModelParts(e.model), ModelParts(m), st.types, env0, loose);
      SoundModelParts(m, env0);
      IdealModelShape(e.model, st.types, env0, loose);
    }
  }

  lemma IdealModuleOk(sys: AstSystem, st: State, j: nat, loose: bool)
    requires Final(sys, st) && j < |st.modules|
    ensures ModuleOk(IdealState(st, InitialTypes(sys), loose), InitialState(sys), j)
  {
    var env0, init := InitialTypes(sys), InitialState(sys);
    var m := st.modules[j];
    assert ModuleOk(st, init, j);
    FinalModuleParts(sys, st, j);
    var r := IdealModule(m, env0, loose);
    assert IdealState(st, env0, loose).modules[j] == r;
    IdealModuleParts(m, env0, loose);
    IdealSoundParts(ModuleParts(m), ModuleParts(r), st.types, env0, loose);
    SoundModuleParts(m, env0);
    assert forall i :: 0 <= i < |r.types| ==> r.types[i].name == m.types[i].name;
    SoundModuleParts(r, env0);
    IdealModuleShape(m, st.types, env0, loose);
    if SingleModule(init.modules[j]) { SingleModuleShape(init.modules[j], r); }
  }

  lemma IdealInv(sys: AstSystem, st: State, loose: bool)
    requires Final(sys, st)
    ensures Inv(IdealState(st, InitialTypes(sys), loose), InitialState(sys))
  {
    var s := IdealState(st, InitialTypes(sys), loose);
    forall i: nat | i < |s.types.values| ensures EntryOk(s, InitialState(sys), i) { IdealEntryOk(sys, st, i, loose); }
    forall j: nat | j < |s.modules| ensures ModuleOk(s, InitialState(sys), j) { IdealModuleOk(sys, st, j, loose); }
  }

  lemma IdealSettled(sys: AstSystem, st: State, loose: bool)
    requires Final(sys, st)
    ensures EnvSettled(IdealState(st, InitialTypes(sys), loose).types)
  {
    FinalSettled(sys, st);
    var env := IdealState(st, InitialTypes(sys), loose).types;
    forall i, j | 0 <= i < |env.values| && env.values[i].ModelEntry? && 0 <= j < |env.values[i].model.fields|
      ensures FlagsSettled(env.values[i].model.fields[j].typ, env.ids)
    {
      assert env.values[i] == IdealEntry(st.types.values[i], InitialTypes(sys), loose);
      assert env.values[i].model.fields[j].typ == st.types.values[i].model.fields[j].typ;
    }
  }

  /** Parts that are quiet in one state of the environment have ideal forms that are quiet in every settled one. */
  lemma IdealPartsQuiet(p: Parts, q: Parts, env: Arena, env': Arena, env0: Arena, loose: bool)
    requires FinalParts(p, env, env0) && StateOf(env', env0) && EnvSettled(env') && IdealParts(p, q, env0, loose)
    ensures QuietParts(q, env')
  {
    forall k | 0 <= k < |p.fragments| ensures !PassFragment(p.fragments[k], env').changed {
      assert !PassFragment(p.fragments[k], env).changed;
      SameModelName(p.fragments[k].name, env, env0);
      SameModelName(p.fragments[k].name, env', env0);
    }
    forall k | 0 <= k < |p.types| ensures !PassFieldType(p.types[k], env'.ids).changed {
      assert !PassFieldType(p.types[k], env.ids).changed;
    }
    IdealQuietParts(p, q, env', env0, loose);
  }

  /** The environment of an ideal state. */
  ghost predicate IdealEnv(env: Arena, sys: AstSystem, st: State) {
    Final(sys, st) && StateOf(env, InitialTypes(sys)) && EnvSettled(env)
  }

  lemma IdealEntryQuiet(sys: AstSystem, st: State, env: Arena, i: nat, loose: bool)
    requires IdealEnv(env, sys, st) && i < |st.types.values| && st.types.values[i].ModelEntry?
    ensures !PassModel(IdealModel(st.types.values[i].model, InitialTypes(sys), loose), env).changed
  {
    var m, env0 := st.types.values[i].model, InitialTypes(sys);
    FinalEntryParts(sys, st, i);
    IdealModelParts(m, env0, loose);
    IdealPartsQuiet(ModelParts(m), ModelParts(IdealModel(m, env0, loose)), st.types, env, env0, loose);
    DigestModel(IdealModel(m, env0, loose), env);
  }

  lemma IdealModuleQuiet(sys: AstSystem, st: State, env: Arena, j: nat, loose: bool)
    requires IdealEnv(env, sys, st) && j < |st.modules|
    ensures !PassModule(IdealModule(st.modules[j], InitialTypes(sys), loose), env).changed
  {
    var m, env0 := st.modules[j], InitialTypes(sys);
    FinalModuleParts(sys, st, j);
    IdealModuleParts(m, env0, loose);
    IdealPartsQuiet(ModuleParts(m), ModuleParts(IdealModule(m, env0, loose)), st.types, env, env0, loose);
    DigestModule(IdealModule(m, env0, loose), env);
  }

  /** With every expression in either ideal form, the state is final, too. */
  lemma IdealFinal(sys: AstSystem, st: State, loose: bool)
    requires Final(sys, st)
    ensures Final(sys, IdealState(st, InitialTypes(sys), loose))
  {
    var env0 := InitialTypes(sys);
    var s := IdealState(st, env0, loose);
    IdealInv(sys, st, loose);
    InvStateOf(s, InitialState(sys));
    IdealSettled(sys, st, loose);
    forall i | 0 <= i < |s.types.values| ensures !TypePass(s, i).changed {
      assert s.types.values[i] == IdealEntry(st.types.values[i], env0, loose);
      if st.types.values[i].ModelEntry? { IdealEntryQuiet(sys, st, s.types, i, loose); }
    }
    forall j | 0 <= j < |s.modules| ensures !ModulePass(s, j).changed {
      assert s.modules[j] == IdealModule(st.modules[j], env0, loose);
      IdealModuleQuiet(sys, st, s.types, j, loose);
    }
  }

  lemma NotFree(p: Parts, env0: Arena) returns (k: nat)
    requires !FreeParts(p, env0)
    ensures k < |p.uses| && !SetFieldFree(p.uses[k].expr, env0, p.uses[k].scope)
  {
    k :| 0 <= k < |p.uses| && !SetFieldFree(p.uses[k].expr, env0, p.uses[k].scope);
  }

  lemma IdealPartsDiffer(p: Parts, q1: Parts, q2: Parts, env: Arena, env0: Arena)
    requires FinalParts(p, env, env0) && !FreeParts(p, env0) && IdealParts(p, q1, env0, true) &&
             IdealParts(p, q2, env0, false)
    ensures !SameParts(q1, q2)
  {
    var k := NotFree(p, env0);
    UseDiffers(p, q1, q2, k, env, env0);
  }

  lemma UseDiffers(p: Parts, q1: Parts, q2: Parts, k: nat, env: Arena, env0: Arena)
    requires FinalParts(p, env, env0) && IdealParts(p, q1, env0, true) && IdealParts(p, q2, env0, false)
    requires k < |p.uses| && !SetFieldFree(p.uses[k].expr, env0, p.uses[k].scope)
    ensures !SameParts(q1, q2)
  {
    FinalUse(p, k, env, env0);
    IdealPart(p, q1, k, env0, true);
    IdealPart(p, q2, k, env0, false);
    IdealsDiffer(p.uses[k].expr, env, env0, p.uses[k].scope);
    DifferentUse(q1, q2, k, Ideal(p.uses[k].expr, env0, p.uses[k].scope, true),
                 Ideal(p.uses[k].expr, env0, p.uses[k].scope, false));
  }

  lemma FinalUse(p: Parts, k: nat, env: Arena, env0: Arena)
    requires FinalParts(p, env, env0) && k < |p.uses|
    ensures Sound(p.uses[k].expr, env0, p.uses[k].scope) && ScopeOk(p.uses[k].scope, env0)
  {
  }

  lemma IdealPart(p: Parts, q: Parts, k: nat, env0: Arena, loose: bool)
    requires IdealParts(p, q, env0, loose) && k < |p.uses|
    ensures k < |q.uses| && q.uses[k].expr == Ideal(p.uses[k].expr, env0, p.uses[k].scope, loose)
  {
    assert q.uses[k] == IdealUse(p.uses[k], env0, loose);
  }

  lemma DifferentUse(q1: Parts, q2: Parts, k: nat, x: Expr, y: Expr)
    requires k < |q1.uses| && k < |q2.uses| && q1.uses[k].expr == x && q2.uses[k].expr == y && Blank(x) != Blank(y)
    ensures !SameParts(q1, q2)
  {
  }

  lemma IdealStatesDiffer(sys: AstSystem, st: State)
    requires Final(sys, st) && !NoSetFields(st, InitialTypes(sys))
    ensures !SameStates(IdealState(st, InitialTypes(sys), true), IdealState(st, InitialTypes(sys), false))
  {
    var env0 := InitialTypes(sys);
    var a, b := IdealState(st, env0, true), IdealState(st, env0, false);
    if j :| 0 <= j < |st.modules| && !FreeParts(ModuleParts(st.modules[j]), env0) {
      var m := st.modules[j];
      FinalModuleParts(sys, st, j);
      IdealModuleParts(m, env0, true);
      IdealModuleParts(m, env0, false);
      IdealPartsDiffer(ModuleParts(m), ModuleParts(IdealModule(m, env0, true)),
                       ModuleParts(IdealModule(m, env0, false)), st.types, env0);
      assert a.modules[j] == IdealModule(m, env0, true) && b.modules[j] == IdealModule(m, env0, false);
    } else {
      var i :| 0 <= i < |st.types.values| && st.types.values[i].ModelEntry? &&
      !FreeParts(ModelParts(st.types.values[i].model), env0);
      var m := st.types.values[i].model;
      FinalEntryParts(sys, st, i);
      IdealModelParts(m, env0, true);
      IdealModelParts(m, env0, false);
      IdealPartsDiffer(ModelParts(m), ModelParts(IdealModel(m, env0, true)), ModelParts(IdealModel(m, env0, false)),
                       st.types, env0);
      assert a.types.values[i] == ModelEntry(IdealModel(m, env0, true)) &&
             b.types.values[i] == ModelEntry(IdealModel(m, env0, false));
      assert !SameEntry(a.types.values[i], b.types.values[i]);
    }
  }

  lemma HeardFinal(sys: AstSystem, a: State, b: State)
    requires Final(sys, a) && Final(sys, b)
    ensures AllHeard(a) ==> AllHeard(b)
    ensures NoSetFields(a, InitialTypes(sys)) ==> NoSetFields(b, InitialTypes(sys))
  {
    FinalShapes(sys, a, b);
    forall j | 0 <= j < |a.modules|
      ensures HeardParts(ModuleParts(a.modules[j])) ==> HeardParts(ModuleParts(b.modules[j]))
      ensures FreeParts(ModuleParts(a.modules[j]), InitialTypes(sys)) ==>
                FreeParts(ModuleParts(b.modules[j]), InitialTypes(sys))
    {
      var p, q := ModuleParts(a.modules[j]), ModuleParts(b.modules[j]);
      if HeardParts(p) { HeardShape(p, q); }
      if FreeParts(p, InitialTypes(sys)) { FreeShape(p, q, InitialTypes(sys)); }
    }
    forall i | 0 <= i < |a.types.values| && a.types.values[i].ModelEntry?
      ensures HeardParts(ModelParts(a.types.values[i].model)) ==> HeardParts(ModelParts(b.types.values[i].model))
      ensures FreeParts(ModelParts(a.types.values[i].model), InitialTypes(sys)) ==>
                FreeParts(ModelParts(b.types.values[i].model), InitialTypes(sys))
    {
      var p, q := ModelParts(a.types.values[i].model), ModelParts(b.types.values[i].model);
      if HeardParts(p) { HeardShape(p, q); }
      if FreeParts(p, InitialTypes(sys)) { FreeShape(p, q, InitialTypes(sys)); }
    }
  }

  /** All final states of a program whose annotations are declared agree, up to the marker of unresolved slots, exactly
      when no expression selects a plain field on a set. */
  lemma FinalsSameExactly(sys: AstSystem, st: State)
    requires Final(sys, st) && AllHeard(st)
    ensures NoSetFields(st, InitialTypes(sys)) <==> forall a, b :: Final(sys, a) && Final(sys, b) ==> SameStates(a, b)
  {
    var env0 := InitialTypes(sys);
    if NoSetFields(st, env0) {
      forall a, b | Final(sys, a) && Final(sys, b) ensures SameStates(a, b) {
        HeardFinal(sys, st, a);
        FreeFinalsSame(sys, a, b);
      }
    } else {
      IdealFinal(sys, st, true);
      IdealFinal(sys, st, false);
      IdealStatesDiffer(sys, st);
    }
  }
}
