/** Which programs are accepted, and what the typechecker has made of them. */
module Acceptance {
  import opened Wrappers
  import opened Ast
  import opened Passes
  import opened OneShot
  import opened EnvironmentLemmas
  import opened ExprSoundness
  import opened ExprCompletion
  import opened QuietForms
  import opened FieldTypeLemmas
  import opened Declarations
  import opened DeclarationSteps
  import opened DeclarationCompletion
  import opened Parts
  import opened PartPasses
  import opened PartFacts
  import opened PartShapes
  import opened Typechecker
  import opened TypecheckerTheorems
  import opened FinalForms

  // ----- Well-typed programs -----

  /** Every name is known, every expression has a type, and the module follows the rules of its own. */
  ghost predicate WellTypedModule(m: Module, env0: Arena) {
    OwnModule(m) && TypedParts(ModuleParts(m), env0)
  }

  ghost predicate TypedParts(p: Parts, env0: Arena) {
    Every(p, (u: Use) => Complete(Infer(u.expr, env0, u.scope)), (t: FieldType) => NamesKnown(t, env0.ids),
          (f: Fragment) => true)
  }

  ghost predicate WellTyped(sys: AstSystem) {
    && RootErrors(sys.types, InitialTypes(sys)) == [] && NonModelErrors(AllTypes(sys), InitialTypes(sys)) == []
    && forall j :: 0 <= j < |sys.modules| ==> WellTypedModule(sys.modules[j], InitialTypes(sys))
  }

  // ----- The rules of a declaration's own concern its shape only -----

  lemma OwnAnnotationsShape(a: AnnotationMap, b: AnnotationMap)
    requires ShallowAnnotations(a) == ShallowAnnotations(b)
    ensures OwnAnnotations(a) <==> OwnAnnotations(b)
    ensures HasInterceptorAnnotation(a) <==> HasInterceptorAnnotation(b)
    ensures |a.annotations| == |b.annotations|
  {
    SameMap(a.annotations, b.annotations, ShallowAnnotation);
    forall i | 0 <= i < |a.annotations|
      ensures a.annotations[i].declared == b.annotations[i].declared &&
              a.annotations[i].misused == b.annotations[i].misused
      ensures a.annotations[i].name == b.annotations[i].name
    {
      assert ShallowAnnotation(a.annotations[i]) == ShallowAnnotation(b.annotations[i]);
    }
  }

  lemma OwnFieldsShape(a: seq<Field>, b: seq<Field>)
    requires Map(a, ShallowField) == Map(b, ShallowField)
    ensures OwnSilence(a, OwnField) <==> OwnSilence(b, OwnField)
    ensures forall kind :: OwnContext(kind, a) <==> OwnContext(kind, b)
  {
    SameMap(a, b, ShallowField);
    forall i | 0 <= i < |a|
      ensures (OwnField(a[i]) <==> OwnField(b[i])) && (a[i].default.NoDefault? <==> b[i].default.NoDefault?)
    {
      assert ShallowField(a[i]) == ShallowField(b[i]);
      OwnAnnotationsShape(a[i].annotations, b[i].annotations);
    }
  }

  lemma OwnModelShape(a: Model, b: Model)
    requires ShallowModel(a) == ShallowModel(b)
    ensures OwnModel(a) <==> OwnModel(b)
  {
    OwnFieldsShape(a.fields, b.fields);
    OwnAnnotationsShape(a.annotations, b.annotations);
  }

  lemma OwnCallablesShape(a: seq<Callable>, b: seq<Callable>)
    requires Map(a, ShallowCallable) == Map(b, ShallowCallable)
    ensures OwnSilence(a, OwnCallable) <==> OwnSilence(b, OwnCallable)
  {
    SameMap(a, b, ShallowCallable);
    forall i | 0 <= i < |a| ensures OwnCallable(a[i]) <==> OwnCallable(b[i]) {
      assert ShallowCallable(a[i]) == ShallowCallable(b[i]);
      OwnFieldsShape(a[i].args, b[i].args);
      OwnAnnotationsShape(a[i].annotations, b[i].annotations);
    }
  }

  lemma OwnModuleShape(a: Module, b: Module)
    requires ShallowModule(a) == ShallowModule(b)
    ensures OwnModule(a) <==> OwnModule(b)
  {
    SameMap(a.types, b.types, ShallowModel);
    forall i | 0 <= i < |a.types| ensures OwnModel(a.types[i]) <==> OwnModel(b.types[i]) {
      assert ShallowModel(a.types[i]) == ShallowModel(b.types[i]);
      OwnModelShape(a.types[i], b.types[i]);
    }
    OwnCallablesShape(a.methods, b.methods);
    OwnCallablesShape(a.interceptors, b.interceptors);
    OwnAnnotationsShape(a.annotations, b.annotations);
  }

  lemma DeclaredHeard(m: AnnotationMap, sc: Scope)
    requires OwnAnnotations(m)
    ensures OfAnnotations(m, sc, (u: Use) => u.heard && u.visited)
  {
    var k := FirstUndeclared(m.annotations);
    assert k == |m.annotations|;
  }

  lemma OwnFieldsHeard(fs: seq<Field>, sc: Scope)
    requires OwnSilence(fs, OwnField)
    ensures OfFields(fs, sc, (u: Use) => u.heard && u.visited, (t: FieldType) => true)
  {
    forall i | 0 <= i < |fs| ensures OfField(fs[i], sc, (u: Use) => u.heard && u.visited, (t: FieldType) => true) {
      assert OwnField(fs[i]);
      DeclaredHeard(fs[i].annotations, sc);
    }
  }

  lemma OwnCallablesHeard(cs: seq<Callable>)
    requires OwnSilence(cs, OwnCallable)
    ensures forall i :: 0 <= i < |cs| ==> OfCallable(cs[i], (u: Use) => u.heard && u.visited, (t: FieldType) => true)
  {
    forall i | 0 <= i < |cs| ensures OfCallable(cs[i], (u: Use) => u.heard && u.visited, (t: FieldType) => true) {
      assert OwnCallable(cs[i]);
      OwnFieldsHeard(cs[i].args, NO_SCOPE);
      DeclaredHeard(cs[i].annotations, NO_SCOPE);
    }
  }

  lemma OwnModuleHeard(m: Module)
    requires OwnModule(m)
    ensures HeardParts(ModuleParts(m))
  {
    var heard, all, any := (u: Use) => u.heard && u.visited, (t: FieldType) => true, (f: Fragment) => true;
    forall i | 0 <= i < |m.types| ensures OfModel(m.types[i], heard, all, any) {
      assert OwnModel(m.types[i]);
      OwnFieldsHeard(m.types[i].fields, ModelScope(m.types[i].name));
      DeclaredHeard(m.types[i].annotations, ModelScope(m.types[i].name));
    }
    OwnCallablesHeard(m.methods);
    OwnCallablesHeard(m.interceptors);
    DeclaredHeard(m.annotations, NO_SCOPE);
    EveryModule(m, heard, all, any);
  }

  // ----- A final module draws no diagnostic exactly when it is well typed -----

  lemma {:induction false} TypeErrors(ft: FieldType, ids: map<string, nat>)
    requires FlagsSound(ft, ids)
    ensures PassFieldType(ft, ids).errors == [] <==> NamesKnown(ft, ids)
    decreases ft, 0
  {
    match ft
    case OptionalField(u) => TypeErrors(u, ids);
    case Plain(n, params, ok) => AllTypeErrors(params, ids);
  }

  lemma {:induction false} AllTypeErrors(fts: seq<FieldType>, ids: map<string, nat>)
    requires forall i :: 0 <= i < |fts| ==> FlagsSound(fts[i], ids)
    ensures PassFieldTypes(fts, ids).errors == [] <==> forall i :: 0 <= i < |fts| ==> NamesKnown(fts[i], ids)
    decreases fts, 1
  {
    if fts != [] {
      TypeErrors(fts[0], ids);
      AllTypeErrors(fts[1..], ids);
      assert forall i :: 0 < i < |fts| ==> fts[i] == fts[1..][i - 1];
    }
  }

  lemma {:induction false} NamesKnownShape(a: FieldType, b: FieldType, ids: map<string, nat>)
    requires ShallowFieldType(a) == ShallowFieldType(b) && NamesKnown(a, ids)
    ensures NamesKnown(b, ids)
  {
    match a
    case OptionalField(u) => NamesKnownShape(u, b.inner, ids);
    case Plain(n, params, ok) =>
      assert |params| == |ShallowFieldTypes(params)| == |b.params|;
      forall i | 0 <= i < |params| ensures NamesKnown(b.params[i], ids) {
        assert ShallowFieldType(params[i]) == ShallowFieldTypes(params)[i] == ShallowFieldType(b.params[i]);
        NamesKnownShape(params[i], b.params[i], ids);
      }
  }

  lemma TypedShape(p: Parts, q: Parts, env0: Arena)
    requires SameShape(p, q) && TypedParts(p, env0)
    ensures TypedParts(q, env0)
  {
    forall k | 0 <= k < |q.uses| ensures Complete(Infer(q.uses[k].expr, env0, q.uses[k].scope)) {
      assert UseShape(p.uses[k], q.uses[k]) && Complete(Infer(p.uses[k].expr, env0, p.uses[k].scope));
      SameInfer(p.uses[k].expr, q.uses[k].expr, env0, p.uses[k].scope);
    }
    forall k | 0 <= k < |q.types| ensures NamesKnown(q.types[k], env0.ids) {
      assert ShallowFieldType(q.types[k]) == ShallowFieldType(p.types[k]) && NamesKnown(p.types[k], env0.ids);
      NamesKnownShape(p.types[k], q.types[k], env0.ids);
    }
  }

  /** What has types is resolved, and draws no diagnostic. */
  lemma TypedClean(p: Parts, env: Arena, env0: Arena)
    requires FinalParts(p, env, env0) && HeardParts(p) && TypedParts(p, env0)
    ensures CleanParts(p, env)
  {
    FinalPartsExact(p, env, env0);
    forall k | 0 <= k < |p.uses| ensures UseClean(p.uses[k], env) {
      var u := p.uses[k];
      assert u.heard && UseExact(u, env0) && Complete(Infer(u.expr, env0, u.scope));
      FinalUse(p, k, env, env0);
      CompleteRoot(u.expr);
      CompleteIdle(u.expr, env, env0, u.scope);
    }
    forall k | 0 <= k < |p.types| ensures PassFieldType(p.types[k], env.ids).errors == [] {
      assert FlagsSound(p.types[k], env0.ids) && NamesKnown(p.types[k], env0.ids);
      TypeErrors(p.types[k], env.ids);
    }
  }

  lemma CleanTyped(p: Parts, env: Arena, env0: Arena)
    requires FinalParts(p, env, env0) && HeardParts(p) && CleanParts(p, env) && CompleteParts(p)
    ensures TypedParts(p, env0)
  {
    FinalPartsExact(p, env, env0);
    forall k | 0 <= k < |p.uses| ensures Complete(Infer(p.uses[k].expr, env0, p.uses[k].scope)) {
      assert UseExact(p.uses[k], env0) && p.uses[k].heard && AllComplete(p.uses[k].expr);
    }
    forall k | 0 <= k < |p.types| ensures NamesKnown(p.types[k], env0.ids) {
      assert PassFieldType(p.types[k], env.ids).errors == [] && FlagsSound(p.types[k], env0.ids);
      TypeErrors(p.types[k], env.ids);
    }
  }

  lemma ModuleTyped(sys: AstSystem, st: State, j: nat)
    requires Final(sys, st) && j < |st.modules| && CompleteModule(st.modules[j]) &&
             PassModule(st.modules[j], st.types).errors == []
    ensures WellTypedModule(sys.modules[j], InitialTypes(sys))
  {
    var m, env0 := st.modules[j], InitialTypes(sys);
    FinalModule(sys, st, j);
    FinalModuleParts(sys, st, j);
    DigestModule(m, st.types);
    OwnModuleHeard(m);
    CompleteModuleParts(m);
    CleanTyped(ModuleParts(m), st.types, env0);
    OwnModuleShape(m, sys.modules[j]);
    ShapeModule(m, sys.modules[j]);
    TypedShape(ModuleParts(m), ModuleParts(sys.modules[j]), env0);
  }

  lemma TypedModuleClean(sys: AstSystem, st: State, j: nat)
    requires Final(sys, st) && j < |st.modules| && j < |sys.modules| &&
             WellTypedModule(sys.modules[j], InitialTypes(sys))
    ensures PassModule(st.modules[j], st.types).errors == []
  {
    var m, env0 := st.modules[j], InitialTypes(sys);
    FinalModule(sys, st, j);
    FinalModuleParts(sys, st, j);
    OwnModuleShape(sys.modules[j], m);
    OwnModuleHeard(m);
    ShapeModule(sys.modules[j], m);
    TypedShape(ModuleParts(sys.modules[j]), ModuleParts(m), env0);
    TypedClean(ModuleParts(m), st.types, env0);
    DigestModule(m, st.types);
  }

  lemma CleanModuleTyped(sys: AstSystem, st: State, j: nat)
    requires Final(sys, st) && KnownSystem(sys) && SingleSystem(sys) && ModuleErrors(st.modules, st.types) == []
    requires j < |st.modules| && j < |sys.modules| && PassModule(st.modules[j], st.types).errors == []
    ensures WellTypedModule(sys.modules[j], InitialTypes(sys))
  {
    CleanComplete(sys, st, j);
    ModuleTyped(sys, st, j);
  }

  /** What is reported of types outside modules, and of names that are no types, does not depend on the passes. */
  lemma InitialErrors(sys: AstSystem, st: State)
    requires Final(sys, st)
    ensures RootErrors(sys.types, st.types) == RootErrors(sys.types, InitialTypes(sys))
    ensures NonModelErrors(AllTypes(sys), st.types) == NonModelErrors(AllTypes(sys), InitialTypes(sys))
  {
    var env0 := InitialTypes(sys);
    InvStateOf(st, InitialState(sys));
    InitialInv(sys);
    InvStateOf(InitialState(sys), InitialState(sys));
    SameRootErrors(sys.types, st.types, env0, env0);
    SameNonModelErrors(AllTypes(sys), st.types, env0, env0);
  }

  lemma AcceptedTyped(sys: AstSystem, st: State)
    requires Final(sys, st) && KnownSystem(sys) && SingleSystem(sys) && ModuleErrors(st.modules, st.types) == []
    ensures forall j :: 0 <= j < |sys.modules| ==> WellTypedModule(sys.modules[j], InitialTypes(sys))
  {
    NoModuleErrors(st.modules, st.types);
    FinalCount(sys, st);
    forall j | 0 <= j < |sys.modules| ensures WellTypedModule(sys.modules[j], InitialTypes(sys)) {
      CleanModuleTyped(sys, st, j);
    }
  }

  lemma TypedAccepted(sys: AstSystem, st: State)
    requires Final(sys, st) && forall j :: 0 <= j < |sys.modules| ==> WellTypedModule(sys.modules[j], InitialTypes(sys))
    ensures ModuleErrors(st.modules, st.types) == []
  {
    FinalCount(sys, st);
    forall j | 0 <= j < |st.modules| ensures PassModule(st.modules[j], st.types).errors == [] {
      TypedModuleClean(sys, st, j);
    }
    NoModuleErrors(st.modules, st.types);
  }

  /** The final state draws no diagnostic exactly when the program is well typed. */
  lemma AcceptedExactly(sys: AstSystem, st: State)
    requires Final(sys, st) && KnownSystem(sys) && SingleSystem(sys)
    ensures Verdict(sys, st) == [] <==> WellTyped(sys)
  {
    VerdictEmpty(sys, st);
    InitialErrors(sys, st);
    if ModuleErrors(st.modules, st.types) == [] { AcceptedTyped(sys, st); }
    if WellTyped(sys) { TypedAccepted(sys, st); }
  }

  // ----- A module without diagnostics -----

  /** Calls with at most one parameter each, and no selected field of an unknown type. */
  ghost predicate SpokenParts(p: Parts, env0: Arena) {
    Every(p, (u: Use) => SingleParameter(u.expr) && FieldsKnown(u.expr, env0, u.scope), (t: FieldType) => true,
          (f: Fragment) => true)
  }

  lemma {:induction false} SameFieldsKnown(a: Expr, b: Expr, env: Arena, sc: Scope)
    requires ShallowExpr(a) == ShallowExpr(b) && FieldsKnown(a, env, sc)
    ensures FieldsKnown(b, env, sc)
    decreases a, 0
  {
    match a
    case Lit(_) =>
    case Select(s) => SameSelectionFieldsKnown(s, b.sel, env, sc);
    case Not(x, _) => SameFieldsKnown(x, b.arg, env, sc);
    case Logical(_, l, r, _) => SameFieldsKnown(l, b.left, env, sc); SameFieldsKnown(r, b.right, env, sc);
    case Relational(_, l, r, _) => SameFieldsKnown(l, b.left, env, sc); SameFieldsKnown(r, b.right, env, sc);
  }

  lemma {:induction false} SameSelectionFieldsKnown(a: Selection, b: Selection, env: Arena, sc: Scope)
    requires ShallowSelection(a) == ShallowSelection(b) && SelectionFieldsKnown(a, env, sc)
    ensures SelectionFieldsKnown(b, env, sc)
    decreases a, 0
  {
    if a.Path? {
      SameSelectionFieldsKnown(a.prefix, b.prefix, env, sc);
      SameInferSelection(a.prefix, b.prefix, env, sc);
      var target := TargetOf(Deref(InferSelection(a.prefix, env, sc), env));
      if a.elem.HofCall? && PassesElement(target, a.elem) && BodyScope(a.elem.param, Some(target.of), env, sc).Some? {
        SameFieldsKnown(a.elem.body, b.elem.body, env, BodyScope(a.elem.param, Some(target.of), env, sc).value);
      }
    }
  }

  lemma SpokenShape(p: Parts, q: Parts, env0: Arena)
    requires SameShape(p, q) && SpokenParts(p, env0)
    ensures SpokenParts(q, env0)
  {
    forall k | 0 <= k < |q.uses|
      ensures SingleParameter(q.uses[k].expr) && FieldsKnown(q.uses[k].expr, env0, q.uses[k].scope)
    {
      assert UseShape(p.uses[k], q.uses[k]) && SingleParameter(p.uses[k].expr) &&
             FieldsKnown(p.uses[k].expr, env0, p.uses[k].scope);
      SingleShape(p.uses[k].expr, q.uses[k].expr);
      SameFieldsKnown(p.uses[k].expr, q.uses[k].expr, env0, p.uses[k].scope);
    }
  }

  lemma QuietUseComplete(u: Use, env: Arena, env0: Arena)
    requires StateOf(env, env0) && EnvSettled(env) && ScopeOk(u.scope, env0) && Sound(u.expr, env0, u.scope)
    requires var r := PassExpr(u.expr, env, u.scope); !r.changed && r.errors == []
    ensures AllComplete(u.expr) <==> SingleParameter(u.expr) && FieldsKnown(u.expr, env0, u.scope)
  {
    QuietCompleteExactly(u.expr, env, env0, u.scope);
    if Complete(TypeOf(u.expr)) { RootComplete(u.expr, env0, u.scope); }
    if AllComplete(u.expr) { CompleteRoot(u.expr); }
  }

  lemma CleanPartsComplete(p: Parts, env: Arena, env0: Arena)
    requires FinalParts(p, env, env0) && HeardParts(p) && CleanParts(p, env)
    ensures CompleteParts(p) <==> SpokenParts(p, env0)
  {
    forall k | 0 <= k < |p.uses|
      ensures AllComplete(p.uses[k].expr) <==>
              SingleParameter(p.uses[k].expr) && FieldsKnown(p.uses[k].expr, env0, p.uses[k].scope)
    {
      assert p.uses[k].heard && p.uses[k].visited && UseQuiet(p.uses[k], env) && UseClean(p.uses[k], env) &&
             ScopeOk(p.uses[k].scope, env0);
      assert Sound(p.uses[k].expr, env0, p.uses[k].scope);
      QuietUseComplete(p.uses[k], env, env0);
    }
    forall k | 0 <= k < |p.types| ensures FlagsSet(p.types[k]) {
      assert PassFieldType(p.types[k], env.ids).errors == [] && !PassFieldType(p.types[k], env.ids).changed;
      PassFlags(p.types[k], env.ids);
    }
  }

  /** A module that draws no diagnostic in a final state is resolved throughout, exactly when its calls have at most
      one parameter each and the fields that it selects have known types. */
  lemma CleanCompleteExactly(sys: AstSystem, st: State, j: nat)
    requires Final(sys, st) && j < |st.modules| && j < |sys.modules| && PassModule(st.modules[j], st.types).errors == []
    ensures CompleteModule(st.modules[j]) <==> SpokenParts(ModuleParts(sys.modules[j]), InitialTypes(sys))
  {
    var m, env0 := st.modules[j], InitialTypes(sys);
    var p, q := ModuleParts(m), ModuleParts(sys.modules[j]);
    FinalModule(sys, st, j);
    FinalModuleParts(sys, st, j);
    DigestModule(m, st.types);
    OwnModuleHeard(m);
    OwnModuleDeclared(m);
    CleanPartsComplete(p, st.types, env0);
    CompleteModuleParts(m);
    ShapeModule(m, sys.modules[j]);
    ShapeBack(p, q);
    if SpokenParts(p, env0) { SpokenShape(p, q, env0); }
    if SpokenParts(q, env0) { SpokenShape(q, p, env0); }
  }

  lemma OwnModuleDeclared(m: Module)
    requires OwnModule(m)
    ensures DeclaredModule(m)
  {
    forall i | 0 <= i < |m.types| ensures DeclaredModel(m.types[i]) {
      assert OwnModel(m.types[i]);
      OwnFieldsDeclared(m.types[i].fields);
    }
    forall i | 0 <= i < |m.methods| ensures DeclaredCallable(m.methods[i]) {
      assert OwnCallable(m.methods[i]);
      OwnFieldsDeclared(m.methods[i].args);
    }
    forall i | 0 <= i < |m.interceptors| ensures DeclaredCallable(m.interceptors[i]) {
      assert OwnCallable(m.interceptors[i]);
      OwnFieldsDeclared(m.interceptors[i].args);
    }
  }

  lemma OwnFieldsDeclared(fs: seq<Field>)
    requires OwnSilence(fs, OwnField)
    ensures DeclaredFields(fs)
  {
    forall i | 0 <= i < |fs| ensures DeclaredAnnotations(fs[i].annotations) { assert OwnField(fs[i]); }
  }

  // ----- Accepted programs -----

  /** The arena's entry `i` is that of a module's type. */
  ghost predicate FromModule(sys: AstSystem, i: nat) {
    i < |InitialTypes(sys).values| &&
    exists t :: t in ModuleTypes(sys.modules) && InitialTypes(sys).values[i] == ModelEntry(ShallowModel(t))
  }

  /** The arena's entries of module types agree, too, whatever the order of the passes. */
  lemma {:induction false} AcceptedTypes(sys: AstSystem, a: State, b: State, i: nat)
    requires Final(sys, a) && Final(sys, b) && KnownSystem(sys) && SingleSystem(sys) && Verdict(sys, b) == []
    requires i < |a.types.values| && i < |b.types.values| && (a.types.values[i].ModelEntry? ==> FromModule(sys, i))
    ensures a.types.values[i] == b.types.values[i]
  {
    AcceptedBoth(sys, a, b);
    if a.types.values[i].ModelEntry? {
      var j, k := EntryIsCopy(sys, a, i);
      EntryIsThatCopy(sys, a, b, i, j, k);
    } else {
      SameKindOfEntry(sys, a, b, i);
    }
  }

  lemma AcceptedBoth(sys: AstSystem, a: State, b: State)
    requires Final(sys, a) && Final(sys, b) && KnownSystem(sys) && SingleSystem(sys) && Verdict(sys, b) == []
    ensures a.modules == b.modules && ModuleErrors(a.modules, a.types) == [] && ModuleErrors(b.modules, b.types) == []
  {
    OrderIrrelevant(sys, a, b);
    VerdictEmpty(sys, a);
    VerdictEmpty(sys, b);
  }

  lemma SameKindOfEntry(sys: AstSystem, a: State, b: State, i: nat)
    requires Final(sys, a) && Final(sys, b) && i < |a.types.values| && i < |b.types.values| &&
             !a.types.values[i].ModelEntry?
    ensures b.types.values[i] == a.types.values[i]
  {
    assert EntryOk(a, InitialState(sys), i) && EntryOk(b, InitialState(sys), i);
  }

  ghost predicate Accepted(sys: AstSystem, st: State) {
    Final(sys, st) && KnownSystem(sys) && SingleSystem(sys) && ModuleErrors(st.modules, st.types) == []
  }

  /** An arena entry of a module's type equals the module's copy. */
  lemma EntryIsCopy(sys: AstSystem, a: State, i: nat) returns (j: nat, k: nat)
    requires Accepted(sys, a) && i < |a.types.values| && a.types.values[i].ModelEntry? && FromModule(sys, i)
    ensures j < |a.modules| && k < |a.modules[j].types| && a.types.values[i] == ModelEntry(a.modules[j].types[k])
  {
    assert EntryOk(a, InitialState(sys), i);
    var t :| t in ModuleTypes(sys.modules) && InitialTypes(sys).values[i] == ModelEntry(ShallowModel(t));
    DeclaredUntyped(sys, t);
    j, k := ModuleCopy(sys, a, t);
    CopiesAgree(sys, a, i, j, k);
  }

  lemma EntryIsThatCopy(sys: AstSystem, a: State, b: State, i: nat, j: nat, k: nat)
    requires Accepted(sys, b) && Final(sys, a) && a.modules == b.modules
    requires i < |a.types.values| && i < |b.types.values| && a.types.values[i].ModelEntry?
    requires j < |a.modules| && k < |a.modules[j].types| && a.types.values[i] == ModelEntry(a.modules[j].types[k])
    ensures b.types.values[i] == a.types.values[i]
  {
    assert EntryOk(a, InitialState(sys), i) && EntryOk(b, InitialState(sys), i);
    CopiesAgree(sys, b, i, j, k);
  }
}
