/** The theorems about the fixpoint that `build` computes. */
module TypecheckerTheorems {
  import opened Wrappers
  import opened Ast
  import opened Passes
  import opened OneShot
  import opened EnvironmentLemmas
  import opened ExprSoundness
  import opened FieldTypeLemmas
  import opened Declarations
  import opened DeclarationSteps
  import opened DeclarationCompletion
  import opened Typechecker

  // ----- The initial state satisfies the invariant -----

  lemma UntypedAnnotationsSound(m: AnnotationMap, env: Arena, sc: Scope)
    requires m == ShallowAnnotations(m) && ParsedAnnotations(m)
    ensures SoundAnnotations(m, env, sc)
  {
    forall i | 0 <= i < |m.annotations| ensures SoundAnnotation(m.annotations[i], env, sc) {
      var a := m.annotations[i];
      assert a == Map(m.annotations, ShallowAnnotation)[i] == ShallowAnnotation(a);
      assert ParsedAnnotation(a);
      forall j | 0 <= j < |a.params| ensures Sound(a.params[j], env, sc) {
        assert a.params[j] == ShallowExprs(a.params)[j];
        FreshSound(a.params[j], env, sc);
      }
    }
  }

  lemma UntypedFieldSound(f: Field, env: Arena, sc: Scope)
    requires f == ShallowField(f) && ParsedField(f)
    ensures SoundField(f, env, sc)
  {
    UntypedFlagsSound(f.typ, env.ids);
    UntypedAnnotationsSound(f.annotations, env, sc);
    if f.default.SelectionDefault? { FreshSelectionSound(f.default.sel, env, sc); }
  }

  lemma UntypedModelSound(m: Model, env: Arena)
    requires m == ShallowModel(m) && ParsedModel(m) && m.name in env.ids
    ensures SoundModel(m, env)
  {
    forall i | 0 <= i < |m.fields| ensures SoundField(m.fields[i], env, ModelScope(m.name)) {
      assert m.fields[i] == Map(m.fields, ShallowField)[i];
      UntypedFieldSound(m.fields[i], env, ModelScope(m.name));
    }
    forall i | 0 <= i < |m.fragments| ensures SoundFragment(m.fragments[i], env) {
      assert m.fragments[i] == Map(m.fragments, ShallowFragment)[i];
    }
    UntypedAnnotationsSound(m.annotations, env, ModelScope(m.name));
  }

  lemma UntypedCallableSound(c: Callable, env: Arena)
    requires c == ShallowCallable(c) && ParsedCallable(c)
    ensures SoundCallable(c, env)
  {
    forall i | 0 <= i < |c.args| ensures SoundField(c.args[i], env, NO_SCOPE) {
      assert c.args[i] == Map(c.args, ShallowField)[i];
      UntypedFieldSound(c.args[i], env, NO_SCOPE);
    }
    if c.result.Some? { UntypedFlagsSound(c.result.value, env.ids); }
    UntypedAnnotationsSound(c.annotations, env, NO_SCOPE);
  }

  lemma UntypedModuleSound(m: Module, env: Arena)
    requires m == ShallowModule(m) && ParsedModule(m)
    requires forall i :: 0 <= i < |m.types| ==> m.types[i].name in env.ids
    ensures SoundModule(m, env)
  {
    forall i | 0 <= i < |m.types| ensures SoundModel(m.types[i], env) {
      assert m.types[i] == Map(m.types, ShallowModel)[i];
      UntypedModelSound(m.types[i], env);
    }
    forall i | 0 <= i < |m.methods| ensures SoundCallable(m.methods[i], env) {
      assert m.methods[i] == Map(m.methods, ShallowCallable)[i];
      UntypedCallableSound(m.methods[i], env);
    }
    forall i | 0 <= i < |m.interceptors| ensures SoundCallable(m.interceptors[i], env) {
      assert m.interceptors[i] == Map(m.interceptors, ShallowCallable)[i];
      UntypedCallableSound(m.interceptors[i], env);
    }
    UntypedAnnotationsSound(m.annotations, env, NO_SCOPE);
  }

  lemma {:induction false} ModuleTypesFrom(ms: seq<Module>, t: Model)
    ensures t in ModuleTypes(ms) <==> exists j :: 0 <= j < |ms| && t in ms[j].types
  {
    if ms != [] {
      var front, last := ms[..|ms| - 1], ms[|ms| - 1];
      ModuleTypesFrom(front, t);
      if t in ModuleTypes(front) {
        var j :| 0 <= j < |front| && t in front[j].types;
        assert ms[j] == front[j];
      }
      if j :| 0 <= j < |ms| && t in ms[j].types {
        if j < |ms| - 1 { assert front[j] == ms[j]; }
      }
    }
  }

  lemma {:induction false} EnumEntriesAreEnums(ms: seq<Module>, e: Entry)
    requires e in EnumEntries(ms)
    ensures e.EnumEntry?
  {
    var front, last := ms[..|ms| - 1], ms[|ms| - 1];
    if e in EnumEntries(front) { EnumEntriesAreEnums(front, e); }
  }

  lemma PredefinedNotModels(e: Entry)
    requires e in PREDEFINED
    ensures !e.ModelEntry?
  {
  }

  function TypeEntries(ts: seq<Model>): seq<Entry> {
    Map(ts, (t: Model) => ModelEntry(ShallowModel(t)))
  }

  lemma TypeEntryFrom(ts: seq<Model>, e: Entry)
    requires e in TypeEntries(ts)
    ensures exists t :: t in ts && e == ModelEntry(ShallowModel(t))
  {
    var k :| 0 <= k < |ts| && TypeEntries(ts)[k] == e;
    assert ts[k] in ts;
  }

  /** A model entry of the initial arena is a declared type. */
  lemma InitialEntry(sys: AstSystem, i: nat)
    requires i < |InitialTypes(sys).values| && InitialTypes(sys).values[i].ModelEntry?
    ensures exists t :: t in AllTypes(sys) && InitialTypes(sys).values[i] == ModelEntry(ShallowModel(t))
  {
    AddAllHolds(InitialEntries(sys));
    var e := InitialTypes(sys).values[i];
    if e in PREDEFINED { PredefinedNotModels(e); }
    if e in EnumEntries(sys.modules) { EnumEntriesAreEnums(sys.modules, e); }
    assert e in TypeEntries(AllTypes(sys));
    TypeEntryFrom(AllTypes(sys), e);
  }

  lemma DeclaredNameKnown(sys: AstSystem, t: Model)
    requires t in AllTypes(sys)
    ensures t.name in InitialTypes(sys).ids
  {
    var models := Map(AllTypes(sys), (t: Model) => ModelEntry(ShallowModel(t)));
    var k :| 0 <= k < |AllTypes(sys)| && AllTypes(sys)[k] == t;
    var n := |PREDEFINED + EnumEntries(sys.modules)|;
    AddAllHolds(InitialEntries(sys));
    assert InitialEntries(sys)[n + k] == models[k];
  }

  lemma DeclaredUntyped(sys: AstSystem, t: Model)
    requires ParsedSystem(sys) && t in AllTypes(sys)
    ensures t == ShallowModel(t) && ParsedModel(t)
  {
    if t !in sys.types {
      ModuleTypesFrom(sys.modules, t);
      var j :| 0 <= j < |sys.modules| && t in sys.modules[j].types;
      var m := sys.modules[j];
      assert m == ShallowModule(m) && ParsedModule(m);
      var k :| 0 <= k < |m.types| && m.types[k] == t;
      assert t == Map(m.types, ShallowModel)[k];
    }
  }

  lemma InitialInv(sys: AstSystem)
    requires ParsedSystem(sys)
    ensures Inv(InitialState(sys), InitialState(sys))
  {
    var st := InitialState(sys);
    AddAllValid(InitialEntries(sys));
    forall i: nat | i < |st.types.values| ensures EntryOk(st, st, i) {
      if st.types.values[i].ModelEntry? {
        InitialEntry(sys, i);
        var t :| t in AllTypes(sys) && st.types.values[i] == ModelEntry(ShallowModel(t));
        DeclaredUntyped(sys, t);
        DeclaredNameKnown(sys, t);
        UntypedModelSound(t, st.types);
      }
    }
    forall j: nat | j < |st.modules| ensures ModuleOk(st, st, j) {
      var m := sys.modules[j];
      assert st.modules[j] == m;
      forall i | 0 <= i < |m.types| ensures m.types[i].name in st.types.ids {
        assert m.types[i] in m.types;
        ModuleTypesFrom(sys.modules, m.types[i]);
        DeclaredNameKnown(sys, m.types[i]);
      }
      UntypedModuleSound(m, st.types);
    }
  }

  /** The invariant holds in every state that some order of passes reaches. */
  lemma ReachableInv(sys: AstSystem, steps: seq<Step>)
    requires ParsedSystem(sys)
    ensures Inv(Run(InitialState(sys), steps), InitialState(sys))
    ensures Changes(InitialState(sys), steps) <= CountState(InitialState(sys))
  {
    InitialInv(sys);
    RunSafe(InitialState(sys), InitialState(sys), steps);
  }

  // ----- The verdict -----

  function RootErrors(roots: seq<Model>, types: Arena): seq<Diagnostic> {
    if roots == [] then []
    else
      var n := roots[|roots| - 1].name;
      RootErrors(roots[..|roots| - 1], types) +
      (if IsModelName(n, types) && !types.values[types.ids[n]].model.kind.ContextKind? then [ModelOutsideModule(n)]
       else [])
  }

  function NonModelErrors(all: seq<Model>, types: Arena): seq<Diagnostic> {
    if all == [] then []
    else
      var n := all[|all| - 1].name;
      NonModelErrors(all[..|all| - 1], types) + (if IsModelName(n, types) then [] else [NotAModel(n)])
  }

  function Gather<T>(xs: seq<T>, f: T -> seq<Diagnostic>): seq<Diagnostic> {
    if xs == [] then [] else Gather(xs[..|xs| - 1], f) + f(xs[|xs| - 1])
  }

  lemma {:induction false} GatherEmpty<T>(xs: seq<T>, f: T -> seq<Diagnostic>)
    ensures Gather(xs, f) == [] <==> forall j :: 0 <= j < |xs| ==> f(xs[j]) == []
  {
    if xs != [] {
      var front := xs[..|xs| - 1];
      GatherEmpty(front, f);
      assert forall j :: 0 <= j < |front| ==> front[j] == xs[j];
    }
  }

  function ModuleErrors(ms: seq<Module>, types: Arena): seq<Diagnostic> {
    Gather(ms, (m: Module) => PassModule(m, types).errors)
  }

  /** What an iteration that changes nothing reports.  The diagnostics of the arena's own
      copies are dropped. */
  function Verdict(sys: AstSystem, st: State): seq<Diagnostic> {
    RootErrors(sys.types, st.types) + NonModelErrors(AllTypes(sys), st.types) + ModuleErrors(st.modules, st.types)
  }

  lemma NoModuleErrors(ms: seq<Module>, types: Arena)
    ensures ModuleErrors(ms, types) == [] <==> forall j :: 0 <= j < |ms| ==> PassModule(ms[j], types).errors == []
  {
    var f := (m: Module) => PassModule(m, types).errors;
    GatherEmpty(ms, f);
    assert forall j :: 0 <= j < |ms| ==> f(ms[j]) == PassModule(ms[j], types).errors;
  }

  // ----- Nothing is silently incomplete -----

  /** Fields of types outside modules name known types: their diagnostics are never shown. */
  predicate RootTypesKnown(sys: AstSystem) {
    forall i, j :: 0 <= i < |sys.types| && 0 <= j < |sys.types[i].fields| ==>
      NamesKnown(sys.types[i].fields[j].typ, InitialTypes(sys).ids)
  }

  predicate WellFormedModel(m: Model) {
    forall j :: 0 <= j < |m.fields| ==> WellFormedType(m.fields[j].typ)
  }

  /** In fields of declared types, `Set` and `Array` come with their parameter. */
  predicate WellFormedSystem(sys: AstSystem) {
    forall i :: 0 <= i < |AllTypes(sys)| ==> WellFormedModel(AllTypes(sys)[i])
  }

  /** What the source takes for granted about field types: it reports neither. */
  predicate KnownSystem(sys: AstSystem) {
    RootTypesKnown(sys) && WellFormedSystem(sys)
  }

  predicate SingleSystem(sys: AstSystem) {
    forall j :: 0 <= j < |sys.modules| ==> SingleModule(sys.modules[j])
  }

  /** A state that no pass changes. */
  ghost predicate Final(sys: AstSystem, st: State) {
    ParsedSystem(sys) && Inv(st, InitialState(sys)) && Quiescent(st)
  }

  lemma FinalSettled(sys: AstSystem, st: State)
    requires Final(sys, st)
    ensures EnvSettled(st.types)
  {
    var init := InitialState(sys);
    forall i, j | 0 <= i < |st.types.values| && st.types.values[i].ModelEntry? &&
                  0 <= j < |st.types.values[i].model.fields|
      ensures FlagsSettled(st.types.values[i].model.fields[j].typ, st.types.ids)
    {
      var m := st.types.values[i].model;
      assert EntryOk(st, init, i);
      assert !TypePass(st, i).changed;
      PassEachFacts(m.fields, (f: Field) => PassField(f, st.types, ModelScope(m.name)));
      assert !PassField(m.fields[j], st.types, ModelScope(m.name)).changed;
      PassFlags(m.fields[j].typ, st.types.ids);
      assert SoundField(m.fields[j], init.types, ModelScope(m.name));
    }
  }

  /** A model entry whose declaration is module type `t`: a quiet pass over the module's copy
      shows that all its field types are known. */
  lemma {:induction false} ModuleTypeReady(m: Model, t: Model, j: nat, st: State, sys: AstSystem)
    requires Final(sys, st) && ShallowModel(m) == ShallowModel(t) && SoundModel(m, InitialTypes(sys))
    requires SoundModel(t, InitialTypes(sys))
    requires !PassModel(m, st.types).changed && j < |m.fields|
    requires var r := PassModel(t, st.types); !r.changed && r.errors == []
    ensures FlagsSet(m.fields[j].typ)
  {
    var sc := ModelScope(m.name);
    assert |m.fields| == |Map(m.fields, ShallowField)| == |t.fields|;
    assert ShallowField(m.fields[j]) == Map(m.fields, ShallowField)[j] == ShallowField(t.fields[j]);
    FieldOutcome(m, j, st.types);
    FieldOutcome(t, j, st.types);
    PassFlags(m.fields[j].typ, st.types.ids);
    PassFlags(t.fields[j].typ, st.types.ids);
    assert SoundField(m.fields[j], InitialTypes(sys), sc) && SoundField(t.fields[j], InitialTypes(sys), sc);
    SettledFlagsEqual(m.fields[j].typ, t.fields[j].typ, st.types.ids);
  }

  lemma {:induction false} FieldOutcome(m: Model, j: nat, env: Arena)
    requires j < |m.fields| && !PassModel(m, env).changed
    ensures var r := PassField(m.fields[j], env, ModelScope(m.name));
            !r.changed && (PassModel(m, env).errors == [] ==> r.errors == [])
  {
    PassEachFacts(m.fields, (f: Field) => PassField(f, env, ModelScope(m.name)));
  }

  lemma RootTypeReady(m: Model, t: Model, j: nat, st: State, sys: AstSystem)
    requires Final(sys, st) && ShallowModel(m) == ShallowModel(t) && SoundModel(m, InitialTypes(sys))
    requires RootTypesKnown(sys) && t in sys.types
    requires !PassModel(m, st.types).changed && j < |m.fields|
    ensures FlagsSet(m.fields[j].typ)
  {
    PassEachFacts(m.fields, (f: Field) => PassField(f, st.types, ModelScope(m.name)));
    var sc := ModelScope(m.name);
    assert |m.fields| == |Map(m.fields, ShallowField)| == |t.fields|;
    assert ShallowField(m.fields[j]) == Map(m.fields, ShallowField)[j] == ShallowField(t.fields[j]);
    assert !PassField(m.fields[j], st.types, sc).changed;
    PassFlags(m.fields[j].typ, st.types.ids);
    assert SoundField(m.fields[j], InitialTypes(sys), sc);
    SettledKnownSet(m.fields[j].typ, t.fields[j].typ, st.types.ids);
  }

  /** The final state's copy of a module type. */
  lemma ModuleCopy(sys: AstSystem, st: State, t: Model) returns (j: nat, k: nat)
    requires ParsedSystem(sys) && Inv(st, InitialState(sys)) && t in ModuleTypes(sys.modules)
    ensures j < |st.modules| && k < |st.modules[j].types| && ShallowModel(st.modules[j].types[k]) == ShallowModel(t)
  {
    ModuleTypesFrom(sys.modules, t);
    j :| 0 <= j < |sys.modules| && t in sys.modules[j].types;
    k :| 0 <= k < |sys.modules[j].types| && sys.modules[j].types[k] == t;
    var m, d := st.modules[j], sys.modules[j];
    assert ModuleOk(st, InitialState(sys), j);
    assert InitialState(sys).modules[j] == d;
    assert |m.types| == |Map(m.types, ShallowModel)| == |d.types|;
    assert ShallowModel(m.types[k]) == Map(m.types, ShallowModel)[k] == Map(d.types, ShallowModel)[k] ==
           ShallowModel(t);
  }

  /** A module of a final state. */
  lemma FinalModule(sys: AstSystem, st: State, j: nat)
    requires Final(sys, st) && j < |st.modules|
    ensures SoundModule(st.modules[j], InitialTypes(sys)) && !PassModule(st.modules[j], st.types).changed
    ensures j < |sys.modules| && ShallowModule(st.modules[j]) == ShallowModule(sys.modules[j])
    ensures SingleModule(sys.modules[j]) ==> SingleModule(st.modules[j])
  {
    assert !ModulePass(st, j).changed;
    assert ModuleOk(st, InitialState(sys), j);
    assert InitialState(sys).modules[j] == sys.modules[j];
  }

  lemma QuietCopy(sys: AstSystem, st: State, t: Model) returns (c: Model)
    requires Final(sys, st) && ModuleErrors(st.modules, st.types) == [] && t in ModuleTypes(sys.modules)
    ensures ShallowModel(c) == ShallowModel(t) && SoundModel(c, InitialTypes(sys))
    ensures var r := PassModel(c, st.types); !r.changed && r.errors == []
  {
    var a, b := ModuleCopy(sys, st, t);
    var m := st.modules[a];
    c := m.types[b];
    NoModuleErrors(st.modules, st.types);
    FinalModule(sys, st, a);
    QuietCopyOf(m, b, st.types, InitialTypes(sys));
  }

  lemma QuietCopyOf(m: Module, k: nat, env: Arena, env0: Arena)
    requires k < |m.types| && !PassModule(m, env).changed && PassModule(m, env).errors == [] && SoundModule(m, env0)
    ensures !PassModel(m.types[k], env).changed && PassModel(m.types[k], env).errors == [] &&
            SoundModel(m.types[k], env0)
  {
    ModuleQuietTypes(m, k, env);
  }

  lemma ModuleQuietTypes(m: Module, k: nat, env: Arena)
    requires k < |m.types| && !PassModule(m, env).changed && PassModule(m, env).errors == []
    ensures !PassModel(m.types[k], env).changed && PassModel(m.types[k], env).errors == []
  {
    PassEachFacts(m.types, (t: Model) => PassModel(t, env));
  }

  /** A model entry of a final state. */
  lemma FinalEntry(sys: AstSystem, st: State, i: nat)
    requires Final(sys, st) && i < |st.types.values| && st.types.values[i].ModelEntry?
    ensures SoundModel(st.types.values[i].model, InitialTypes(sys)) &&
            !PassModel(st.types.values[i].model, st.types).changed
  {
    assert EntryOk(st, InitialState(sys), i);
    assert !TypePass(st, i).changed;
  }

  /** The declaration a model entry comes from. */
  lemma EntryOrigin(sys: AstSystem, st: State, i: nat) returns (t: Model)
    requires Final(sys, st) && i < |st.types.values| && st.types.values[i].ModelEntry?
    ensures t in AllTypes(sys) && ShallowModel(st.types.values[i].model) == ShallowModel(t)
  {
    var init := InitialState(sys);
    assert EntryOk(st, init, i);
    InitialEntry(sys, i);
    t :| t in AllTypes(sys) && init.types.values[i] == ModelEntry(ShallowModel(t));
    DeclaredUntyped(sys, t);
  }

  lemma EntryFlagsSet(sys: AstSystem, st: State, m: Model, t: Model, j: nat)
    requires Final(sys, st) && RootTypesKnown(sys) && ModuleErrors(st.modules, st.types) == []
    requires t in AllTypes(sys) && ShallowModel(m) == ShallowModel(t) && SoundModel(m, InitialTypes(sys))
    requires !PassModel(m, st.types).changed && j < |m.fields|
    ensures FlagsSet(m.fields[j].typ)
  {
    if t in sys.types {
      RootTypeReady(m, t, j, st, sys);
    } else {
      var c := QuietCopy(sys, st, t);
      ModuleTypeReady(m, c, j, st, sys);
    }
  }

  lemma {:induction false} WellFormedShape(a: FieldType, b: FieldType)
    requires ShallowFieldType(a) == ShallowFieldType(b) && WellFormedType(b)
    ensures WellFormedType(a)
  {
    match a
    case OptionalField(u) => WellFormedShape(u, b.inner);
    case Plain(_, params, _) =>
      assert |params| == |ShallowFieldTypes(params)| == |b.params|;
      forall i | 0 <= i < |params| ensures WellFormedType(params[i]) {
        assert ShallowFieldType(params[i]) == ShallowFieldTypes(params)[i] == ShallowFieldType(b.params[i]);
        WellFormedShape(params[i], b.params[i]);
      }
  }

  lemma EntryWellFormed(sys: AstSystem, m: Model, t: Model, j: nat)
    requires WellFormedSystem(sys) && t in AllTypes(sys) && ShallowModel(m) == ShallowModel(t) && j < |m.fields|
    ensures WellFormedType(m.fields[j].typ)
  {
    assert |m.fields| == |Map(m.fields, ShallowField)| == |t.fields|;
    assert ShallowField(m.fields[j]) == Map(m.fields, ShallowField)[j] == ShallowField(t.fields[j]);
    var i :| 0 <= i < |AllTypes(sys)| && AllTypes(sys)[i] == t;
    assert WellFormedModel(AllTypes(sys)[i]);
    WellFormedShape(m.fields[j].typ, t.fields[j].typ);
  }

  lemma EntryReady(sys: AstSystem, st: State, i: nat, j: nat)
    requires Final(sys, st) && KnownSystem(sys) && ModuleErrors(st.modules, st.types) == []
    requires i < |st.types.values| && st.types.values[i].ModelEntry? && j < |st.types.values[i].model.fields|
    ensures FlagsSet(st.types.values[i].model.fields[j].typ) && WellFormedType(st.types.values[i].model.fields[j].typ)
  {
    var t := EntryOrigin(sys, st, i);
    FinalEntry(sys, st, i);
    EntryFlagsSet(sys, st, st.types.values[i].model, t, j);
    EntryWellFormed(sys, st.types.values[i].model, t, j);
  }

  lemma FinalReady(sys: AstSystem, st: State)
    requires Final(sys, st) && KnownSystem(sys) && ModuleErrors(st.modules, st.types) == []
    ensures EnvReady(st.types)
  {
    forall i, j | 0 <= i < |st.types.values| && st.types.values[i].ModelEntry? &&
                  0 <= j < |st.types.values[i].model.fields|
      ensures FlagsSet(st.types.values[i].model.fields[j].typ) && WellFormedType(st.types.values[i].model.fields[j].typ)
    {
      EntryReady(sys, st, i, j);
    }
  }

  ghost predicate Finished(m: Module, env0: Arena) {
    CompleteModule(m) && SoundModule(m, env0) && ModuleFragmentsSettled(m, env0)
  }

  lemma ModuleFinished(sys: AstSystem, st: State, j: nat)
    requires Final(sys, st) && EnvReady(st.types) && StateOf(st.types, InitialTypes(sys))
    requires j < |st.modules| && j < |sys.modules| && SingleModule(sys.modules[j]) &&
             PassModule(st.modules[j], st.types).errors == []
    ensures Finished(st.modules[j], InitialTypes(sys))
  {
    FinalModule(sys, st, j);
    QuietModule(st.modules[j], st.types, InitialTypes(sys));
    UnchangedModuleFragments(st.modules[j], st.types, InitialTypes(sys));
  }

  /** Nothing is silently incomplete.  If an iteration changes nothing and the modules draw no
      diagnostic, every field type and every expression of every module is complete, and holds
      the types of the one-shot typing. */
  lemma CleanComplete(sys: AstSystem, st: State, j: nat)
    requires Final(sys, st) && KnownSystem(sys) && ModuleErrors(st.modules, st.types) == []
    requires j < |st.modules| && j < |sys.modules| && SingleModule(sys.modules[j])
    ensures Finished(st.modules[j], InitialTypes(sys))
  {
    FinalReady(sys, st);
    InvStateOf(st, InitialState(sys));
    NoModuleErrors(st.modules, st.types);
    ModuleFinished(sys, st, j);
  }

  // ----- The two copies of a model agree -----

  lemma CopyOfFinished(a: Model, m: Module, k: nat, env: Arena, env0: Arena)
    requires StateOf(env, env0) && EnvSettled(env) && SoundModel(a, env0) && !PassModel(a, env).changed
    requires Finished(m, env0) && k < |m.types| && ShallowModel(a) == ShallowModel(m.types[k])
    ensures a == m.types[k]
  {
    CopyModel(a, m.types[k], env, env0);
  }

  /** When the program is accepted, the arena's entry equals every module copy of the same
      declaration. */
  lemma CopiesAgree(sys: AstSystem, st: State, i: nat, j: nat, k: nat)
    requires Final(sys, st) && KnownSystem(sys) && SingleSystem(sys) && ModuleErrors(st.modules, st.types) == []
    requires i < |st.types.values| && st.types.values[i].ModelEntry? && j < |st.modules| && k < |st.modules[j].types|
    requires ShallowModel(st.types.values[i].model) == ShallowModel(st.modules[j].types[k])
    ensures st.types.values[i].model == st.modules[j].types[k]
  {
    CleanComplete(sys, st, j);
    FinalSettled(sys, st);
    InvStateOf(st, InitialState(sys));
    FinalEntry(sys, st, i);
    CopyOfFinished(st.types.values[i].model, st.modules[j], k, st.types, InitialTypes(sys));
  }

  // ----- The order of the passes does not matter -----

  lemma SameModule(sys: AstSystem, a: State, m: Module, j: nat)
    requires Final(sys, a) && EnvSettled(a.types) && StateOf(a.types, InitialTypes(sys)) && j < |a.modules|
    requires Finished(m, InitialTypes(sys)) && ShallowModule(m) == ShallowModule(sys.modules[j])
    ensures a.modules[j] == m
  {
    FinalModule(sys, a, j);
    CopyModule(a.modules[j], m, a.types, InitialTypes(sys));
  }

  lemma SameModuleAt(sys: AstSystem, a: State, b: State, j: nat)
    requires Final(sys, a) && Final(sys, b) && j < |sys.modules|
    requires KnownSystem(sys) && SingleSystem(sys) && ModuleErrors(b.modules, b.types) == []
    ensures a.modules[j] == b.modules[j]
  {
    CleanComplete(sys, b, j);
    FinalModule(sys, b, j);
    FinalSettled(sys, a);
    InvStateOf(a, InitialState(sys));
    SameModule(sys, a, b.modules[j], j);
  }

  lemma FinalCount(sys: AstSystem, st: State)
    requires Final(sys, st)
    ensures |st.modules| == |sys.modules|
  {
  }

  lemma DifferAt<T>(xs: seq<T>, ys: seq<T>) returns (j: nat)
    requires |xs| == |ys| && xs != ys
    ensures j < |xs| && xs[j] != ys[j]
  {
    j :| 0 <= j < |xs| && xs[j] != ys[j];
  }

  lemma SameModules(sys: AstSystem, a: State, b: State)
    requires Final(sys, a) && Final(sys, b)
    requires KnownSystem(sys) && SingleSystem(sys) && ModuleErrors(b.modules, b.types) == []
    ensures a.modules == b.modules
  {
    FinalCount(sys, a);
    FinalCount(sys, b);
    if a.modules != b.modules {
      var j := DifferAt(a.modules, b.modules);
      SameModuleAt(sys, a, b, j);
    }
  }

  lemma AcceptedModules(sys: AstSystem, a: State, b: State)
    requires Final(sys, a) && Final(sys, b) && a.modules == b.modules
    requires KnownSystem(sys) && SingleSystem(sys) && ModuleErrors(b.modules, b.types) == []
    ensures ModuleErrors(a.modules, a.types) == []
  {
    forall j | 0 <= j < |b.modules| ensures Finished(b.modules[j], InitialTypes(sys)) {
      CleanComplete(sys, b, j);
    }
    InvStateOf(a, InitialState(sys));
    InvStateOf(b, InitialState(sys));
    SameModuleErrors(b.modules, a.types, b.types, InitialTypes(sys));
  }

  lemma SameModuleErrors(ms: seq<Module>, a: Arena, b: Arena, env0: Arena)
    requires StateOf(a, env0) && StateOf(b, env0) && forall j :: 0 <= j < |ms| ==> Finished(ms[j], env0)
    ensures ModuleErrors(ms, a) == ModuleErrors(ms, b)
  {
    forall j | 0 <= j < |ms| ensures PassModule(ms[j], a) == PassModule(ms[j], b) {
      assert Finished(ms[j], env0);
      SamePassModule(ms[j], a, b, env0);
    }
    SameGather(ms, (m: Module) => PassModule(m, a).errors, (m: Module) => PassModule(m, b).errors);
  }

  lemma {:induction false} SameRootErrors(roots: seq<Model>, a: Arena, b: Arena, env0: Arena)
    requires StateOf(a, env0) && StateOf(b, env0)
    ensures RootErrors(roots, a) == RootErrors(roots, b)
  {
    if roots != [] {
      SameRootErrors(roots[..|roots| - 1], a, b, env0);
      var n := roots[|roots| - 1].name;
      if n in env0.ids {
        assert EntryOf(a.values[a.ids[n]], env0.values[a.ids[n]], env0.ids);
        assert EntryOf(b.values[b.ids[n]], env0.values[b.ids[n]], env0.ids);
      }
    }
  }

  lemma {:induction false} SameNonModelErrors(all: seq<Model>, a: Arena, b: Arena, env0: Arena)
    requires StateOf(a, env0) && StateOf(b, env0)
    ensures NonModelErrors(all, a) == NonModelErrors(all, b)
  {
    if all != [] {
      SameNonModelErrors(all[..|all| - 1], a, b, env0);
      SameModelName(all[|all| - 1].name, a, env0);
      SameModelName(all[|all| - 1].name, b, env0);
    }
  }

  lemma {:induction false} SameGather<T>(xs: seq<T>, f: T -> seq<Diagnostic>, g: T -> seq<Diagnostic>)
    requires forall j :: 0 <= j < |xs| ==> f(xs[j]) == g(xs[j])
    ensures Gather(xs, f) == Gather(xs, g)
  {
    if xs != [] { SameGather(xs[..|xs| - 1], f, g); }
  }

  lemma SameTypeErrors(sys: AstSystem, a: State, b: State)
    requires Final(sys, a) && Final(sys, b)
    ensures RootErrors(sys.types, a.types) == RootErrors(sys.types, b.types)
    ensures NonModelErrors(AllTypes(sys), a.types) == NonModelErrors(AllTypes(sys), b.types)
  {
    InvStateOf(a, InitialState(sys));
    InvStateOf(b, InitialState(sys));
    SameRootErrors(sys.types, a.types, b.types, InitialTypes(sys));
    SameNonModelErrors(AllTypes(sys), a.types, b.types, InitialTypes(sys));
  }

  lemma VerdictEmpty(sys: AstSystem, st: State)
    ensures Verdict(sys, st) == [] <==>
            RootErrors(sys.types, st.types) == [] && NonModelErrors(AllTypes(sys), st.types) == []
            && ModuleErrors(st.modules, st.types) == []
  {
  }

  /** If one order of passes ends with an accepted program, every order that ends does so with
      the same modules and the same verdict. */
  lemma OrderIrrelevant(sys: AstSystem, a: State, b: State)
    requires Final(sys, a) && Final(sys, b)
    requires KnownSystem(sys) && SingleSystem(sys) && Verdict(sys, b) == []
    ensures a.modules == b.modules && Verdict(sys, a) == []
  {
    VerdictEmpty(sys, a);
    VerdictEmpty(sys, b);
    SameModules(sys, a, b);
    AcceptedModules(sys, a, b);
    SameTypeErrors(sys, a, b);
  }
}
