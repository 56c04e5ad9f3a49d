/** A program that is accepted although an expression of it is unresolved: `context C { x: Nope }` and
    `@access(C.x)` in a module. */
module SilentExample {
  import opened Wrappers
  import opened Ast
  import opened Passes
  import opened OneShot
  import opened EnvironmentLemmas
  import opened ExprSoundness
  import opened ExprCompletion
  import opened QuietForms
  import opened Declarations
  import opened DeclarationSteps
  import opened Parts
  import opened PartPasses
  import opened PartFacts
  import opened PartShapes
  import opened Typechecker
  import opened TypecheckerTheorems
  import opened FinalForms
  import opened Acceptance
  import opened Faults
  import opened FaultFree
  import opened PanicRuns
  import opened PanicOutcomes
  import opened Programs
  import opened Build

  const C := Model("C", ContextKind, [Field("x", Plain("Nope", [], false), NONE, NoDefault)], [], NONE)

  const C_X: Selection := Path(Single(Identifier("C", Defer), Defer), Identifier("x", Defer), Defer)

  const M := Module("M", [], [], [], [], Access(Select(C_X)))

  const SYS := AstSystem([C], [M])

  // ----- What it starts with -----

  lemma {:induction false} ModuleParsed()
    ensures M == ShallowModule(M) && ParsedModule(M) && ValidModule(M)
  {
    assert ShallowExprs([Select(C_X)]) == [Select(C_X)];
  }

  lemma {:induction false} ContextParsed0()
    ensures C == ShallowModel(C) && ParsedModel(C) && NewNames([C])
  {
  }

  lemma Parsed0()
    ensures ParsedSystem(SYS) && ValidSystem(SYS) && NewNames(SYS.types)
  {
    ModuleParsed();
    ContextParsed0();
  }

  lemma {:induction false} ContextFound0() returns (id: nat)
    ensures var env := InitialTypes(SYS);
            && "C" in env.ids && env.ids["C"] == id && id < |env.values| && env.values[id] == ModelEntry(C)
            && TypeOfIdentifier("C", env, NO_SCOPE) == Reference(id) && Deref(Reference(id), env) == Composite(id)
  {
    Parsed0();
    ContextFound(SYS, 0);
    id := InitialTypes(SYS).ids["C"];
  }

  lemma {:induction false} UnknownName()
    ensures "Nope" !in InitialTypes(SYS).ids
  {
    if "Nope" in InitialTypes(SYS).ids {
      KnownNames(SYS, "Nope");
      NotPredefined();
    }
  }

  lemma NotPredefined()
    ensures !Predefined("Nope")
  {
  }

  lemma {:induction false} UnknownField(id: nat)
    requires var env := InitialTypes(SYS); id < |env.values| && env.values[id] == ModelEntry(C)
    ensures FindField(id, "x", InitialTypes(SYS)) == Some(C.fields[0]) &&
            TypeOfField(id, "x", InitialTypes(SYS)) == Error
  {
    UnknownName();
    assert C.fields + FragmentFields(C.fragments, InitialTypes(SYS)) == C.fields;
  }

  /** The one expression of the module has no type; its identifier is selected from as a composite. */
  lemma {:induction false} Selected(id: nat)
    requires var env := InitialTypes(SYS);
             && id < |env.values| && env.values[id] == ModelEntry(C)
             && TypeOfIdentifier("C", env, NO_SCOPE) == Reference(id) && Deref(Reference(id), env) == Composite(id)
    ensures Target0(C_X.prefix, InitialTypes(SYS), NO_SCOPE) == OnComposite(id)
    ensures InferSelection(C_X, InitialTypes(SYS), NO_SCOPE) == Error &&
            IdentifiersPlaced(Select(C_X), InitialTypes(SYS), NO_SCOPE)
  {
    UnknownField(id);
  }

  lemma {:induction false} ModuleHasOneUse()
    ensures ModuleParts(M) == Parts([Use(Select(C_X), NO_SCOPE, true, true)], [], [])
  {
    AccessParts(Select(C_X), NO_SCOPE);
  }

  // ----- What it ends with -----

  /** The module's expression in a final state: the context is resolved, the field is not, and nothing is reported. */
  lemma {:induction false} FinalSelection(st: State, s: Selection)
    requires Final(SYS, st) &&
             FinalParts(Parts([Use(Select(s), NO_SCOPE, true, true)], [], []), st.types, InitialTypes(SYS))
    requires ShallowSelection(s) == C_X
    ensures Incomplete(s.typ) && PassSelection(s, st.types, NO_SCOPE).errors == []
  {
    var env0, p := InitialTypes(SYS), Parts([Use(Select(s), NO_SCOPE, true, true)], [], []);
    var id := ContextFound0();
    Selected(id);
    UnknownField(id);
    assert Sound(p.uses[0].expr, env0, NO_SCOPE) && UseQuiet(p.uses[0], st.types);
    SameInferSelection(s.prefix, C_X.prefix, env0, NO_SCOPE);
    QuietPrefix(s, st.types, env0, NO_SCOPE);
    QuietExact(Select(s.prefix), st.types, env0, NO_SCOPE);
    SelectionSoundAgrees(s.prefix, env0, NO_SCOPE);
    SameDeref(s.prefix.typ, st.types, env0);
    NoFragments(st, id);
    UnknownFieldIsSilent(s, id, st.types, env0, NO_SCOPE);
  }

  lemma {:induction false} NoFragments(st: State, id: nat)
    requires Final(SYS, st) && var env := InitialTypes(SYS); id < |env.values| && env.values[id] == ModelEntry(C)
    ensures FragmentErrors(id, st.types) == []
  {
    assert EntryOk(st, InitialState(SYS), id);
    var m := st.types.values[id].model;
    assert |m.fragments| == |Map(m.fragments, ShallowFragment)| == |Map(C.fragments, ShallowFragment)|;
  }

  lemma OneUseShape(q: Parts) returns (s: Selection)
    requires SameShape(Parts([Use(Select(C_X), NO_SCOPE, true, true)], [], []), q)
    ensures ShallowSelection(s) == C_X && q == Parts([Use(Select(s), NO_SCOPE, true, true)], [], [])
  {
    var p := Parts([Use(Select(C_X), NO_SCOPE, true, true)], [], []);
    assert UseShape(p.uses[0], q.uses[0]);
    s := q.uses[0].expr.sel;
    assert q.uses == [Use(Select(s), NO_SCOPE, true, true)] && q.types == [] && q.fragments == [];
  }

  /** The module of a final state has the one use of `C.x`. */
  lemma FinalUse0(st: State) returns (s: Selection)
    requires Final(SYS, st)
    ensures |st.modules| == 1 && ShallowSelection(s) == C_X
    ensures ModuleParts(st.modules[0]) == Parts([Use(Select(s), NO_SCOPE, true, true)], [], [])
  {
    FinalCount(SYS, st);
    FinalModule(SYS, st, 0);
    ShapeModule(M, st.modules[0]);
    ModuleHasOneUse();
    s := OneUseShape(ModuleParts(st.modules[0]));
  }

  lemma FinalModuleClean(st: State)
    requires Final(SYS, st)
    ensures |st.modules| == 1 && PassModule(st.modules[0], st.types).errors == [] && !CompleteModule(st.modules[0])
  {
    var s := FinalUse0(st);
    var m := st.modules[0];
    FinalModuleParts(SYS, st, 0);
    FinalSelection(st, s);
    OneUseClean(m, s, st.types);
    FinalModule(SYS, st, 0);
    RulesKept(m);
    DigestModule(m, st.types);
  }

  lemma {:induction false} RulesKept(m: Module)
    requires ShallowModule(m) == ShallowModule(M)
    ensures OwnModule(m)
  {
    OwnModuleShape(M, m);
  }

  lemma {:induction false} OneUseClean(m: Module, s: Selection, env: Arena)
    requires ModuleParts(m) == Parts([Use(Select(s), NO_SCOPE, true, true)], [], [])
    requires PassSelection(s, env, NO_SCOPE).errors == [] && Incomplete(s.typ)
    ensures CleanParts(ModuleParts(m), env) && !CompleteModule(m)
  {
    OneUseIncomplete(m, ModuleParts(m), s);
    OneUseCleanParts(ModuleParts(m), s, env);
  }

  lemma {:induction false} OneUseCleanParts(p: Parts, s: Selection, env: Arena)
    requires p == Parts([Use(Select(s), NO_SCOPE, true, true)], [], [])
    requires PassSelection(s, env, NO_SCOPE).errors == []
    ensures CleanParts(p, env)
  {
    assert UseClean(p.uses[0], env);
  }

  lemma {:induction false} OneUseIncomplete(m: Module, p: Parts, s: Selection)
    requires ModuleParts(m) == p && p == Parts([Use(Select(s), NO_SCOPE, true, true)], [], []) && Incomplete(s.typ)
    ensures !CompleteModule(m)
  {
    CompleteModuleParts(m);
    UnresolvedParts(p, s);
  }

  lemma {:induction false} UnresolvedParts(p: Parts, s: Selection)
    requires p == Parts([Use(Select(s), NO_SCOPE, true, true)], [], []) && Incomplete(s.typ)
    ensures !CompleteParts(p)
  {
    assert !AllComplete(p.uses[0].expr);
  }

  ghost predicate FineInitially(sys: AstSystem) {
    RootErrors(sys.types, InitialTypes(sys)) == [] && NonModelErrors(AllTypes(sys), InitialTypes(sys)) == []
  }

  ghost predicate CleanModules(st: State) {
    forall j :: 0 <= j < |st.modules| ==> PassModule(st.modules[j], st.types).errors == []
  }

  lemma {:induction false} InitiallyFine()
    ensures FineInitially(SYS) && NonModelErrors(AllTypes(SYS), InitialTypes(SYS)) == []
  {
    var id := ContextFound0();
    InitialEntriesAre(SYS);
    assert SYS.types[..0] == [];
  }

  // ----- Nothing panics -----

  lemma {:induction false} OnlyContext(i: nat)
    requires i < |InitialTypes(SYS).values| && InitialTypes(SYS).values[i].ModelEntry?
    ensures InitialTypes(SYS).values[i].model == C
  {
    ModelsFrom(SYS, i);
  }

  lemma {:induction false} ContextHasNoUse()
    ensures ModelParts(C).uses == []
  {
    var f := (x: Field) => FieldParts(x, ModelScope("C"));
    var none: seq<Field> := [];
    assert NONE.annotations[..0] == [] && NONE.annotations[0..] == [];
    assert AnnotationsParts(NONE, ModelScope("C")) == NO_PARTS;
    assert f(C.fields[0]) == Parts([], [C.fields[0].typ], []);
    assert C.fields[1..] == none && Gathered(none, f) == NO_PARTS;
  }

  lemma {:induction false} FieldsPlain()
    ensures PlainFields(InitialTypes(SYS))
  {
    UnknownName();
    forall i, j | 0 <= i < |InitialTypes(SYS).values| && InitialTypes(SYS).values[i].ModelEntry?
                  && 0 <= j < |InitialTypes(SYS).values[i].model.fields|
      ensures PlainType(InitialTypes(SYS).values[i].model.fields[j].typ, InitialTypes(SYS))
    {
      OnlyContext(i);
    }
  }

  lemma {:induction false} ModuleIs()
    ensures StepParts(InitialState(SYS), OfModule(0)) == ModuleParts(M)
  {
    Parsed0();
    InitialModule(SYS, 0);
  }

  lemma PlainOne(p: Parts, e: Expr, env: Arena)
    requires p == Parts([Use(e, NO_SCOPE, true, true)], [], []) && CallsLast(e) && IdentifiersPlaced(e, env, NO_SCOPE)
    ensures PlainParts(p, env)
  {
  }

  lemma {:induction false} ModulePlain()
    ensures PlainParts(StepParts(InitialState(SYS), OfModule(0)), InitialTypes(SYS))
  {
    ModuleIs();
    ModuleHasOneUse();
    var id := ContextFound0();
    Selected(id);
    PlainOne(ModuleParts(M), Select(C_X), InitialTypes(SYS));
  }

  lemma {:induction false} ContextPlain(i: nat)
    ensures PlainParts(StepParts(InitialState(SYS), OfType(i)), InitialTypes(SYS))
  {
    if i < |InitialTypes(SYS).values| && InitialTypes(SYS).values[i].ModelEntry? {
      OnlyContext(i);
      ContextHasNoUse();
    }
  }

  lemma OtherModules(sys: AstSystem, j: nat)
    requires j >= |sys.modules|
    ensures PlainParts(StepParts(InitialState(sys), OfModule(j)), InitialTypes(sys))
  {
  }

  lemma StepPlain(step: Step)
    ensures PlainParts(StepParts(InitialState(SYS), step), InitialTypes(SYS))
  {
    if step.OfType? {
      ContextPlain(step.i);
    } else if step.j == 0 {
      ModulePlain();
    } else {
      OtherModules(SYS, step.j);
    }
  }

  lemma FaultFree0()
    ensures !FaultyProgram(SYS)
  {
    Parsed0();
    InitiallyFine();
    FieldsPlain();
    forall step ensures PlainParts(StepParts(InitialState(SYS), step), InitialTypes(SYS)) { StepPlain(step); }
    PlainIsFaultFree(SYS);
  }

  lemma CleanAccepted(sys: AstSystem, st: State)
    requires Final(sys, st) && CleanModules(st) && FineInitially(sys)
    ensures Verdict(sys, st) == []
  {
    NoModuleErrors(st.modules, st.types);
    InitialErrors(sys, st);
    VerdictEmpty(sys, st);
  }

  lemma {:induction false} OneClean(st: State)
    requires |st.modules| == 1 && PassModule(st.modules[0], st.types).errors == []
    ensures CleanModules(st)
  {
    forall j | 0 <= j < |st.modules| ensures PassModule(st.modules[j], st.types).errors == [] { assert j == 0; }
  }

  lemma {:induction false} Accepted0(st: State)
    requires Final(SYS, st)
    ensures Verdict(SYS, st) == []
  {
    FinalModuleClean(st);
    OneClean(st);
    InitiallyFine();
    CleanAccepted(SYS, st);
  }

  /** Nothing panics over the program, so that `build` ends in a state that no pass changes. */
  lemma {:induction false} NeverPanics()
    ensures ValidSystem(SYS) && ParsedSystem(SYS) && !FaultyProgram(SYS)
  {
    Parsed0();
    FaultFree0();
  }

  /** And every such state is accepted, but leaves the module unresolved. */
  lemma {:induction false} UnknownContextField(st: State)
    requires Final(SYS, st)
    ensures Verdict(SYS, st) == [] && |st.modules| == 1 && !CompleteModule(st.modules[0])
  {
    Accepted0(st);
    FinalModuleClean(st);
  }
}
