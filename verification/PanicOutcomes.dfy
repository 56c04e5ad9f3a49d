/** Which programs make `build` panic. */
module PanicOutcomes {
  import opened Wrappers
  import opened Ast
  import opened Passes
  import opened OneShot
  import opened EnvironmentLemmas
  import opened ExprSoundness
  import opened ExprCompletion
  import opened QuietForms
  import opened IdealForms
  import opened Declarations
  import opened Parts
  import opened PartPasses
  import opened PartFacts
  import opened PartShapes
  import opened Typechecker
  import opened TypecheckerTheorems
  import opened FinalForms
  import opened Acceptance
  import opened Rounds
  import opened Faults
  import opened FaultFree
  import opened Deferrals
  import opened Panics
  import opened CertainPanics
  import opened PanicRuns
  import opened DeferredRuns

  // ----- Certain faults -----

  /** A fault that every pass in a settled environment meets.  Under an undeclared annotation, an expression may
      change for ever. */
  predicate UseCertain(u: Use, env0: Arena, loose: bool) {
    u.visited && Faulty(u.expr, env0, u.scope, Certain(loose, !u.heard))
  }

  ghost predicate PartsCertain(p: Parts, env0: Arena, loose: bool) {
    exists k :: 0 <= k < |p.uses| && UseCertain(p.uses[k], env0, loose)
  }

  /** Modules, unlike types, are first passed in a settled environment. */
  ghost predicate StepCertain(sys: AstSystem, step: Step) {
    NamesInjected(InitialState(sys), step) ||
    PartsCertain(StepParts(InitialState(sys), step), InitialTypes(sys), step.OfModule?)
  }

  ghost predicate CertainProgram(sys: AstSystem) {
    exists step :: step in IterationSteps(sys) && StepCertain(sys, step)
  }

  lemma {:induction false} CertainPartsPanic(p: Parts, q: Parts, env: Arena, env0: Arena, loose: bool)
    requires FinalParts(q, env, env0) && DefersParts(q, env0, loose) && SameShape(q, p) && PartsCertain(p, env0, loose)
    ensures PartsPanic(q, env)
  {
    var k :| 0 <= k < |p.uses| && UseCertain(p.uses[k], env0, loose);
    var u, v := p.uses[k], q.uses[k];
    assert UseShape(v, u) && UseQuiet(v, env) && Sound(v.expr, env0, v.scope) && ScopeOk(v.scope, env0);
    assert Defers(v.expr, env0, v.scope, loose);
    SameFaulty(u.expr, v.expr, env0, u.scope, Certain(loose, !u.heard));
    FaultyPanics(v.expr, env, env0, v.scope, Certain(loose, !u.heard));
    assert UsePanics(q.uses[k], env);
  }

  lemma FinalStepParts(sys: AstSystem, st: State, step: Step)
    requires Final(sys, st)
    ensures FinalParts(StepParts(st, step), st.types, InitialTypes(sys))
  {
    if step.OfType? && step.i < |st.types.values| && st.types.values[step.i].ModelEntry? {
      FinalEntryParts(sys, st, step.i);
    } else if step.OfModule? && step.j < |st.modules| {
      FinalModuleParts(sys, st, step.j);
    } else {
      FinalNothing(sys, st);
    }
  }

  lemma FinalNothing(sys: AstSystem, st: State)
    requires Final(sys, st)
    ensures FinalParts(NO_PARTS, st.types, InitialTypes(sys))
  {
    FinalSettled(sys, st);
    InvStateOf(st, InitialState(sys));
  }

  /** No state that the iterations end in is free of panics, if the program has a certain fault. */
  lemma FinalPanics(sys: AstSystem, st: State, step: Step)
    requires Final(sys, st) && DefersState(st, InitialTypes(sys)) && StepCertain(sys, step)
    ensures StepPanics(st, step)
  {
    var init := InitialState(sys);
    SameNamesInjected(st, init, step);
    if !NamesInjected(init, step) {
      ReachedParts(st, init, step);
      FinalStepParts(sys, st, step);
      assert StepDeferred(st, init.types, step);
      CertainPartsPanic(StepParts(init, step), StepParts(st, step), st.types, init.types, step.OfModule?);
    }
  }

  // ----- Contexts outside modules -----

  /** The arena's entry of a type declared outside modules. */
  ghost predicate FromRoot(sys: AstSystem, i: nat) {
    i < |InitialTypes(sys).values| &&
    exists t :: t in sys.types && InitialTypes(sys).values[i] == ModelEntry(ShallowModel(t))
  }

  /** Some context outside modules has a possible fault. */
  ghost predicate FaultyContext(sys: AstSystem) {
    exists i :: FromRoot(sys, i) && PartsFaulty(StepParts(InitialState(sys), OfType(i)), InitialTypes(sys))
  }

  lemma {:induction false} TypeFaultInModule(m: Module, k: nat, env0: Arena)
    requires k < |m.types| && PartsFaulty(ModelParts(m.types[k]), env0)
    ensures PartsFaulty(ModuleParts(m), env0)
  {
    var clean, all, any := (u: Use) => !UseFaulty(u, env0), (t: FieldType) => true, (f: Fragment) => true;
    EveryModule(m, clean, all, any);
    EveryModel(m.types[k], clean, all, any);
  }

  /** The declaration in a module that an entry comes from. */
  lemma EntryModule(sys: AstSystem, i: nat) returns (j: nat, k: nat)
    requires ParsedSystem(sys) && i < |InitialTypes(sys).values| && InitialTypes(sys).values[i].ModelEntry? &&
             !FromRoot(sys, i)
    ensures j < |sys.modules| && k < |sys.modules[j].types| &&
            InitialTypes(sys).values[i] == ModelEntry(sys.modules[j].types[k])
  {
    InitialEntry(sys, i);
    var t :| t in AllTypes(sys) && InitialTypes(sys).values[i] == ModelEntry(ShallowModel(t));
    DeclaredUntyped(sys, t);
    ModuleTypesFrom(sys.modules, t);
    j :| 0 <= j < |sys.modules| && t in sys.modules[j].types;
    k :| 0 <= k < |sys.modules[j].types| && sys.modules[j].types[k] == t;
  }

  lemma InitialModule(sys: AstSystem, j: nat)
    requires ParsedSystem(sys) && j < |sys.modules|
    ensures StepParts(InitialState(sys), OfModule(j)) == ModuleParts(sys.modules[j])
  {
    assert InitialState(sys).modules[j] == ShallowModule(sys.modules[j]) == sys.modules[j];
  }

  /** A fault of an entry is one of a context outside modules, or of a module. */
  lemma EntryFault(sys: AstSystem, i: nat) returns (j: nat)
    requires ParsedSystem(sys) && PartsFaulty(StepParts(InitialState(sys), OfType(i)), InitialTypes(sys)) &&
             !FromRoot(sys, i)
    ensures j < |sys.modules| && PartsFaulty(StepParts(InitialState(sys), OfModule(j)), InitialTypes(sys))
  {
    var k;
    j, k := EntryModule(sys, i);
    InitialModule(sys, j);
    TypeFaultInModule(sys.modules[j], k, InitialTypes(sys));
  }

  // ----- When every fault is certain -----

  /** If it has a fault at all, its annotation is declared, it selects no plain field on a set, and, unless it is
      first passed in a settled environment, calls on composites are on single identifiers. */
  predicate UseRegular(u: Use, env0: Arena, loose: bool) {
    UseFaulty(u, env0) ==>
      u.heard && SetFieldFree(u.expr, env0, u.scope) && (loose || ExprDirectCalls(u.expr, env0, u.scope))
  }

  ghost predicate RegularParts(p: Parts, env0: Arena, loose: bool) {
    Every(p, (u: Use) => UseRegular(u, env0, loose), (t: FieldType) => true, (f: Fragment) => true)
  }

  /** Every expression is regular; those of modules are first passed in a settled environment. */
  ghost predicate RegularProgram(sys: AstSystem) {
    && (forall j: nat :: RegularParts(StepParts(InitialState(sys), OfModule(j)), InitialTypes(sys), true))
    && (forall i: nat :: FromRoot(sys, i) ==>
          RegularParts(StepParts(InitialState(sys), OfType(i)), InitialTypes(sys), false))
  }

  lemma RegularCertain(p: Parts, env0: Arena, loose: bool)
    requires RegularParts(p, env0, loose) && PartsFaulty(p, env0)
    ensures PartsCertain(p, env0, loose)
  {
    var k :| 0 <= k < |p.uses| && UseFaulty(p.uses[k], env0);
    var u := p.uses[k];
    assert UseRegular(u, env0, loose);
    PossibleCertain(u.expr, env0, u.scope, loose);
    assert UseCertain(p.uses[k], env0, loose);
  }

  lemma CertainFaulty(p: Parts, env0: Arena, loose: bool)
    requires PartsCertain(p, env0, loose)
    ensures PartsFaulty(p, env0)
  {
    var k :| 0 <= k < |p.uses| && UseCertain(p.uses[k], env0, loose);
    CertainPossible(p.uses[k].expr, env0, p.uses[k].scope, Certain(loose, !p.uses[k].heard));
    assert UseFaulty(p.uses[k], env0);
  }

  lemma CertainIsFaulty(sys: AstSystem)
    requires CertainProgram(sys)
    ensures FaultyProgram(sys)
  {
    var step :| step in IterationSteps(sys) && StepCertain(sys, step);
    if !NamesInjected(InitialState(sys), step) {
      CertainFaulty(StepParts(InitialState(sys), step), InitialTypes(sys), step.OfModule?);
    }
    assert StepFaulty(sys, step);
  }

  lemma RegularStep(sys: AstSystem, step: Step)
    requires ParsedSystem(sys) && RegularProgram(sys) && step in IterationSteps(sys) && StepFaulty(sys, step)
    ensures CertainProgram(sys)
  {
    var init, env0 := InitialState(sys), InitialTypes(sys);
    if NamesInjected(init, step) {
      assert StepCertain(sys, step);
    } else if step.OfModule? {
      RegularCertain(StepParts(init, step), env0, true);
      assert StepCertain(sys, step);
    } else if FromRoot(sys, step.i) {
      RegularCertain(StepParts(init, step), env0, false);
      assert StepCertain(sys, step);
    } else {
      var j := EntryFault(sys, step.i);
      RegularCertain(StepParts(init, OfModule(j)), env0, true);
      ModulesAreVisited(sys, j);
      assert StepCertain(sys, OfModule(j));
    }
  }

  /** In a regular program every fault is certain. */
  lemma RegularFaults(sys: AstSystem)
    requires ParsedSystem(sys)
    ensures RegularProgram(sys) ==> (FaultyProgram(sys) <==> CertainProgram(sys))
  {
    if CertainProgram(sys) { CertainIsFaulty(sys); }
    if FaultyProgram(sys) && RegularProgram(sys) {
      var step :| step in IterationSteps(sys) && StepFaulty(sys, step);
      RegularStep(sys, step);
    }
  }

  // ----- Programs without faults -----

  /** A well-typed program has no faults but in contexts outside modules. */
  lemma TypedFaultFree(sys: AstSystem)
    requires ParsedSystem(sys) && WellTyped(sys) && FaultyProgram(sys)
    ensures FaultyContext(sys)
  {
    var step :| step in IterationSteps(sys) && StepFaulty(sys, step);
    TypedNamesModels(sys, step);
    if step.OfModule? {
      TypedModuleFaultFree(sys, step.j);
    } else if !FromRoot(sys, step.i) {
      var j := EntryFault(sys, step.i);
      TypedModuleFaultFree(sys, j);
    }
  }

  lemma TypedModuleFaultFree(sys: AstSystem, j: nat)
    requires ParsedSystem(sys) && WellTyped(sys)
    ensures !PartsFaulty(StepParts(InitialState(sys), OfModule(j)), InitialTypes(sys))
  {
    if j < |sys.modules| {
      InitialModule(sys, j);
      TypedPartsFaultFree(ModuleParts(sys.modules[j]), InitialTypes(sys));
    }
  }

  lemma TypedPartsFaultFree(p: Parts, env0: Arena)
    requires TypedParts(p, env0)
    ensures !PartsFaulty(p, env0)
  {
    forall k | 0 <= k < |p.uses| ensures !UseFaulty(p.uses[k], env0) {
      var u := p.uses[k];
      assert Complete(Infer(u.expr, env0, u.scope));
      if Faulty(u.expr, env0, u.scope, Possible) { FaultyUntyped(u.expr, env0, u.scope, Possible); }
    }
  }

  lemma {:induction false} ModelNames(all: seq<Model>, types: Arena, k: nat)
    requires NonModelErrors(all, types) == [] && k < |all|
    ensures IsModelName(all[k].name, types)
  {
    if k < |all| - 1 { ModelNames(all[..|all| - 1], types, k); }
  }

  lemma TypedNamesModels(sys: AstSystem, step: Step)
    requires WellTyped(sys) && step in IterationSteps(sys)
    ensures !NamesInjected(InitialState(sys), step)
  {
    NamesDeclared(sys);
    if step.OfType? {
      var all, ids := AllTypes(sys), InitialTypes(sys).ids;
      var k :| 0 <= k < |IterationSteps(sys)| && IterationSteps(sys)[k] == step;
      assert step == TypeStep(all[k], ids);
      ModelNames(all, InitialTypes(sys), k);
    }
  }

  /** Declared types are models, none of their fields is bare or of an injected type, nothing is selected from a
      call, and bare identifiers are in place. */
  ghost predicate PlainProgram(sys: AstSystem) {
    && NonModelErrors(AllTypes(sys), InitialTypes(sys)) == [] && PlainFields(InitialTypes(sys))
    && forall step :: PlainParts(StepParts(InitialState(sys), step), InitialTypes(sys))
  }

  ghost predicate PlainParts(p: Parts, env0: Arena) {
    Every(p, (u: Use) => PlainUse(u, env0), (t: FieldType) => true, (f: Fragment) => true)
  }

  predicate PlainUse(u: Use, env0: Arena) {
    CallsLast(u.expr) && IdentifiersPlaced(u.expr, env0, u.scope)
  }

  lemma {:induction false} SoundParsed(e: Expr, env: Arena, sc: Scope)
    requires Sound(e, env, sc)
    ensures Parsed(e)
    decreases e, 0
  {
    match e
    case Lit(_) =>
    case Select(s) => SoundSelectionParsed(s, env, sc);
    case Not(x, _) => SoundParsed(x, env, sc);
    case Logical(_, l, r, _) => SoundParsed(l, env, sc); SoundParsed(r, env, sc);
    case Relational(_, l, r, _) => SoundParsed(l, env, sc); SoundParsed(r, env, sc);
  }

  lemma {:induction false} SoundSelectionParsed(s: Selection, env: Arena, sc: Scope)
    requires SelectionSound(s, env, sc)
    ensures SelectionParsed(s)
    decreases s, 0
  {
    if s.Path? {
      SoundSelectionParsed(s.prefix, env, sc);
      assert ElementSound(s.elem, s.typ, s.prefix.typ, env, sc);
      var target := TargetOf(Deref(s.prefix.typ, env));
      if s.elem.HofCall? && Complete(s.prefix.typ) && PassesElement(target, s.elem) {
        SoundParsed(s.elem.body, env, BodyScope(s.elem.param, Some(target.of), env, sc).value);
      }
    }
  }

  lemma PlainPartsFaultFree(p: Parts, env0: Arena)
    requires env0.Valid() && PlainFields(env0) && SoundParts(p, env0) && PlainParts(p, env0)
    requires OfScopes(p, (sc: Scope) => PlainScope(sc, env0))
    ensures !PartsFaulty(p, env0)
  {
    forall k | 0 <= k < |p.uses| ensures !UseFaulty(p.uses[k], env0) {
      var u := p.uses[k];
      assert Sound(u.expr, env0, u.scope) && PlainUse(u, env0) && PlainScope(u.scope, env0);
      SoundParsed(u.expr, env0, u.scope);
      FaultFreeExpr(u.expr, env0, u.scope, Possible);
    }
  }

  lemma PlainScopes(sys: AstSystem, step: Step)
    requires ParsedSystem(sys) && NonModelErrors(AllTypes(sys), InitialTypes(sys)) == []
    ensures OfScopes(StepParts(InitialState(sys), step), (sc: Scope) => PlainScope(sc, InitialTypes(sys)))
  {
    match step
    case OfType(i) =>
      if i < |InitialTypes(sys).values| && InitialTypes(sys).values[i].ModelEntry? { PlainEntry(sys, i); }
    case OfModule(j) => if j < |sys.modules| { PlainModule(sys, j); }
  }

  lemma PlainEntry(sys: AstSystem, i: nat)
    requires ParsedSystem(sys) && NonModelErrors(AllTypes(sys), InitialTypes(sys)) == []
    requires i < |InitialTypes(sys).values| && InitialTypes(sys).values[i].ModelEntry?
    ensures OfScopes(ModelParts(InitialTypes(sys).values[i].model), (sc: Scope) => PlainScope(sc, InitialTypes(sys)))
  {
    InitialEntry(sys, i);
    var t :| t in AllTypes(sys) && InitialTypes(sys).values[i] == ModelEntry(ShallowModel(t));
    DeclaredName(sys, t);
    ModelScopesHold(InitialTypes(sys).values[i].model, (sc: Scope) => PlainScope(sc, InitialTypes(sys)));
  }

  lemma PlainModule(sys: AstSystem, j: nat)
    requires ParsedSystem(sys) && NonModelErrors(AllTypes(sys), InitialTypes(sys)) == [] && j < |sys.modules|
    ensures OfScopes(ModuleParts(InitialState(sys).modules[j]), (sc: Scope) => PlainScope(sc, InitialTypes(sys)))
  {
    var plain := (sc: Scope) => PlainScope(sc, InitialTypes(sys));
    var m := sys.modules[j];
    assert InitialState(sys).modules[j] == ShallowModule(m) == m;
    forall k | 0 <= k < |m.types| ensures plain(ModelScope(m.types[k].name)) {
      ModuleTypesFrom(sys.modules, m.types[k]);
      DeclaredName(sys, m.types[k]);
    }
    ModuleScopesHold(m, plain);
  }

  lemma DeclaredName(sys: AstSystem, t: Model)
    requires t in AllTypes(sys) && NonModelErrors(AllTypes(sys), InitialTypes(sys)) == []
    ensures PlainScope(ModelScope(t.name), InitialTypes(sys))
  {
    var k :| 0 <= k < |AllTypes(sys)| && AllTypes(sys)[k] == t;
    ModelNames(AllTypes(sys), InitialTypes(sys), k);
  }

  lemma PlainStep(sys: AstSystem, step: Step)
    requires ParsedSystem(sys) && PlainProgram(sys) && step in IterationSteps(sys)
    ensures !StepFaulty(sys, step)
  {
    NamesDeclared(sys);
    InitialInv(sys);
    if step.OfType? {
      var k :| 0 <= k < |IterationSteps(sys)| && IterationSteps(sys)[k] == step;
      assert step == TypeStep(AllTypes(sys)[k], InitialTypes(sys).ids);
      ModelNames(AllTypes(sys), InitialTypes(sys), k);
    }
    PlainScopes(sys, step);
    ReachedParts(InitialState(sys), InitialState(sys), step);
    assert PlainParts(StepParts(InitialState(sys), step), InitialTypes(sys));
    PlainPartsFaultFree(StepParts(InitialState(sys), step), InitialTypes(sys));
  }

  /** Such a program has no faults, so that nothing panics. */
  lemma PlainIsFaultFree(sys: AstSystem)
    requires ParsedSystem(sys) && PlainProgram(sys)
    ensures !FaultyProgram(sys)
  {
    forall step | step in IterationSteps(sys) ensures !StepFaulty(sys, step) { PlainStep(sys, step); }
  }
}
