/**
 Slots left deferred, over the iterations of `build`.

 The types' copies may first be passed in an environment that is not settled yet, the modules'
 never are.
 */
module DeferredRuns {
  import opened Wrappers
  import opened Ast
  import opened Passes
  import opened OneShot
  import opened EnvironmentLemmas
  import opened ExprSoundness
  import opened Declarations
  import opened Parts
  import opened PartPasses
  import opened PartFacts
  import opened Typechecker
  import opened TypecheckerTheorems
  import opened Rounds
  import opened Faults
  import opened Deferrals
  import opened PanicRuns

  ghost predicate DefersParts(p: Parts, env0: Arena, loose: bool) {
    Every(p, (u: Use) => Defers(u.expr, env0, u.scope, loose), (t: FieldType) => true, (f: Fragment) => true)
  }

  /** Calls that are certain to leave a slot deferred have done so, in either copy. */
  ghost predicate DefersState(st: State, env0: Arena) {
    forall step :: StepDeferred(st, env0, step)
  }

  ghost predicate StepDeferred(st: State, env0: Arena, step: Step) {
    DefersParts(StepParts(st, step), env0, step.OfModule?)
  }

  // ----- At first every slot is deferred -----

  ghost predicate FreshParts(p: Parts) {
    Every(p, (u: Use) => Fresh(u.expr), (t: FieldType) => true, (f: Fragment) => true)
  }

  lemma FreshAnnotations(m: AnnotationMap, sc: Scope, ofUse: Use -> bool)
    requires m == ShallowAnnotations(m) && forall u: Use :: Fresh(u.expr) ==> ofUse(u)
    ensures OfAnnotations(m, sc, ofUse)
  {
    forall i | 0 <= i < |m.annotations|
      ensures forall j :: 0 <= j < |m.annotations[i].params| ==> Fresh(m.annotations[i].params[j])
    {
      var a := m.annotations[i];
      assert a == Map(m.annotations, ShallowAnnotation)[i] == ShallowAnnotation(a);
      forall j | 0 <= j < |a.params| ensures Fresh(a.params[j]) { assert a.params[j] == ShallowExprs(a.params)[j]; }
    }
  }

  lemma FreshFields(fs: seq<Field>, sc: Scope, ofUse: Use -> bool)
    requires fs == Map(fs, ShallowField) && forall u: Use :: Fresh(u.expr) ==> ofUse(u)
    ensures OfFields(fs, sc, ofUse, (t: FieldType) => true)
  {
    forall i | 0 <= i < |fs| ensures OfField(fs[i], sc, ofUse, (t: FieldType) => true) {
      assert fs[i] == Map(fs, ShallowField)[i];
      FreshAnnotations(fs[i].annotations, sc, ofUse);
      if fs[i].default.SelectionDefault? { assert Fresh(Select(fs[i].default.sel)); }
    }
  }

  lemma FreshModel(m: Model)
    requires m == ShallowModel(m)
    ensures FreshParts(ModelParts(m))
  {
    var ofUse, all, any := (u: Use) => Fresh(u.expr), (t: FieldType) => true, (f: Fragment) => true;
    FreshFields(m.fields, ModelScope(m.name), ofUse);
    FreshAnnotations(m.annotations, ModelScope(m.name), ofUse);
    EveryModel(m, ofUse, all, any);
  }

  lemma FreshCallables(cs: seq<Callable>, ofUse: Use -> bool)
    requires cs == Map(cs, ShallowCallable) && forall u: Use :: Fresh(u.expr) ==> ofUse(u)
    ensures forall i :: 0 <= i < |cs| ==> OfCallable(cs[i], ofUse, (t: FieldType) => true)
  {
    forall i | 0 <= i < |cs| ensures OfCallable(cs[i], ofUse, (t: FieldType) => true) {
      assert cs[i] == Map(cs, ShallowCallable)[i];
      FreshFields(cs[i].args, NO_SCOPE, ofUse);
      FreshAnnotations(cs[i].annotations, NO_SCOPE, ofUse);
    }
  }

  lemma FreshModule(m: Module)
    requires m == ShallowModule(m)
    ensures FreshParts(ModuleParts(m))
  {
    var ofUse, all, any := (u: Use) => Fresh(u.expr), (t: FieldType) => true, (f: Fragment) => true;
    forall i | 0 <= i < |m.types| ensures OfModel(m.types[i], ofUse, all, any) {
      assert m.types[i] == Map(m.types, ShallowModel)[i];
      FreshModel(m.types[i]);
      EveryModel(m.types[i], ofUse, all, any);
    }
    FreshCallables(m.methods, ofUse);
    FreshCallables(m.interceptors, ofUse);
    FreshAnnotations(m.annotations, NO_SCOPE, ofUse);
    EveryModule(m, ofUse, all, any);
  }

  lemma FreshPartsDefer(p: Parts, env0: Arena, loose: bool)
    requires FreshParts(p)
    ensures DefersParts(p, env0, loose)
  {
    forall k | 0 <= k < |p.uses| ensures Defers(p.uses[k].expr, env0, p.uses[k].scope, loose) {
      assert Fresh(p.uses[k].expr);
      FreshDefers(p.uses[k].expr, env0, p.uses[k].scope, loose);
    }
  }

  lemma InitialDefers(sys: AstSystem)
    requires ParsedSystem(sys)
    ensures DefersState(InitialState(sys), InitialTypes(sys))
  {
    forall step ensures StepDeferred(InitialState(sys), InitialTypes(sys), step) {
      InitialFresh(sys, step);
      FreshPartsDefer(StepParts(InitialState(sys), step), InitialTypes(sys), step.OfModule?);
    }
  }

  lemma InitialFresh(sys: AstSystem, step: Step)
    requires ParsedSystem(sys)
    ensures FreshParts(StepParts(InitialState(sys), step))
  {
    var init := InitialState(sys);
    match step
    case OfType(i) =>
      if i < |init.types.values| && init.types.values[i].ModelEntry? {
        InitialEntry(sys, i);
        var t :| t in AllTypes(sys) && init.types.values[i] == ModelEntry(ShallowModel(t));
        DeclaredUntyped(sys, t);
        FreshModel(t);
      }
    case OfModule(j) =>
      if j < |sys.modules| {
        assert init.modules[j] == ShallowModule(sys.modules[j]) == sys.modules[j];
        FreshModule(sys.modules[j]);
      }
  }

  // ----- The iterations keep them so -----

  lemma PassedPartsDefer(p: Parts, q: Parts, env: Arena, env0: Arena, loose: bool)
    requires StateOf(env, env0) && SoundParts(p, env0) && ScopesOk(p, env0) && DefersParts(p, env0, loose)
    requires PassedParts(p, q, env) && (loose ==> EnvSettled(env))
    ensures DefersParts(q, env0, loose)
  {
    forall k | 0 <= k < |q.uses| ensures Defers(q.uses[k].expr, env0, q.uses[k].scope, loose) {
      var u := p.uses[k];
      assert q.uses[k] == PassedUse(u, env);
      assert Sound(u.expr, env0, u.scope) && ScopeOk(u.scope, env0) && Defers(u.expr, env0, u.scope, loose);
      PassDefers(u.expr, env, env0, u.scope, loose);
    }
  }

  lemma OtherParts(st: State, step: Step, other: Step)
    requires step != other
    ensures StepParts(StepPass(st, step).node, other) == StepParts(st, other)
  {
  }

  lemma SameParts(st: State, step: Step)
    requires !StepPass(st, step).changed
    ensures StepPass(st, step).node == st
  {
  }

  /** What a step passes has been passed, if it reports a change. */
  lemma ChangedParts(st: State, step: Step)
    requires StepPass(st, step).changed
    ensures PassedParts(StepParts(st, step), StepParts(StepPass(st, step).node, step), st.types)
  {
    match step
    case OfType(i) => DigestModel(st.types.values[i].model, st.types);
    case OfModule(j) => DigestModule(st.modules[j], st.types);
  }

  lemma StepDefers(st: State, init: State, step: Step)
    requires Inv(st, init) && DefersState(st, init.types) && (step.OfModule? ==> EnvSettled(st.types))
    ensures DefersState(StepPass(st, step).node, init.types)
  {
    if StepPass(st, step).changed {
      var now := StepPass(st, step).node;
      InvStateOf(st, init);
      ReachedParts(st, init, step);
      ChangedParts(st, step);
      assert StepDeferred(st, init.types, step);
      PassedPartsDefer(StepParts(st, step), StepParts(now, step), st.types, init.types, step.OfModule?);
      forall other ensures StepDeferred(now, init.types, other) {
        assert StepDeferred(st, init.types, other);
        if other != step { OtherParts(st, step, other); }
      }
    } else {
      SameParts(st, step);
    }
  }

  lemma {:induction false} TypeStepsDefer(st: State, init: State, steps: seq<Step>)
    requires Inv(st, init) && DefersState(st, init.types) && forall k :: 0 <= k < |steps| ==> steps[k].OfType?
    ensures DefersState(Run(st, steps), init.types)
    decreases |steps|
  {
    if steps != [] {
      StepDefers(st, init, steps[0]);
      StepStepped(st, init, steps[0]);
      TypeStepsDefer(StepPass(st, steps[0]).node, init, steps[1..]);
    }
  }

  lemma ModuleStepTypes(st: State, step: Step)
    requires step.OfModule?
    ensures StepPass(st, step).node.types == st.types
  {
  }

  lemma {:induction false} ModuleStepsDefer(st: State, init: State, steps: seq<Step>)
    requires Inv(st, init) && DefersState(st, init.types) && EnvSettled(st.types) &&
             forall k :: 0 <= k < |steps| ==> steps[k].OfModule?
    ensures DefersState(Run(st, steps), init.types)
    decreases |steps|
  {
    if steps != [] {
      StepDefers(st, init, steps[0]);
      StepStepped(st, init, steps[0]);
      ModuleStepTypes(st, steps[0]);
      ModuleStepsDefer(StepPass(st, steps[0]).node, init, steps[1..]);
    }
  }

  lemma RoundKinds(sys: AstSystem)
    ensures forall k :: 0 <= k < |DeclaredSteps(sys)| ==> DeclaredSteps(sys)[k].OfType?
    ensures forall k :: 0 <= k < |ModuleSteps(|sys.modules|)| ==> ModuleSteps(|sys.modules|)[k].OfModule?
  {
    NamesDeclared(sys);
  }

  lemma {:induction false} RoundDefers(sys: AstSystem, st: State)
    requires Inv(st, InitialState(sys)) && DefersState(st, InitialTypes(sys))
    ensures DefersState(Run(st, IterationSteps(sys)), InitialTypes(sys))
  {
    var types, modules := DeclaredSteps(sys), ModuleSteps(|sys.modules|);
    RoundKinds(sys);
    TypeStepsDefer(st, InitialState(sys), types);
    RunSafe(st, InitialState(sys), types);
    SettledForModules(sys, st);
    ModuleStepsDefer(Run(st, types), InitialState(sys), modules);
    RunSplit(st, types, modules);
  }

  lemma NextRound(sys: AstSystem, st: State, steps: seq<Step>, before: seq<Step>)
    requires Inv(st, InitialState(sys)) && DefersState(Run(st, before), InitialTypes(sys)) &&
             steps == IterationSteps(sys)
    ensures DefersState(Run(st, before + steps), InitialTypes(sys))
  {
    RunSafe(st, InitialState(sys), before);
    RoundDefers(sys, Run(st, before));
    RunSplit(st, before, steps);
  }

  ghost predicate DeferredAfter(sys: AstSystem, before: seq<Step>) {
    DefersState(Run(InitialState(sys), before), InitialTypes(sys))
  }

  lemma DeferredNext(sys: AstSystem, before: seq<Step>)
    requires ParsedSystem(sys) && DeferredAfter(sys, before)
    ensures DeferredAfter(sys, before + IterationSteps(sys))
  {
    InitialInv(sys);
    NextRound(sys, InitialState(sys), IterationSteps(sys), before);
  }

  lemma DeferredFirst(sys: AstSystem)
    requires ParsedSystem(sys)
    ensures DeferredAfter(sys, [])
  {
    InitialDefers(sys);
  }

  lemma {:induction false} RepeatHolds(steps: seq<Step>, n: nat, p: seq<Step> -> bool)
    requires p([]) && forall before :: p(before) ==> p(before + steps)
    ensures p(Repeat(steps, n))
  {
    if n > 0 { RepeatHolds(steps, n - 1, p); }
  }

  /** Over all iterations of `build`. */
  lemma RoundsDefer(sys: AstSystem, n: nat)
    requires ParsedSystem(sys)
    ensures DeferredAfter(sys, Repeat(IterationSteps(sys), n))
  {
    var p := (before: seq<Step>) => DeferredAfter(sys, before);
    DeferredFirst(sys);
    forall before | p(before) ensures p(before + IterationSteps(sys)) { DeferredNext(sys, before); }
    RepeatHolds(IterationSteps(sys), n, p);
  }
}
