/** When `build` panics. */
module PanicRuns {
  import opened Wrappers
  import opened Ast
  import opened Passes
  import opened OneShot
  import opened EnvironmentLemmas
  import opened ExprSoundness
  import opened Declarations
  import opened Parts
  import opened PartPasses
  import opened PartFacts
  import opened PartShapes
  import opened Typechecker
  import opened TypecheckerTheorems
  import opened Rounds
  import opened Faults
  import opened Panics

  predicate UsePanics(u: Use, env: Arena) {
    u.visited && ExprPanics(u.expr, env, u.scope)
  }

  predicate PartsPanic(p: Parts, env: Arena) {
    exists k :: 0 <= k < |p.uses| && UsePanics(p.uses[k], env)
  }

  /** What a step passes. */
  function StepParts(st: State, step: Step): Parts {
    match step
    case OfType(i) =>
      if i < |st.types.values| && st.types.values[i].ModelEntry? then ModelParts(st.types.values[i].model) else NO_PARTS
    case OfModule(j) => if j < |st.modules| then ModuleParts(st.modules[j]) else NO_PARTS
  }

  /** Finding that a declared type is no model, the source prints what it is. */
  predicate NamesInjected(st: State, step: Step) {
    step.OfType? && step.i < |st.types.values| && st.types.values[step.i].InjectedEntry?
  }

  predicate StepPanics(st: State, step: Step) {
    NamesInjected(st, step) || PartsPanic(StepParts(st, step), st.types)
  }

  /** None of the passes panics. */
  predicate Calm(st: State, steps: seq<Step>)
    decreases |steps|
  {
    steps == [] || (!StepPanics(st, steps[0]) && Calm(StepPass(st, steps[0]).node, steps[1..]))
  }

  lemma {:induction false} CalmSplit(st: State, a: seq<Step>, b: seq<Step>)
    ensures Calm(st, a + b) <==> Calm(st, a) && Calm(Run(st, a), b)
    decreases |a|
  {
    if a == [] { assert a + b == b; } else {
      assert (a + b)[0] == a[0] && (a + b)[1..] == a[1..] + b;
      CalmSplit(StepPass(st, a[0]).node, a[1..], b);
    }
  }

  lemma CalmSnoc(st: State, a: seq<Step>, step: Step)
    ensures Calm(st, a + [step]) <==> Calm(st, a) && !StepPanics(Run(st, a), step)
  {
    CalmSplit(st, a, [step]);
    assert [step][1..] == [];
  }

  /** A calm round that changes nothing has found nothing to panic over. */
  lemma {:induction false} CalmUnchanging(st: State, steps: seq<Step>)
    requires Calm(st, steps) && Changes(st, steps) == 0
    ensures forall k :: 0 <= k < |steps| ==> !StepPanics(st, steps[k])
    decreases |steps|
  {
    if steps != [] {
      assert StepPass(st, steps[0]).node == st;
      CalmUnchanging(st, steps[1..]);
      assert forall k :: 0 < k < |steps| ==> steps[k] == steps[1..][k - 1];
    }
  }

  // ----- A panic needs a fault -----

  predicate UseFaulty(u: Use, env0: Arena) {
    u.visited && Faulty(u.expr, env0, u.scope, Possible)
  }

  ghost predicate PartsFaulty(p: Parts, env0: Arena) {
    exists k :: 0 <= k < |p.uses| && UseFaulty(p.uses[k], env0)
  }

  /** What the step passes names an injected type as a model, or has a possible fault. */
  ghost predicate StepFaulty(sys: AstSystem, step: Step) {
    NamesInjected(InitialState(sys), step) || PartsFaulty(StepParts(InitialState(sys), step), InitialTypes(sys))
  }

  /** The program has a possible fault. */
  ghost predicate FaultyProgram(sys: AstSystem) {
    exists step :: step in IterationSteps(sys) && StepFaulty(sys, step)
  }

  lemma PartsPanicFaulty(p: Parts, q: Parts, env: Arena, env0: Arena)
    requires StateOf(env, env0) && SoundParts(p, env0) && ScopesOk(p, env0) && SameShape(p, q) && PartsPanic(p, env)
    ensures PartsFaulty(q, env0)
  {
    var k :| 0 <= k < |p.uses| && UsePanics(p.uses[k], env);
    var u, v := p.uses[k], q.uses[k];
    assert UseShape(u, v) && Sound(u.expr, env0, u.scope) && ScopeOk(u.scope, env0);
    PanicFaulty(u.expr, env, env0, u.scope);
    SameFaulty(u.expr, v.expr, env0, u.scope, Possible);
    assert UseFaulty(q.uses[k], env0);
  }

  lemma ReachedParts(st: State, init: State, step: Step)
    requires Inv(st, init)
    ensures SoundParts(StepParts(st, step), init.types) && ScopesOk(StepParts(st, step), init.types)
    ensures SameShape(StepParts(st, step), StepParts(init, step))
  {
    match step
    case OfType(i) => ReachedEntry(st, init, i);
    case OfModule(j) =>
      if j < |st.modules| {
        assert ModuleOk(st, init, j);
        ReachedModule(st.modules[j], init.modules[j], init.types);
      }
  }

  lemma {:induction false} ReachedEntry(st: State, init: State, i: nat)
    requires Inv(st, init)
    ensures var p := StepParts(st, OfType(i));
            SoundParts(p, init.types) && ScopesOk(p, init.types) && SameShape(p, StepParts(init, OfType(i)))
  {
    if i < |st.types.values| {
      assert EntryOk(st, init, i);
      if st.types.values[i].ModelEntry? {
        var m, d := st.types.values[i].model, init.types.values[i].model;
        ReachedModel(m, d, init.types);
        assert StepParts(st, OfType(i)) == ModelParts(m) && StepParts(init, OfType(i)) == ModelParts(d);
      }
    }
  }

  lemma ReachedModel(m: Model, d: Model, env0: Arena)
    requires SoundModel(m, env0) && ShallowModel(m) == ShallowModel(d)
    ensures SoundParts(ModelParts(m), env0) && ScopesOk(ModelParts(m), env0) && SameShape(ModelParts(m), ModelParts(d))
  {
    SoundModelParts(m, env0);
    ModelScopes(m, env0);
    ShapeModel(m, d);
  }

  lemma ReachedModule(m: Module, d: Module, env0: Arena)
    requires SoundModule(m, env0) && ShallowModule(m) == ShallowModule(d)
    ensures SoundParts(ModuleParts(m), env0) && ScopesOk(ModuleParts(m), env0) &&
            SameShape(ModuleParts(m), ModuleParts(d))
  {
    SoundModuleParts(m, env0);
    ModuleScopes(m, env0);
    ShapeModule(m, d);
  }

  lemma SameNamesInjected(st: State, init: State, step: Step)
    requires Inv(st, init)
    ensures NamesInjected(st, step) <==> NamesInjected(init, step)
  {
    if step.OfType? && step.i < |st.types.values| { assert EntryOk(st, init, step.i); }
  }

  /** In any order of the program's passes, a panic needs a fault. */
  lemma {:induction false} PanicNeedsFault(sys: AstSystem, st: State, steps: seq<Step>)
    requires Inv(st, InitialState(sys)) && !Calm(st, steps)
    requires forall step :: step in steps ==> step in IterationSteps(sys)
    ensures FaultyProgram(sys)
    decreases |steps|
  {
    var init, step := InitialState(sys), steps[0];
    if StepPanics(st, step) {
      SameNamesInjected(st, init, step);
      if !NamesInjected(st, step) {
        InvStateOf(st, init);
        ReachedParts(st, init, step);
        PartsPanicFaulty(StepParts(st, step), StepParts(init, step), st.types, init.types);
      }
      assert StepFaulty(sys, step);
    } else {
      StepStepped(st, init, step);
      PanicNeedsFault(sys, StepPass(st, step).node, steps[1..]);
    }
  }
}
