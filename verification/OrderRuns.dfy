/** What the order of visiting can change, over runs from the parsed program. */
module OrderRuns {
  import opened Wrappers
  import opened Ast
  import opened Passes
  import opened OneShot
  import opened EnvironmentLemmas
  import opened ExprSoundness
  import opened QuietForms
  import opened Declarations
  import opened Parts
  import opened PartShapes
  import opened Typechecker
  import opened TypecheckerTheorems
  import opened FinalForms
  import opened Rounds
  import opened Faults
  import opened PanicRuns
  import opened Programs

  // ----- Without plain fields on sets, every order ends alike -----

  /** Annotations are declared, and no plain field is selected on a set. */
  ghost predicate NoHiddenPasses(sys: AstSystem) {
    forall step ::
      HeardParts(StepParts(InitialState(sys), step)) && FreeParts(StepParts(InitialState(sys), step), InitialTypes(sys))
  }

  lemma ReachedUnhidden(sys: AstSystem, st: State, step: Step)
    requires Inv(st, InitialState(sys)) && NoHiddenPasses(sys)
    ensures HeardParts(StepParts(st, step)) && FreeParts(StepParts(st, step), InitialTypes(sys))
  {
    var p, q := StepParts(InitialState(sys), step), StepParts(st, step);
    ReachedParts(st, InitialState(sys), step);
    ShapeBack(q, p);
    HeardShape(p, q);
    FreeShape(p, q, InitialTypes(sys));
  }

  lemma UnhiddenModule(sys: AstSystem, st: State, j: nat)
    requires Inv(st, InitialState(sys)) && NoHiddenPasses(sys) && j < |st.modules|
    ensures HeardParts(ModuleParts(st.modules[j])) && FreeParts(ModuleParts(st.modules[j]), InitialTypes(sys))
  {
    ReachedUnhidden(sys, st, OfModule(j));
  }

  lemma UnhiddenEntry(sys: AstSystem, st: State, i: nat)
    requires Inv(st, InitialState(sys)) && NoHiddenPasses(sys) && i < |st.types.values| &&
             st.types.values[i].ModelEntry?
    ensures HeardParts(ModelParts(st.types.values[i].model)) &&
            FreeParts(ModelParts(st.types.values[i].model), InitialTypes(sys))
  {
    ReachedUnhidden(sys, st, OfType(i));
  }

  lemma FinalUnhidden(sys: AstSystem, st: State)
    requires Inv(st, InitialState(sys)) && NoHiddenPasses(sys)
    ensures AllHeard(st) && NoSetFields(st, InitialTypes(sys))
  {
    forall j: nat | j < |st.modules|
      ensures HeardParts(ModuleParts(st.modules[j])) && FreeParts(ModuleParts(st.modules[j]), InitialTypes(sys))
    {
      UnhiddenModule(sys, st, j);
    }
    forall i: nat | i < |st.types.values| && st.types.values[i].ModelEntry?
      ensures HeardParts(ModelParts(st.types.values[i].model)) &&
              FreeParts(ModelParts(st.types.values[i].model), InitialTypes(sys))
    {
      UnhiddenEntry(sys, st, i);
    }
  }

  /** Whatever the order of visiting, all runs that end do so in the same state, up to the marker of unresolved
      slots. */
  lemma RunsEndAlike(sys: AstSystem, a: seq<Step>, b: seq<Step>)
    requires ParsedSystem(sys) && NoHiddenPasses(sys)
    requires Quiescent(Run(InitialState(sys), a)) && Quiescent(Run(InitialState(sys), b))
    ensures SameStates(Run(InitialState(sys), a), Run(InitialState(sys), b))
  {
    ReachedFinal(sys, a);
    ReachedFinal(sys, b);
    FinalUnhidden(sys, Run(InitialState(sys), a));
    FreeFinalsSame(sys, Run(InitialState(sys), a), Run(InitialState(sys), b));
  }

  lemma ReachedFinal(sys: AstSystem, steps: seq<Step>)
    requires ParsedSystem(sys) && Quiescent(Run(InitialState(sys), steps))
    ensures Final(sys, Run(InitialState(sys), steps))
  {
    InitialInv(sys);
    RunSafe(InitialState(sys), InitialState(sys), steps);
  }

  // ----- With a single model, too -----

  /** Only entry `i` is a model, and there are no modules. */
  predicate OnlyModel(st: State, i: nat) {
    st.modules == [] && forall k :: 0 <= k < |st.types.values| && k != i ==> !st.types.values[k].ModelEntry?
  }

  function Passed(st: State, i: nat, times: nat): State
    decreases times
  {
    if times == 0 then st else Passed(TypePass(st, i).node, i, times - 1)
  }

  lemma OnlyStep(st: State, i: nat, step: Step)
    requires OnlyModel(st, i)
    ensures OnlyModel(StepPass(st, step).node, i)
    ensures step != OfType(i) ==> StepPass(st, step).node == st
  {
  }

  lemma {:induction false} RunPasses(st: State, i: nat, steps: seq<Step>) returns (times: nat)
    requires OnlyModel(st, i)
    ensures Run(st, steps) == Passed(st, i, times)
    decreases |steps|
  {
    if steps == [] {
      times := 0;
    } else {
      OnlyStep(st, i, steps[0]);
      times := RunPasses(StepPass(st, steps[0]).node, i, steps[1..]);
      if steps[0] == OfType(i) { times := times + 1; }
    }
  }

  lemma {:induction false} PassedOn(st: State, i: nat, a: nat, b: nat)
    ensures Passed(st, i, a + b) == Passed(Passed(st, i, a), i, b)
    decreases a
  {
    if a > 0 { PassedOn(TypePass(st, i).node, i, a - 1, b); }
  }

  lemma {:induction false} PassedNothing(st: State, i: nat, times: nat)
    requires !TypePass(st, i).changed
    ensures Passed(st, i, times) == st
  {
    if times > 0 { PassedNothing(st, i, times - 1); }
  }

  lemma QuietModel(st: State, i: nat)
    requires Quiescent(st)
    ensures !TypePass(st, i).changed
  {
  }

  lemma {:induction false} Earlier(st: State, i: nat, a: nat, b: nat)
    requires a <= b && Quiescent(Passed(st, i, a))
    ensures Passed(st, i, b) == Passed(st, i, a)
  {
    var quiet := Passed(st, i, a);
    PassedOn(st, i, a, b - a);
    QuietModel(quiet, i);
    PassedNothing(quiet, i, b - a);
    assert a + (b - a) == b;
  }

  /** All runs that end do so in the same state: the order of visiting has nothing to vary. */
  lemma OneModelOneEnd(st: State, i: nat, a: seq<Step>, b: seq<Step>)
    requires OnlyModel(st, i) && Quiescent(Run(st, a)) && Quiescent(Run(st, b))
    ensures Run(st, a) == Run(st, b)
  {
    var m := RunPasses(st, i, a);
    var n := RunPasses(st, i, b);
    if m <= n { Earlier(st, i, m, n); } else { Earlier(st, i, n, m); }
  }

  // ----- A plain field on a set that no order makes a difference for -----

  const SELF: Selection := Single(Identifier("self", Defer), Defer)

  const ITEMS := Plain("Set", [Plain("Int", [], false)], false)

  const ITEMS_Z: Expr := Select(Path(Path(SELF, Identifier("items", Defer), Defer), Identifier("z", Defer), Defer))

  lemma {:induction false} Untyped0()
    ensures Untyped(ITEMS, ITEMS_Z)
  {
    assert ShallowFieldTypes([Plain("Int", [], false)]) == [Plain("Int", [], false)];
  }

  lemma {:induction false} SelectsFromSet(id: nat)
    requires var env := InitialTypes(OneContext("items", ITEMS, ITEMS_Z));
             && "C" in env.ids && env.ids["C"] == id && id < |env.values|
             && env.values[id] == ModelEntry(Context("C", "items", ITEMS, ITEMS_Z))
    ensures !SetFieldFree(ITEMS_Z, InitialTypes(OneContext("items", ITEMS, ITEMS_Z)), ModelScope("C"))
  {
    var env, sc := InitialTypes(OneContext("items", ITEMS, ITEMS_Z)), ModelScope("C");
    PredefinedFound(OneContext("items", ITEMS, ITEMS_Z));
    assert InferSelection(SELF, env, sc) == Reference(id) && Deref(Reference(id), env) == Composite(id);
    var m := env.values[id].model;
    assert m.fields + FragmentFields(m.fragments, env) == m.fields;
    var t := Reference(env.ids["Int"]);
    assert Declared(Plain("Int", [], false), env) == t && Declared(ITEMS, env) == SetType(t);
    assert InferSelection(ITEMS_Z.sel.prefix, env, sc) == SetType(t);
    assert Deref(SetType(t), env) == SetType(Primitive("Int"));
  }

  lemma {:induction false} OnlyOneModel(id: nat)
    requires var env := InitialTypes(OneContext("items", ITEMS, ITEMS_Z));
             "C" in env.ids && env.ids["C"] == id && id < |env.values| && env.Valid()
    ensures OnlyModel(InitialState(OneContext("items", ITEMS, ITEMS_Z)), id)
  {
    var sys := OneContext("items", ITEMS, ITEMS_Z);
    forall k | 0 <= k < |InitialTypes(sys).values| && k != id ensures !InitialTypes(sys).values[k].ModelEntry? {
      if InitialTypes(sys).values[k].ModelEntry? { ModelsFrom(sys, k); }
    }
  }

  /** `context C { items: Set<Int> }`, annotated with `self.items.z`, selects a plain field on a set, but every
      run that ends does so in one and the same state. */
  lemma OneContextOneEnd(a: seq<Step>, b: seq<Step>)
    requires var start := InitialState(OneContext("items", ITEMS, ITEMS_Z));
             Quiescent(Run(start, a)) && Quiescent(Run(start, b))
    ensures !SetFieldFree(ITEMS_Z, InitialTypes(OneContext("items", ITEMS, ITEMS_Z)), ModelScope("C"))
    ensures var start := InitialState(OneContext("items", ITEMS, ITEMS_Z)); Run(start, a) == Run(start, b)
  {
    Untyped0();
    var id := ContextStarts("items", ITEMS, ITEMS_Z);
    SelectsFromSet(id);
    AddAllValid(InitialEntries(OneContext("items", ITEMS, ITEMS_Z)));
    OnlyOneModel(id);
    OneModelOneEnd(InitialState(OneContext("items", ITEMS, ITEMS_Z)), id, a, b);
  }
}
