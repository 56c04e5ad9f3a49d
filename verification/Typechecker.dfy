/**
 The whole-system fixpoint: the arena's copy of every model and the modules' own copies,
 passed in any order until nothing changes.
 */
module Typechecker {
  import opened Sums
  import opened Ast
  import opened Passes
  import opened OneShot
  import opened EnvironmentLemmas
  import opened FieldTypeLemmas
  import opened Declarations
  import opened DeclarationSteps
  import opened DeclarationCompletion
  import opened KeptDeclarations

  // ----- The initial state -----

  /** Adding under a name already taken leaves the arena as it is. */
  function AddEntry(env: Arena, e: Entry): Arena {
    if EntryName(e) in env.ids then env
    else Arena(env.values + [e], env.ids[EntryName(e) := |env.values|])
  }

  function AddAll(es: seq<Entry>): Arena {
    if es == [] then Arena([], map[]) else AddEntry(AddAll(es[..|es| - 1]), es[|es| - 1])
  }

  lemma {:induction false} AddAllHolds(es: seq<Entry>)
    ensures forall i :: 0 <= i < |AddAll(es).values| ==> AddAll(es).values[i] in es
    ensures forall i :: 0 <= i < |es| ==> EntryName(es[i]) in AddAll(es).ids
  {
    if es != [] {
      AddAllHolds(es[..|es| - 1]);
      assert es == es[..|es| - 1] + [es[|es| - 1]];
    }
  }

  lemma {:induction false} AddAllValid(es: seq<Entry>)
    ensures AddAll(es).Valid()
  {
    if es != [] {
      AddAllValid(es[..|es| - 1]);
      var env, e := AddAll(es[..|es| - 1]), es[|es| - 1];
      var env' := AddEntry(env, e);
      if EntryName(e) !in env.ids {
        forall k | k in env'.ids ensures env'.ids[k] < |env'.values| && EntryName(env'.values[env'.ids[k]]) == k {
          if k != EntryName(e) { assert env'.ids[k] == env.ids[k]; }
        }
        forall i | 0 <= i < |env'.values|
          ensures EntryName(env'.values[i]) in env'.ids && env'.ids[EntryName(env'.values[i])] == i
        {
          if i < |env.values| { assert env'.values[i] == env.values[i]; }
        }
      }
    }
  }

  const PREDEFINED: seq<Entry> := [
    PrimitiveEntry("Boolean"), PrimitiveEntry("Int"), PrimitiveEntry("Float"), PrimitiveEntry("Decimal"),
    PrimitiveEntry("String"), PrimitiveEntry("LocalTime"), PrimitiveEntry("LocalDateTime"), PrimitiveEntry("LocalDate"),
    PrimitiveEntry("Instant"), PrimitiveEntry("Json"), PrimitiveEntry("Blob"), PrimitiveEntry("Uuid"),
    PrimitiveEntry("Vector"), InjectedEntry("Exograph"), InjectedEntry("ExographPriv"), InjectedEntry("Operation")
  ]

  function EnumEntries(ms: seq<Module>): seq<Entry> {
    if ms == [] then [] else EnumEntries(ms[..|ms| - 1]) + Map(ms[|ms| - 1].enums, (e: Enum) => EnumEntry(e))
  }

  function ModuleTypes(ms: seq<Module>): seq<Model> {
    if ms == [] then [] else ModuleTypes(ms[..|ms| - 1]) + ms[|ms| - 1].types
  }

  /** All declared types: those outside modules, then those of each module. */
  function AllTypes(sys: AstSystem): seq<Model> {
    sys.types + ModuleTypes(sys.modules)
  }

  function InitialEntries(sys: AstSystem): seq<Entry> {
    PREDEFINED + EnumEntries(sys.modules) + Map(AllTypes(sys), (t: Model) => ModelEntry(ShallowModel(t)))
  }

  function InitialTypes(sys: AstSystem): Arena {
    AddAll(InitialEntries(sys))
  }

  datatype State = State(types: Arena, modules: seq<Module>)

  function InitialState(sys: AstSystem): State {
    State(InitialTypes(sys), Map(sys.modules, ShallowModule))
  }

  /** An untyped program as the parser yields it. */
  predicate ParsedSystem(sys: AstSystem) {
    && (forall i :: 0 <= i < |sys.types| ==> sys.types[i] == ShallowModel(sys.types[i]) && ParsedModel(sys.types[i]))
    && (forall i :: 0 <= i < |sys.modules| ==>
          sys.modules[i] == ShallowModule(sys.modules[i]) && ParsedModule(sys.modules[i]))
  }

  // ----- Steps -----

  /** Passing the arena's copy of a model; the clone is kept only if the pass reports a change. */
  function TypePass(st: State, i: nat): Outcome<State> {
    if i < |st.types.values| && st.types.values[i].ModelEntry? then
      var r := PassModel(st.types.values[i].model, st.types);
      if r.changed
        then Outcome(st.(types := st.types.(values := st.types.values[i := ModelEntry(r.node)])), true, r.errors)
      else Outcome(st, false, r.errors)
    else Outcome(st, false, [])
  }

  function ModulePass(st: State, j: nat): Outcome<State> {
    if j < |st.modules| then
      var r := PassModule(st.modules[j], st.types);
      if r.changed then Outcome(st.(modules := st.modules[j := r.node]), true, r.errors)
      else Outcome(st, false, r.errors)
    else Outcome(st, false, [])
  }

  datatype Step = OfType(i: nat) | OfModule(j: nat)

  function StepPass(st: State, step: Step): Outcome<State> {
    match step
    case OfType(i) => TypePass(st, i)
    case OfModule(j) => ModulePass(st, j)
  }

  /** The state after passing in the given order. */
  function Run(st: State, steps: seq<Step>): State
    decreases |steps|
  {
    if steps == [] then st else Run(StepPass(st, steps[0]).node, steps[1..])
  }

  function Changes(st: State, steps: seq<Step>): nat
    decreases |steps|
  {
    if steps == [] then 0
    else (if StepPass(st, steps[0]).changed then 1 else 0) + Changes(StepPass(st, steps[0]).node, steps[1..])
  }

  ghost predicate Quiescent(st: State) {
    && (forall i :: 0 <= i < |st.types.values| ==> !TypePass(st, i).changed)
    && (forall j :: 0 <= j < |st.modules| ==> !ModulePass(st, j).changed)
  }

  // ----- The invariant and the measure -----

  predicate EntrySound(e: Entry, d: Entry, env0: Arena) {
    if e.ModelEntry? && d.ModelEntry? then SoundModel(e.model, env0) && ShallowModel(e.model) == ShallowModel(d.model)
    else e == d
  }

  predicate EntryOk(st: State, init: State, i: nat) {
    i < |st.types.values| && i < |init.types.values| && EntrySound(st.types.values[i], init.types.values[i], init.types)
  }

  predicate ModuleOk(st: State, init: State, j: nat) {
    && j < |st.modules| && j < |init.modules|
    && SoundModule(st.modules[j], init.types) && ShallowModule(st.modules[j]) == ShallowModule(init.modules[j])
    && (SingleModule(init.modules[j]) ==> SingleModule(st.modules[j]))
  }

  ghost predicate Inv(st: State, init: State) {
    && init.types.Valid()
    && st.types.ids == init.types.ids && |st.types.values| == |init.types.values|
    && (forall i: nat :: i < |st.types.values| ==> EntryOk(st, init, i))
    && |st.modules| == |init.modules|
    && (forall j: nat :: j < |st.modules| ==> ModuleOk(st, init, j))
  }

  lemma EntrySoundOf(e: Entry, d: Entry, env0: Arena)
    requires EntrySound(e, d, env0)
    ensures EntryOf(e, d, env0.ids)
  {
    if e.ModelEntry? {
      var m, n := e.model, d.model;
      assert |m.fields| == |Map(m.fields, ShallowField)| == |n.fields|;
      assert |m.fragments| == |Map(m.fragments, ShallowFragment)| == |n.fragments|;
      forall i | 0 <= i < |m.fields| ensures FieldOf(m.fields[i], n.fields[i], env0.ids) {
        assert ShallowField(m.fields[i]) == Map(m.fields, ShallowField)[i] == ShallowField(n.fields[i]);
      }
      forall i | 0 <= i < |m.fragments| ensures m.fragments[i].name == n.fragments[i].name {
        assert ShallowFragment(m.fragments[i]) == Map(m.fragments, ShallowFragment)[i] ==
               ShallowFragment(n.fragments[i]);
      }
    }
  }

  lemma InvStateOf(st: State, init: State)
    requires Inv(st, init)
    ensures StateOf(st.types, init.types)
  {
    forall i | 0 <= i < |st.types.values| ensures EntryOf(st.types.values[i], init.types.values[i], init.types.ids) {
      assert EntryOk(st, init, i);
      EntrySoundOf(st.types.values[i], init.types.values[i], init.types);
    }
  }

  function CountEntry(e: Entry): nat {
    if e.ModelEntry? then CountModel(e.model) else 0
  }

  /** Unresolved slots, unset flags and unknown fragments over both copies. */
  function CountState(st: State): nat {
    Sum(st.types.values, CountEntry) + Sum(st.modules, CountModule)
  }

  predicate KeptEntry(a: Entry, b: Entry) {
    if a.ModelEntry? && b.ModelEntry? then KeptModel(a.model, b.model) else a == b
  }

  /** No resolved slot of either copy has changed. */
  predicate KeptState(a: State, b: State) {
    && |b.types.values| == |a.types.values|
    && (forall i :: 0 <= i < |a.types.values| ==> KeptEntry(a.types.values[i], b.types.values[i]))
    && |b.modules| == |a.modules|
    && (forall j :: 0 <= j < |a.modules| ==> KeptModule(a.modules[j], b.modules[j]))
  }

  lemma KeptStateRefl(st: State)
    ensures KeptState(st, st)
  {
    forall i | 0 <= i < |st.types.values| ensures KeptEntry(st.types.values[i], st.types.values[i]) {
      if st.types.values[i].ModelEntry? { KeptModelRefl(st.types.values[i].model); }
    }
    forall j | 0 <= j < |st.modules| ensures KeptModule(st.modules[j], st.modules[j]) { KeptModuleRefl(st.modules[j]); }
  }

  lemma KeptStateTrans(a: State, b: State, c: State)
    requires KeptState(a, b) && KeptState(b, c)
    ensures KeptState(a, c)
  {
    forall i | 0 <= i < |a.types.values| ensures KeptEntry(a.types.values[i], c.types.values[i]) {
      assert KeptEntry(a.types.values[i], b.types.values[i]) && KeptEntry(b.types.values[i], c.types.values[i]);
      if a.types.values[i].ModelEntry? && b.types.values[i].ModelEntry? && c.types.values[i].ModelEntry? {
        KeptModelTrans(a.types.values[i].model, b.types.values[i].model, c.types.values[i].model);
      }
    }
    forall j | 0 <= j < |a.modules| ensures KeptModule(a.modules[j], c.modules[j]) {
      KeptModuleTrans(a.modules[j], b.modules[j], c.modules[j]);
    }
  }

  // ----- Every step keeps the invariant and resolves something if it reports a change -----

  ghost predicate Stepped(st: State, r: Outcome<State>, init: State) {
    && Inv(r.node, init) && KeptState(st, r.node)
    && (if r.changed then CountState(r.node) < CountState(st) else r.node == st)
  }

  function PutModel(st: State, i: nat, m: Model): State
    requires i < |st.types.values|
  {
    st.(types := st.types.(values := st.types.values[i := ModelEntry(m)]))
  }

  lemma PutModelInv(st: State, init: State, i: nat, m: Model)
    requires Inv(st, init) && i < |st.types.values| && st.types.values[i].ModelEntry?
    requires SoundModel(m, init.types) && ShallowModel(m) == ShallowModel(st.types.values[i].model)
    ensures Inv(PutModel(st, i, m), init)
  {
    var st' := PutModel(st, i, m);
    assert EntryOk(st, init, i);
    forall k: nat | k < |st.types.values| ensures EntryOk(st', init, k) {
      assert EntryOk(st, init, k);
    }
    forall j: nat | j < |st.modules| ensures ModuleOk(st', init, j) {
      assert ModuleOk(st, init, j);
    }
  }

  lemma PutModelKept(st: State, i: nat, m: Model)
    requires i < |st.types.values| && st.types.values[i].ModelEntry? && KeptModel(st.types.values[i].model, m)
    ensures KeptState(st, PutModel(st, i, m))
  {
    KeptStateRefl(st);
    forall k | 0 <= k < |st.types.values| ensures KeptEntry(st.types.values[k], PutModel(st, i, m).types.values[k]) {
      assert KeptEntry(st.types.values[k], st.types.values[k]);
    }
  }

  lemma PutModelCount(st: State, i: nat, m: Model)
    requires i < |st.types.values| && st.types.values[i].ModelEntry? &&
             CountModel(m) < CountModel(st.types.values[i].model)
    ensures CountState(PutModel(st, i, m)) < CountState(st)
  {
    SumStep(st.types.values, PutModel(st, i, m).types.values, CountEntry);
  }

  lemma TypePassStepped(st: State, init: State, i: nat)
    requires Inv(st, init)
    ensures Stepped(st, TypePass(st, i), init)
  {
    var r := TypePass(st, i);
    if r.changed {
      InvStateOf(st, init);
      var m := st.types.values[i].model;
      assert EntryOk(st, init, i);
      StepModel(m, st.types, init.types);
      var m' := PassModel(m, st.types).node;
      PutModelInv(st, init, i, m');
      PutModelKept(st, i, m');
      PutModelCount(st, i, m');
      assert r.node == PutModel(st, i, m');
    } else {
      KeptStateRefl(st);
    }
  }

  function PutModule(st: State, j: nat, m: Module): State
    requires j < |st.modules|
  {
    st.(modules := st.modules[j := m])
  }

  lemma PutModuleInv(st: State, init: State, j: nat, m: Module)
    requires Inv(st, init) && j < |st.modules|
    requires SoundModule(m, init.types) && ShallowModule(m) == ShallowModule(st.modules[j])
    requires SingleModule(st.modules[j]) ==> SingleModule(m)
    ensures Inv(PutModule(st, j, m), init)
  {
    var st' := PutModule(st, j, m);
    forall i: nat | i < |st.types.values| ensures EntryOk(st', init, i) {
      assert EntryOk(st, init, i);
    }
    forall k: nat | k < |st.modules| ensures ModuleOk(st', init, k) {
      assert ModuleOk(st, init, k);
    }
  }

  lemma PutModuleKept(st: State, j: nat, m: Module)
    requires j < |st.modules| && KeptModule(st.modules[j], m)
    ensures KeptState(st, PutModule(st, j, m))
  {
    KeptStateRefl(st);
  }

  lemma PutModuleCount(st: State, j: nat, m: Module)
    requires j < |st.modules| && CountModule(m) < CountModule(st.modules[j])
    ensures CountState(PutModule(st, j, m)) < CountState(st)
  {
    SumStep(st.modules, PutModule(st, j, m).modules, CountModule);
  }

  lemma ModulePassStepped(st: State, init: State, j: nat)
    requires Inv(st, init)
    ensures Stepped(st, ModulePass(st, j), init)
  {
    var r := ModulePass(st, j);
    if r.changed {
      InvStateOf(st, init);
      assert ModuleOk(st, init, j);
      StepModule(st.modules[j], st.types, init.types);
      var m' := PassModule(st.modules[j], st.types).node;
      PutModuleInv(st, init, j, m');
      PutModuleKept(st, j, m');
      PutModuleCount(st, j, m');
    } else {
      KeptStateRefl(st);
    }
  }

  lemma StepStepped(st: State, init: State, step: Step)
    requires Inv(st, init)
    ensures Stepped(st, StepPass(st, step), init)
  {
    match step
    case OfType(i) => TypePassStepped(st, init, i);
    case OfModule(j) => ModulePassStepped(st, init, j);
  }

  /** In any order of passes, resolved slots are final and hold their one-shot types, and at
      most as many passes report a change as there were unresolved slots. */
  lemma {:induction false} RunSafe(st: State, init: State, steps: seq<Step>)
    requires Inv(st, init)
    ensures Inv(Run(st, steps), init) && KeptState(st, Run(st, steps))
    ensures Changes(st, steps) + CountState(Run(st, steps)) <= CountState(st)
    decreases |steps|
  {
    if steps == [] {
      KeptStateRefl(st);
    } else {
      StepStepped(st, init, steps[0]);
      var next := StepPass(st, steps[0]).node;
      RunSafe(next, init, steps[1..]);
      KeptStateTrans(st, next, Run(next, steps[1..]));
    }
  }

  // ----- The order in which `build` passes -----

  lemma {:induction false} RunSplit(st: State, a: seq<Step>, b: seq<Step>)
    ensures Run(st, a + b) == Run(Run(st, a), b) && Changes(st, a + b) == Changes(st, a) + Changes(Run(st, a), b)
    decreases |a|
  {
    if a == [] { assert a + b == b; } else {
      assert (a + b)[0] == a[0] && (a + b)[1..] == a[1..] + b;
      RunSplit(StepPass(st, a[0]).node, a[1..], b);
    }
  }

  lemma RunSnoc(st: State, a: seq<Step>, step: Step)
    ensures var now := Run(st, a);
            && Run(st, a + [step]) == StepPass(now, step).node
            && Changes(st, a + [step]) == Changes(st, a) + (if StepPass(now, step).changed then 1 else 0)
  {
    RunSplit(st, a, [step]);
    var now := Run(st, a);
    assert [step][1..] == [];
    assert Run(now, [step]) == Run(StepPass(now, step).node, []) && Changes(StepPass(now, step).node, []) == 0;
  }

  /** A pass that reports no change leaves the state alone. */
  lemma {:induction false} Unchanging(st: State, steps: seq<Step>)
    requires Changes(st, steps) == 0
    ensures Run(st, steps) == st && forall k :: 0 <= k < |steps| ==> !StepPass(st, steps[k]).changed
    decreases |steps|
  {
    if steps != [] {
      assert StepPass(st, steps[0]).node == st;
      Unchanging(st, steps[1..]);
      assert forall k :: 0 < k < |steps| ==> steps[k] == steps[1..][k - 1];
    }
  }

  function TypeStep(t: Model, ids: map<string, nat>): Step
    requires t.name in ids
  {
    OfType(ids[t.name])
  }

  /** The arena's entry of each type in turn. */
  function TypeSteps(all: seq<Model>, ids: map<string, nat>): seq<Step>
    requires forall i :: 0 <= i < |all| ==> all[i].name in ids
  {
    seq(|all|, i requires 0 <= i < |all| => TypeStep(all[i], ids))
  }

  function ModuleSteps(n: nat): seq<Step> {
    seq(n, j requires 0 <= j < n => OfModule(j))
  }

  function Repeat(steps: seq<Step>, n: nat): seq<Step> {
    if n == 0 then [] else Repeat(steps, n - 1) + steps
  }

  lemma {:induction false} RepeatSplit(steps: seq<Step>, m: nat, n: nat)
    requires m <= n
    ensures Repeat(steps, n) == Repeat(steps, m) + Repeat(steps, n - m)
  {
    if n > m { RepeatSplit(steps, m, n - 1); }
  }

  /** From one round of passes to any later one, no resolved slot changes. */
  lemma LaterRounds(init: State, steps: seq<Step>, m: nat, n: nat)
    requires Inv(init, init) && m <= n
    ensures KeptState(Run(init, Repeat(steps, m)), Run(init, Repeat(steps, n)))
  {
    RepeatSplit(steps, m, n);
    RunSplit(init, Repeat(steps, m), Repeat(steps, n - m));
    RunSafe(init, init, Repeat(steps, m));
    RunSafe(Run(init, Repeat(steps, m)), init, Repeat(steps, n - m));
  }
}
