/** The iterations of `build`, in the order in which it passes. */
module Rounds {
  import opened Wrappers
  import opened Ast
  import opened Passes
  import opened OneShot
  import opened EnvironmentLemmas
  import opened FieldTypeLemmas
  import opened Declarations
  import opened DeclarationSteps
  import opened Typechecker
  import opened TypecheckerTheorems

  /** What an iteration passes, in order. */
  ghost function IterationSteps(sys: AstSystem): seq<Step> {
    DeclaredSteps(sys) + ModuleSteps(|sys.modules|)
  }

  ghost function DeclaredSteps(sys: AstSystem): seq<Step> {
    NamesDeclared(sys);
    TypeSteps(AllTypes(sys), InitialTypes(sys).ids)
  }

  lemma NamesDeclared(sys: AstSystem)
    ensures forall i :: 0 <= i < |AllTypes(sys)| ==> AllTypes(sys)[i].name in InitialTypes(sys).ids
  {
    forall i | 0 <= i < |AllTypes(sys)| ensures AllTypes(sys)[i].name in InitialTypes(sys).ids {
      DeclaredNameKnown(sys, AllTypes(sys)[i]);
    }
  }

  lemma {:induction false} EntriesDeclared(sys: AstSystem, st: State, i: nat)
    requires Inv(st, InitialState(sys)) && i < |st.types.values| && st.types.values[i].ModelEntry?
    ensures OfType(i) in DeclaredSteps(sys)
  {
    NamesDeclared(sys);
    var init, all := InitialState(sys), AllTypes(sys);
    assert EntryOk(st, init, i);
    InitialEntry(sys, i);
    var t :| t in all && init.types.values[i] == ModelEntry(ShallowModel(t));
    var k :| 0 <= k < |all| && all[k] == t;
    assert DeclaredSteps(sys)[k] == TypeStep(t, init.types.ids) && init.types.ids[t.name] == i;
  }

  lemma EntriesVisited(sys: AstSystem, st: State, i: nat)
    requires Inv(st, InitialState(sys)) && i < |st.types.values| && st.types.values[i].ModelEntry?
    ensures OfType(i) in IterationSteps(sys)
  {
    EntriesDeclared(sys, st, i);
  }

  lemma ModulesAreVisited(sys: AstSystem, j: nat)
    requires j < |sys.modules|
    ensures OfModule(j) in IterationSteps(sys)
  {
    NamesDeclared(sys);
    assert IterationSteps(sys)[|AllTypes(sys)| + j] == OfModule(j);
  }

  /** An iteration visits every model entry and every module: when none changes, no pass does. */
  lemma {:induction false} NothingLeft(sys: AstSystem, st: State)
    requires ParsedSystem(sys) && Inv(st, InitialState(sys)) && Changes(st, IterationSteps(sys)) == 0
    ensures Final(sys, st)
  {
    Unchanging(st, IterationSteps(sys));
    forall i | 0 <= i < |st.types.values| ensures !TypePass(st, i).changed {
      if st.types.values[i].ModelEntry? {
        EntriesVisited(sys, st, i);
        assert TypePass(st, i) == StepPass(st, OfType(i));
      }
    }
    forall j | 0 <= j < |st.modules| ensures !ModulePass(st, j).changed {
      ModulesAreVisited(sys, j);
      assert ModulePass(st, j) == StepPass(st, OfModule(j));
    }
  }

  // ----- After one visit to every type the environment is settled -----

  lemma {:induction false} PassSettles(ft: FieldType, ids: map<string, nat>)
    requires FlagsSound(ft, ids)
    ensures FlagsSettled(PassFieldType(ft, ids).node, ids)
    decreases ft, 0
  {
    match ft
    case OptionalField(u) => PassSettles(u, ids);
    case Plain(n, params, ok) => PassAllSettles(params, ids);
  }

  lemma {:induction false} PassAllSettles(fts: seq<FieldType>, ids: map<string, nat>)
    requires forall i :: 0 <= i < |fts| ==> FlagsSound(fts[i], ids)
    ensures forall i :: 0 <= i < |fts| ==> FlagsSettled(PassFieldTypes(fts, ids).node[i], ids)
    decreases fts, 1
  {
    if fts != [] {
      PassSettles(fts[0], ids);
      PassAllSettles(fts[1..], ids);
      assert forall i :: 0 < i < |fts| ==>
               PassFieldTypes(fts, ids).node[i] == PassFieldTypes(fts[1..], ids).node[i - 1];
    }
  }

  /** The field types of an entry are settled. */
  predicate EntrySettled(st: State, i: nat) {
    i < |st.types.values| && st.types.values[i].ModelEntry? ==>
      forall j :: 0 <= j < |st.types.values[i].model.fields| ==>
        FlagsSettled(st.types.values[i].model.fields[j].typ, st.types.ids)
  }

  lemma ModelSettles(m: Model, env: Arena, env0: Arena)
    requires SoundModel(m, env0) && env.ids == env0.ids
    ensures var r := PassModel(m, env).node;
            forall j :: 0 <= j < |r.fields| ==> FlagsSettled(r.fields[j].typ, env.ids)
    ensures !PassModel(m, env).changed ==> forall j :: 0 <= j < |m.fields| ==> FlagsSettled(m.fields[j].typ, env.ids)
  {
    var f := (x: Field) => PassField(x, env, ModelScope(m.name));
    PassEachFacts(m.fields, f);
    forall j | 0 <= j < |m.fields|
      ensures FlagsSettled(PassEach(m.fields, f).node[j].typ, env.ids)
      ensures !PassModel(m, env).changed ==> FlagsSettled(m.fields[j].typ, env.ids)
    {
      assert SoundField(m.fields[j], env0, ModelScope(m.name));
      PassSettles(m.fields[j].typ, env.ids);
      PassFlags(m.fields[j].typ, env.ids);
    }
  }

  lemma TypePassSettles(st: State, init: State, i: nat)
    requires Inv(st, init)
    ensures var r := TypePass(st, i).node;
            EntrySettled(r, i) && (forall k: nat :: k != i && EntrySettled(st, k) ==> EntrySettled(r, k))
  {
    if i < |st.types.values| && st.types.values[i].ModelEntry? {
      assert EntryOk(st, init, i);
      ModelSettles(st.types.values[i].model, st.types, init.types);
    }
  }

  lemma {:induction false} RunSettles(st: State, init: State, steps: seq<Step>, i: nat)
    requires Inv(st, init) && (OfType(i) in steps || EntrySettled(st, i))
    ensures EntrySettled(Run(st, steps), i)
    decreases |steps|
  {
    if steps != [] {
      var step := steps[0];
      StepStepped(st, init, step);
      if step.OfType? { TypePassSettles(st, init, step.i); }
      assert OfType(i) in steps ==> steps[0] == OfType(i) || OfType(i) in steps[1..];
      RunSettles(StepPass(st, step).node, init, steps[1..], i);
    }
  }

  /** The modules are always passed in a settled environment. */
  lemma SettledForModules(sys: AstSystem, st: State)
    requires Inv(st, InitialState(sys))
    ensures EnvSettled(Run(st, DeclaredSteps(sys)).types)
  {
    var now := Run(st, DeclaredSteps(sys));
    RunSafe(st, InitialState(sys), DeclaredSteps(sys));
    forall i, j | 0 <= i < |now.types.values| && now.types.values[i].ModelEntry? &&
                  0 <= j < |now.types.values[i].model.fields|
      ensures FlagsSettled(now.types.values[i].model.fields[j].typ, now.types.ids)
    {
      EntriesDeclared(sys, now, i);
      RunSettles(st, InitialState(sys), DeclaredSteps(sys), i);
      assert EntrySettled(now, i);
    }
  }
}
