/** Which programs have a possible fault, by the rules. */
module CalmRules {
  import opened Wrappers
  import opened Ast
  import opened Passes
  import opened OneShot
  import opened EnvironmentLemmas
  import opened ExprSoundness
  import opened Declarations
  import opened DeclarationSteps
  import opened Parts
  import opened PartPasses
  import opened PartFacts
  import opened Typechecker
  import opened TypecheckerTheorems
  import opened Rounds
  import opened Faults
  import opened PanicRuns
  import opened PanicOutcomes
  import opened TypingRules
  import opened ProgramRules
  import opened FaultRules

  // ----- Declarations without wrong expressions -----

  /** Annotations are visited up to the first that is not declared. */
  predicate VisitedTo(m: AnnotationMap, i: nat) {
    i < |m.annotations| && forall k :: 0 <= k <= i ==> m.annotations[k].declared
  }

  ghost predicate AnnotationsRight(m: AnnotationMap, env: Arena, sc: Scope) {
    forall i: nat :: VisitedTo(m, i) ==> ParamsRight(m.annotations[i], env, sc)
  }

  ghost predicate ParamsRight(a: Annotation, env: Arena, sc: Scope) {
    forall j :: 0 <= j < |a.params| ==> !Wrong(a.params[j], env, sc)
  }

  ghost predicate FieldRight(f: Field, env: Arena, sc: Scope) {
    AnnotationsRight(f.annotations, env, sc) &&
    match f.default
    case SelectionDefault(s) => !Wrong(Select(s), env, sc)
    case _ => true
  }

  ghost predicate ModelRight(m: Model, env: Arena) {
    var sc: Scope := map["self" := m.name];
    (forall i :: 0 <= i < |m.fields| ==> FieldRight(m.fields[i], env, sc)) && AnnotationsRight(m.annotations, env, sc)
  }

  ghost predicate CallableRight(c: Callable, env: Arena) {
    (forall i :: 0 <= i < |c.args| ==> FieldRight(c.args[i], env, map[])) && AnnotationsRight(c.annotations, env, map[])
  }

  ghost predicate ModuleRight(m: Module, env: Arena) {
    && (forall i :: 0 <= i < |m.types| ==> ModelRight(m.types[i], env))
    && (forall i :: 0 <= i < |m.methods| ==> CallableRight(m.methods[i], env))
    && (forall i :: 0 <= i < |m.interceptors| ==> CallableRight(m.interceptors[i], env))
    && AnnotationsRight(m.annotations, env, map[])
  }

  /** The name does not lead to an injected type, nor to a model with a wrong expression. */
  ghost predicate NameRight(n: string, env: Arena) {
    n in env.ids && env.ids[n] < |env.values| &&
    match env.values[env.ids[n]]
    case InjectedEntry(_) => false
    case ModelEntry(m) => ModelRight(m, env)
    case _ => true
  }

  /** Neither the types that declared names lead to nor the modules have a wrong expression. */
  ghost predicate ProgramRight(sys: AstSystem, env: Arena) {
    && (forall k :: 0 <= k < |sys.types| ==> NameRight(sys.types[k].name, env))
    && (forall j, k :: 0 <= j < |sys.modules| && 0 <= k < |sys.modules[j].types| ==>
          NameRight(sys.modules[j].types[k].name, env))
    && (forall j :: 0 <= j < |sys.modules| ==> ModuleRight(sys.modules[j], env))
  }

  // ----- They are those without possible faults -----

  ghost predicate UseRight(u: Use, env: Arena) {
    u.visited ==> !Faulty(u.expr, env, u.scope, Possible)
  }

  lemma {:induction false} VisitedExactly(m: AnnotationMap, i: nat)
    ensures VisitedTo(m, i) <==> i < |m.annotations| && i < FirstUndeclared(m.annotations)
  {
    var k := FirstUndeclared(m.annotations);
    if k < |m.annotations| { assert !m.annotations[k].declared; }
  }

  lemma AnnotationsRightExactly(m: AnnotationMap, env: Arena, sc: Scope)
    requires env.Valid() && ScopeOk(sc, env) && ParsedAnnotations(m)
    ensures AnnotationsRight(m, env, sc) <==> OfAnnotations(m, sc, (u: Use) => UseRight(u, env))
  {
    var ofUse := (u: Use) => UseRight(u, env);
    var k := FirstUndeclared(m.annotations);
    forall i: nat | i < |m.annotations|
      ensures OfParams(m.annotations[i].params, sc, i < k, k == |m.annotations|, ofUse) <==>
              (VisitedTo(m, i) ==> ParamsRight(m.annotations[i], env, sc))
    {
      VisitedExactly(m, i);
      assert ParsedAnnotation(m.annotations[i]);
      ParamsRightExactly(m.annotations[i], env, sc, i < k, k == |m.annotations|);
    }
  }

  lemma ParamsRightExactly(a: Annotation, env: Arena, sc: Scope, visited: bool, heard: bool)
    requires env.Valid() && ScopeOk(sc, env) && ParsedAnnotation(a)
    ensures OfParams(a.params, sc, visited, heard, (u: Use) => UseRight(u, env)) <==>
            (visited ==> ParamsRight(a, env, sc))
  {
    var ofUse := (u: Use) => UseRight(u, env);
    forall j | 0 <= j < |a.params|
      ensures ofUse(Use(a.params[j], sc, visited, heard)) <==> (visited ==> !Wrong(a.params[j], env, sc))
    {
      WrongExactly(a.params[j], env, sc);
    }
  }

  lemma FieldsRightExactly(fs: seq<Field>, env: Arena, sc: Scope)
    requires env.Valid() && ScopeOk(sc, env) && forall i :: 0 <= i < |fs| ==> ParsedField(fs[i])
    ensures (forall i :: 0 <= i < |fs| ==> FieldRight(fs[i], env, sc)) <==>
            OfFields(fs, sc, (u: Use) => UseRight(u, env), (t: FieldType) => true)
  {
    forall i | 0 <= i < |fs|
      ensures FieldRight(fs[i], env, sc) <==> OfField(fs[i], sc, (u: Use) => UseRight(u, env), (t: FieldType) => true)
    {
      AnnotationsRightExactly(fs[i].annotations, env, sc);
      if fs[i].default.SelectionDefault? { WrongExactly(Select(fs[i].default.sel), env, sc); }
    }
  }

  lemma ModelRightExactly(m: Model, env: Arena)
    requires env.Valid() && m.name in env.ids && ParsedModel(m)
    ensures ModelRight(m, env) <==>
            OfModel(m, (u: Use) => UseRight(u, env), (t: FieldType) => true, (f: Fragment) => true)
  {
    FieldsRightExactly(m.fields, env, ModelScope(m.name));
    AnnotationsRightExactly(m.annotations, env, ModelScope(m.name));
  }

  lemma CallablesRightExactly(cs: seq<Callable>, env: Arena)
    requires env.Valid() && forall i :: 0 <= i < |cs| ==> ParsedCallable(cs[i])
    ensures (forall i :: 0 <= i < |cs| ==> CallableRight(cs[i], env)) <==>
            forall i :: 0 <= i < |cs| ==> OfCallable(cs[i], (u: Use) => UseRight(u, env), (t: FieldType) => true)
  {
    forall i | 0 <= i < |cs|
      ensures CallableRight(cs[i], env) <==> OfCallable(cs[i], (u: Use) => UseRight(u, env), (t: FieldType) => true)
    {
      FieldsRightExactly(cs[i].args, env, NO_SCOPE);
      AnnotationsRightExactly(cs[i].annotations, env, NO_SCOPE);
    }
  }

  lemma ModelsRightExactly(ms: seq<Model>, env: Arena)
    requires env.Valid() && forall i :: 0 <= i < |ms| ==> ms[i].name in env.ids && ParsedModel(ms[i])
    ensures (forall i :: 0 <= i < |ms| ==> ModelRight(ms[i], env)) <==>
            forall i :: 0 <= i < |ms| ==>
              OfModel(ms[i], (u: Use) => UseRight(u, env), (t: FieldType) => true, (f: Fragment) => true)
  {
    forall i | 0 <= i < |ms|
      ensures ModelRight(ms[i], env) <==>
              OfModel(ms[i], (u: Use) => UseRight(u, env), (t: FieldType) => true, (f: Fragment) => true)
    {
      ModelRightExactly(ms[i], env);
    }
  }

  lemma FaultlessParts(p: Parts, env: Arena)
    ensures !PartsFaulty(p, env) <==>
            Every(p, (u: Use) => UseRight(u, env), (t: FieldType) => true, (f: Fragment) => true)
  {
    forall k | 0 <= k < |p.uses| ensures UseRight(p.uses[k], env) <==> !UseFaulty(p.uses[k], env) {}
  }

  lemma ModuleRightExactly(m: Module, env: Arena)
    requires env.Valid() && ParsedModule(m) && forall i :: 0 <= i < |m.types| ==> m.types[i].name in env.ids
    ensures ModuleRight(m, env) <==> !PartsFaulty(ModuleParts(m), env)
  {
    var ofUse := (u: Use) => UseRight(u, env);
    ModelsRightExactly(m.types, env);
    CallablesRightExactly(m.methods, env);
    CallablesRightExactly(m.interceptors, env);
    AnnotationsRightExactly(m.annotations, env, NO_SCOPE);
    EveryModule(m, ofUse, (t: FieldType) => true, (f: Fragment) => true);
    FaultlessParts(ModuleParts(m), env);
  }

  /** What the pass over the type of a declared name finds. */
  lemma NameRightExactly(sys: AstSystem, n: string)
    requires ParsedSystem(sys) && n in InitialTypes(sys).ids
    ensures NameRight(n, InitialTypes(sys)) <==> !StepFaulty(sys, OfType(InitialTypes(sys).ids[n]))
  {
    var env := InitialTypes(sys);
    AddAllValid(InitialEntries(sys));
    var i := env.ids[n];
    if env.values[i].ModelEntry? {
      EntryParsed(sys, i);
      var m := env.values[i].model;
      ModelRightExactly(m, env);
      EveryModel(m, (u: Use) => UseRight(u, env), (t: FieldType) => true, (f: Fragment) => true);
      FaultlessParts(ModelParts(m), env);
    }
  }

  lemma EntryParsed(sys: AstSystem, i: nat)
    requires ParsedSystem(sys) && i < |InitialTypes(sys).values| && InitialTypes(sys).values[i].ModelEntry?
    ensures ParsedModel(InitialTypes(sys).values[i].model)
    ensures InitialTypes(sys).values[i].model.name in InitialTypes(sys).ids
  {
    InitialEntry(sys, i);
    var t :| t in AllTypes(sys) && InitialTypes(sys).values[i] == ModelEntry(ShallowModel(t));
    DeclaredUntyped(sys, t);
    DeclaredNameKnown(sys, t);
  }

  /** A program has a possible fault exactly if something in it is wrong by the rules. */
  lemma FaultyExactly(sys: AstSystem)
    requires ParsedSystem(sys)
    ensures !FaultyProgram(sys) <==> ProgramRight(sys, InitialTypes(sys))
  {
    var env := InitialTypes(sys);
    NamesDeclared(sys);
    if ProgramRight(sys, env) {
      forall step | step in IterationSteps(sys) ensures !StepFaulty(sys, step) { RightStep(sys, step); }
    }
    if !FaultyProgram(sys) {
      forall k | 0 <= k < |sys.types| ensures NameRight(sys.types[k].name, env) {
        assert AllTypes(sys)[k] == sys.types[k];
        FaultlessName(sys, sys.types[k]);
      }
      forall j, k | 0 <= j < |sys.modules| && 0 <= k < |sys.modules[j].types|
        ensures NameRight(sys.modules[j].types[k].name, env)
      {
        ModuleTypesFrom(sys.modules, sys.modules[j].types[k]);
        FaultlessName(sys, sys.modules[j].types[k]);
      }
      forall j | 0 <= j < |sys.modules| ensures ModuleRight(sys.modules[j], env) {
        ModulesAreVisited(sys, j);
        FaultlessModule(sys, j);
      }
    }
  }

  lemma FaultlessModule(sys: AstSystem, j: nat)
    requires ParsedSystem(sys) && j < |sys.modules|
    ensures ModuleRight(sys.modules[j], InitialTypes(sys)) <==> !StepFaulty(sys, OfModule(j))
  {
    AddAllValid(InitialEntries(sys));
    TypeNamesKnown(sys, j);
    InitialModule(sys, j);
    ModuleRightExactly(sys.modules[j], InitialTypes(sys));
  }

  lemma FaultlessName(sys: AstSystem, t: Model)
    requires ParsedSystem(sys) && t in AllTypes(sys) && !FaultyProgram(sys)
    ensures NameRight(t.name, InitialTypes(sys))
  {
    NamesDeclared(sys);
    var k :| 0 <= k < |AllTypes(sys)| && AllTypes(sys)[k] == t;
    assert IterationSteps(sys)[k] == TypeStep(t, InitialTypes(sys).ids);
    NameRightExactly(sys, t.name);
  }

  lemma RightStep(sys: AstSystem, step: Step)
    requires ParsedSystem(sys) && ProgramRight(sys, InitialTypes(sys)) && step in IterationSteps(sys)
    ensures !StepFaulty(sys, step)
  {
    var k := StepDeclared(sys, step);
    if step.OfType? {
      DeclaredRight(sys, k);
      NameRightExactly(sys, AllTypes(sys)[k].name);
    } else {
      FaultlessModule(sys, step.j);
    }
  }

  /** A step of an iteration passes a declared type or a module. */
  lemma StepDeclared(sys: AstSystem, step: Step) returns (k: nat)
    requires step in IterationSteps(sys)
    ensures step.OfType? ==>
              && k < |AllTypes(sys)| && AllTypes(sys)[k].name in InitialTypes(sys).ids
              && step.i == InitialTypes(sys).ids[AllTypes(sys)[k].name]
    ensures step.OfModule? ==> step.j < |sys.modules|
  {
    NamesDeclared(sys);
    var n := |AllTypes(sys)|;
    k :| 0 <= k < |IterationSteps(sys)| && IterationSteps(sys)[k] == step;
    if k < n {
      assert step == TypeStep(AllTypes(sys)[k], InitialTypes(sys).ids);
    } else {
      assert step == OfModule(k - n);
    }
  }

  lemma DeclaredRight(sys: AstSystem, k: nat)
    requires ProgramRight(sys, InitialTypes(sys)) && k < |AllTypes(sys)|
    ensures NameRight(AllTypes(sys)[k].name, InitialTypes(sys))
  {
    var t := AllTypes(sys)[k];
    if k < |sys.types| {
      assert t == sys.types[k];
    } else {
      assert t == ModuleTypes(sys.modules)[k - |sys.types|];
      ModuleTypesFrom(sys.modules, t);
      var j :| 0 <= j < |sys.modules| && t in sys.modules[j].types;
      var l :| 0 <= l < |sys.modules[j].types| && sys.modules[j].types[l] == t;
    }
  }
}
