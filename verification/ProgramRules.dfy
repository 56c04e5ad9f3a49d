/** Which programs are accepted, read off the declarations alone: the rules of every kind of declaration. */
module ProgramRules {
  import opened Wrappers
  import opened Ast
  import opened Passes
  import opened OneShot
  import opened EnvironmentLemmas
  import opened FieldTypeLemmas
  import opened Declarations
  import opened DeclarationSteps
  import opened Parts
  import opened PartPasses
  import opened PartFacts
  import opened Typechecker
  import opened TypecheckerTheorems
  import opened Acceptance
  import opened Rounds
  import opened TypingRules

  // ----- The rules -----

  /** Every name of the type is that of an entry, `Set` or `Array`. */
  predicate TypeAccepted(ft: FieldType, env: Arena)
    decreases ft
  {
    match ft
    case OptionalField(u) => TypeAccepted(u, env)
    case Plain(n, params, _) =>
      (n in {"Set", "Array"} || n in env.ids) && forall i :: 0 <= i < |params| ==> TypeAccepted(params[i], env)
  }

  /** An annotation that is declared, fits its target and its parameters, and has typed expressions. */
  ghost predicate AnnotationAccepted(a: Annotation, env: Arena, sc: Scope) {
    a.declared && !a.misused && forall i :: 0 <= i < |a.params| ==> HasType(a.params[i], env, sc)
  }

  ghost predicate AnnotationsAccepted(m: AnnotationMap, env: Arena, sc: Scope) {
    |m.duplicates| == 0 && forall i :: 0 <= i < |m.annotations| ==> AnnotationAccepted(m.annotations[i], env, sc)
  }

  ghost predicate DefaultAccepted(d: Default, env: Arena, sc: Scope) {
    match d
    case NoDefault => true
    case LiteralDefault(wrong) => !wrong
    case SelectionDefault(s) => HasType(Select(s), env, sc)
  }

  ghost predicate FieldAccepted(f: Field, env: Arena, sc: Scope) {
    TypeAccepted(f.typ, env) && AnnotationsAccepted(f.annotations, env, sc) && DefaultAccepted(f.default, env, sc)
  }

  /** In a model, `self` is the model; fields of a context have no default. */
  ghost predicate ModelAccepted(m: Model, env: Arena) {
    var sc: Scope := map["self" := m.name];
    && (forall i :: 0 <= i < |m.fields| ==> FieldAccepted(m.fields[i], env, sc))
    && (m.kind == ContextKind ==> forall i :: 0 <= i < |m.fields| ==> m.fields[i].default == NoDefault)
    && AnnotationsAccepted(m.annotations, env, sc)
  }

  predicate SaysWhen(m: AnnotationMap) {
    exists i :: 0 <= i < |m.annotations| &&
                (m.annotations[i].name == "before" || m.annotations[i].name == "after" ||
                 m.annotations[i].name == "around")
  }

  /** A method has a result; an interceptor has none, and says when it runs. */
  ghost predicate CallableAccepted(c: Callable, env: Arena) {
    && (forall i :: 0 <= i < |c.args| ==> FieldAccepted(c.args[i], env, map[]))
    && AnnotationsAccepted(c.annotations, env, map[])
    && match c.result
       case Some(ft) => TypeAccepted(ft, env)
       case None => SaysWhen(c.annotations)
  }

  /** A module has exactly one annotation, which tells its subsystem. */
  ghost predicate ModuleAccepted(m: Module, env: Arena) {
    && (forall i :: 0 <= i < |m.types| ==> ModelAccepted(m.types[i], env))
    && (forall i :: 0 <= i < |m.methods| ==> CallableAccepted(m.methods[i], env))
    && (forall i :: 0 <= i < |m.interceptors| ==> CallableAccepted(m.interceptors[i], env))
    && |m.annotations.annotations| == 1 && AnnotationsAccepted(m.annotations, env, map[])
  }

  /** Types outside modules are contexts, the name of every type is that of a model, and modules follow their rules. */
  ghost predicate ProgramAccepted(sys: AstSystem, env: Arena) {
    ContextsOutside(sys.types, env) && TypesInside(sys.modules, env) && ModulesAccepted(sys.modules, env)
  }

  predicate ContextsOutside(roots: seq<Model>, env: Arena) {
    forall k :: 0 <= k < |roots| ==> NamesContext(roots[k].name, env)
  }

  predicate TypesInside(ms: seq<Module>, env: Arena) {
    forall j :: 0 <= j < |ms| ==> TypesAreModels(ms[j], env)
  }

  ghost predicate ModulesAccepted(ms: seq<Module>, env: Arena) {
    forall j :: 0 <= j < |ms| ==> ModuleAccepted(ms[j], env)
  }

  predicate NamesContext(n: string, env: Arena) {
    n in env.ids && IsContextEntry(env.ids[n], env)
  }

  predicate TypesAreModels(m: Module, env: Arena) {
    forall k :: 0 <= k < |m.types| ==> IsModelEntry(m.types[k].name, env)
  }

  // ----- They are what the one-shot typing accepts -----

  lemma HasTypeExactly(e: Expr, env: Arena, sc: Scope)
    requires env.Valid() && ScopeOk(sc, env) && Parsed(e)
    ensures HasType(e, env, sc) <==> Complete(Infer(e, env, sc))
  {
    var t := Deref(Infer(e, env, sc), env);
    TypedExactly(e, env, sc, t);
    if Complete(Infer(e, env, sc)) {
      InferredComplete(e, env, sc, t);
      DerefValue(Infer(e, env, sc), env);
    }
    if u :| Value(u) && Typed(e, env, sc, u) { TypedExactly(e, env, sc, u); }
  }

  lemma {:induction false} TypeAcceptedExactly(ft: FieldType, env: Arena)
    ensures TypeAccepted(ft, env) <==> NamesKnown(ft, env.ids)
  {
    match ft
    case OptionalField(u) => TypeAcceptedExactly(u, env);
    case Plain(n, params, _) =>
      forall i | 0 <= i < |params| ensures TypeAccepted(params[i], env) <==> NamesKnown(params[i], env.ids) {
        TypeAcceptedExactly(params[i], env);
      }
  }

  /** An expression is typed where it stands. */
  ghost predicate UseTyped(u: Use, env: Arena) {
    Complete(Infer(u.expr, env, u.scope))
  }

  lemma AnnotationsExactly(m: AnnotationMap, env: Arena, sc: Scope)
    requires env.Valid() && ScopeOk(sc, env) && ParsedAnnotations(m)
    ensures AnnotationsAccepted(m, env, sc) <==> OwnAnnotations(m) && OfAnnotations(m, sc, (u: Use) => UseTyped(u, env))
  {
    var ofUse := (u: Use) => UseTyped(u, env);
    forall i | 0 <= i < |m.annotations|
      ensures AnnotationAccepted(m.annotations[i], env, sc) <==>
              m.annotations[i].declared && !m.annotations[i].misused &&
              OfParams(m.annotations[i].params, sc, i < FirstUndeclared(m.annotations),
                       FirstUndeclared(m.annotations) == |m.annotations|, ofUse)
    {
      ParamsExactly(m.annotations[i], env, sc, i < FirstUndeclared(m.annotations),
                    FirstUndeclared(m.annotations) == |m.annotations|);
    }
  }

  lemma ParamsExactly(a: Annotation, env: Arena, sc: Scope, visited: bool, heard: bool)
    requires env.Valid() && ScopeOk(sc, env) && ParsedAnnotation(a)
    ensures (forall i :: 0 <= i < |a.params| ==> HasType(a.params[i], env, sc)) <==>
            OfParams(a.params, sc, visited, heard, (u: Use) => UseTyped(u, env))
  {
    var ofUse := (u: Use) => UseTyped(u, env);
    forall i | 0 <= i < |a.params|
      ensures HasType(a.params[i], env, sc) <==> ofUse(Use(a.params[i], sc, visited, heard))
    {
      HasTypeExactly(a.params[i], env, sc);
    }
  }

  lemma FieldExactly(f: Field, env: Arena, sc: Scope)
    requires env.Valid() && ScopeOk(sc, env) && ParsedField(f)
    ensures FieldAccepted(f, env, sc) <==>
            OwnField(f) && OfField(f, sc, (u: Use) => UseTyped(u, env), (t: FieldType) => NamesKnown(t, env.ids))
  {
    TypeAcceptedExactly(f.typ, env);
    AnnotationsExactly(f.annotations, env, sc);
    if f.default.SelectionDefault? { HasTypeExactly(Select(f.default.sel), env, sc); }
  }

  lemma FieldsExactly(fs: seq<Field>, env: Arena, sc: Scope)
    requires env.Valid() && ScopeOk(sc, env) && forall i :: 0 <= i < |fs| ==> ParsedField(fs[i])
    ensures (forall i :: 0 <= i < |fs| ==> FieldAccepted(fs[i], env, sc)) <==>
            OwnSilence(fs, OwnField) &&
            OfFields(fs, sc, (u: Use) => UseTyped(u, env), (t: FieldType) => NamesKnown(t, env.ids))
  {
    forall i | 0 <= i < |fs|
      ensures FieldAccepted(fs[i], env, sc) <==>
              OwnField(fs[i]) &&
              OfField(fs[i], sc, (u: Use) => UseTyped(u, env), (t: FieldType) => NamesKnown(t, env.ids))
    {
      FieldExactly(fs[i], env, sc);
    }
  }

  lemma ModelExactly(m: Model, env: Arena)
    requires env.Valid() && m.name in env.ids && ParsedModel(m)
    ensures ModelAccepted(m, env) <==>
            OwnModel(m) &&
            OfModel(m, (u: Use) => UseTyped(u, env), (t: FieldType) => NamesKnown(t, env.ids), (f: Fragment) => true)
  {
    FieldsExactly(m.fields, env, ModelScope(m.name));
    AnnotationsExactly(m.annotations, env, ModelScope(m.name));
  }

  lemma CallableExactly(c: Callable, env: Arena)
    requires env.Valid() && ParsedCallable(c)
    ensures CallableAccepted(c, env) <==>
            OwnCallable(c) && OfCallable(c, (u: Use) => UseTyped(u, env), (t: FieldType) => NamesKnown(t, env.ids))
  {
    FieldsExactly(c.args, env, NO_SCOPE);
    AnnotationsExactly(c.annotations, env, NO_SCOPE);
    if c.result.Some? { TypeAcceptedExactly(c.result.value, env); }
  }

  lemma CallablesExactly(cs: seq<Callable>, env: Arena)
    requires env.Valid() && forall i :: 0 <= i < |cs| ==> ParsedCallable(cs[i])
    ensures (forall i :: 0 <= i < |cs| ==> CallableAccepted(cs[i], env)) <==>
            OwnSilence(cs, OwnCallable) &&
            forall i :: 0 <= i < |cs| ==>
              OfCallable(cs[i], (u: Use) => UseTyped(u, env), (t: FieldType) => NamesKnown(t, env.ids))
  {
    forall i | 0 <= i < |cs|
      ensures CallableAccepted(cs[i], env) <==>
              OwnCallable(cs[i]) &&
              OfCallable(cs[i], (u: Use) => UseTyped(u, env), (t: FieldType) => NamesKnown(t, env.ids))
    {
      CallableExactly(cs[i], env);
    }
  }

  lemma ModelsExactly(ms: seq<Model>, env: Arena)
    requires env.Valid() && forall i :: 0 <= i < |ms| ==> ms[i].name in env.ids && ParsedModel(ms[i])
    ensures (forall i :: 0 <= i < |ms| ==> ModelAccepted(ms[i], env)) <==>
            OwnSilence(ms, OwnModel) &&
            forall i :: 0 <= i < |ms| ==>
              OfModel(ms[i], (u: Use) => UseTyped(u, env), (t: FieldType) => NamesKnown(t, env.ids),
                      (f: Fragment) => true)
  {
    forall i | 0 <= i < |ms|
      ensures ModelAccepted(ms[i], env) <==>
              OwnModel(ms[i]) &&
              OfModel(ms[i], (u: Use) => UseTyped(u, env), (t: FieldType) => NamesKnown(t, env.ids),
                      (f: Fragment) => true)
    {
      ModelExactly(ms[i], env);
    }
  }

  /** A module follows the rules exactly if it is well typed in one shot. */
  lemma ModuleExactly(m: Module, env: Arena)
    requires env.Valid() && ParsedModule(m) && forall i :: 0 <= i < |m.types| ==> m.types[i].name in env.ids
    ensures ModuleAccepted(m, env) <==> WellTypedModule(m, env)
  {
    var ofUse, ofType := (u: Use) => UseTyped(u, env), (t: FieldType) => NamesKnown(t, env.ids);
    ModelsExactly(m.types, env);
    CallablesExactly(m.methods, env);
    CallablesExactly(m.interceptors, env);
    AnnotationsExactly(m.annotations, env, NO_SCOPE);
    EveryModule(m, ofUse, ofType, (f: Fragment) => true);
    EveryUseAgrees(ModuleParts(m), env);
  }

  lemma EveryUseAgrees(p: Parts, env: Arena)
    ensures TypedParts(p, env) <==>
            Every(p, (u: Use) => UseTyped(u, env), (t: FieldType) => NamesKnown(t, env.ids), (f: Fragment) => true)
  {
  }

  predicate AreModels(ts: seq<Model>, env: Arena) {
    forall k :: 0 <= k < |ts| ==> IsModelName(ts[k].name, env)
  }

  lemma {:induction false} RootsExactly(roots: seq<Model>, env: Arena)
    requires AreModels(roots, env)
    ensures RootErrors(roots, env) == [] <==> ContextsOutside(roots, env)
  {
    if roots != [] {
      var n := |roots| - 1;
      RootsExactly(roots[..n], env);
      assert forall k :: 0 <= k < n ==> roots[..n][k] == roots[k];
      if RootErrors(roots, env) == [] {
        forall k | 0 <= k < |roots| ensures NamesContext(roots[k].name, env) {
          if k < n { assert roots[..n][k] == roots[k]; }
        }
      }
    }
  }

  lemma {:induction false} ModelsExactlyNamed(all: seq<Model>, env: Arena)
    ensures NonModelErrors(all, env) == [] <==> AreModels(all, env)
  {
    if all != [] {
      var n := |all| - 1;
      ModelsExactlyNamed(all[..n], env);
      assert forall k :: 0 <= k < n ==> all[..n][k] == all[k];
      if NonModelErrors(all, env) == [] {
        forall k | 0 <= k < |all| ensures IsModelName(all[k].name, env) {
          if k < n { assert all[..n][k] == all[k]; }
        }
      }
    }
  }

  /** A program is well typed exactly if it follows the rules. */
  lemma WellTypedExactly(sys: AstSystem)
    requires ParsedSystem(sys)
    ensures WellTyped(sys) <==> ProgramAccepted(sys, InitialTypes(sys))
  {
    var env := InitialTypes(sys);
    AddAllValid(InitialEntries(sys));
    ModelsExactlyNamed(AllTypes(sys), env);
    DeclaredModels(sys, env);
    if AreModels(sys.types, env) { RootsExactly(sys.types, env); }
    ModulesExactly(sys);
  }

  lemma ModulesExactly(sys: AstSystem)
    requires ParsedSystem(sys)
    ensures ModulesAccepted(sys.modules, InitialTypes(sys)) <==>
            forall j :: 0 <= j < |sys.modules| ==> WellTypedModule(sys.modules[j], InitialTypes(sys))
  {
    var env := InitialTypes(sys);
    AddAllValid(InitialEntries(sys));
    forall j | 0 <= j < |sys.modules|
      ensures ModuleAccepted(sys.modules[j], env) <==> WellTypedModule(sys.modules[j], env)
    {
      TypeNamesKnown(sys, j);
      ModuleExactly(sys.modules[j], env);
    }
  }

  lemma TypeNamesKnown(sys: AstSystem, j: nat)
    requires j < |sys.modules|
    ensures forall k :: 0 <= k < |sys.modules[j].types| ==> sys.modules[j].types[k].name in InitialTypes(sys).ids
  {
    forall k | 0 <= k < |sys.modules[j].types| ensures sys.modules[j].types[k].name in InitialTypes(sys).ids {
      ModuleTypesFrom(sys.modules, sys.modules[j].types[k]);
      DeclaredNameKnown(sys, sys.modules[j].types[k]);
    }
  }

  /** All declared types are those outside modules and those of the modules. */
  lemma DeclaredModels(sys: AstSystem, env: Arena)
    ensures AreModels(AllTypes(sys), env) <==> AreModels(sys.types, env) && TypesInside(sys.modules, env)
  {
    var all, own := AllTypes(sys), ModuleTypes(sys.modules);
    if AreModels(all, env) {
      forall k | 0 <= k < |sys.types| ensures IsModelName(sys.types[k].name, env) { assert all[k] == sys.types[k]; }
      forall j, k | 0 <= j < |sys.modules| && 0 <= k < |sys.modules[j].types|
        ensures IsModelEntry(sys.modules[j].types[k].name, env)
      {
        ModuleTypesFrom(sys.modules, sys.modules[j].types[k]);
        var i :| 0 <= i < |own| && own[i] == sys.modules[j].types[k];
        assert all[|sys.types| + i] == own[i];
      }
    }
    if AreModels(sys.types, env) && TypesInside(sys.modules, env) {
      forall k | 0 <= k < |all| ensures IsModelName(all[k].name, env) {
        if k >= |sys.types| {
          assert all[k] == own[k - |sys.types|] && own[k - |sys.types|] in own;
          ModuleTypesFrom(sys.modules, all[k]);
          var j :| 0 <= j < |sys.modules| && all[k] in sys.modules[j].types;
          assert TypesAreModels(sys.modules[j], env);
        }
      }
    }
  }
}
