/** Soundness, completeness, the measure and the shape of a declaration, part by part. */
module PartFacts {
  import opened Wrappers
  import opened Ast
  import opened Passes
  import opened OneShot
  import opened ExprProgress
  import opened ExprCompletion
  import opened FieldTypeLemmas
  import opened Declarations
  import opened Parts

  // ----- A property of all parts, level by level -----

  ghost predicate OfParams(es: seq<Expr>, sc: Scope, visited: bool, heard: bool, ofUse: Use -> bool) {
    forall j :: 0 <= j < |es| ==> ofUse(Use(es[j], sc, visited, heard))
  }

  ghost predicate OfAnnotations(m: AnnotationMap, sc: Scope, ofUse: Use -> bool) {
    forall i :: 0 <= i < |m.annotations| ==>
      OfParams(m.annotations[i].params, sc, i < FirstUndeclared(m.annotations),
               FirstUndeclared(m.annotations) == |m.annotations|, ofUse)
  }

  lemma EveryParams(es: seq<Expr>, sc: Scope, visited: bool, heard: bool,
                    ofUse: Use -> bool, ofType: FieldType -> bool, ofFragment: Fragment -> bool)
    ensures Every(ParamParts(es, sc, visited, heard), ofUse, ofType, ofFragment) <==>
            OfParams(es, sc, visited, heard, ofUse)
  {
    var p := ParamParts(es, sc, visited, heard);
    assert forall j :: 0 <= j < |es| ==> p.uses[j] == Use(es[j], sc, visited, heard);
  }

  ghost predicate OfAnnotationList(as_: seq<Annotation>, sc: Scope, visited: bool, heard: bool, ofUse: Use -> bool) {
    forall i :: 0 <= i < |as_| ==> OfParams(as_[i].params, sc, visited, heard, ofUse)
  }

  lemma EveryAnnotationList(as_: seq<Annotation>, sc: Scope, visited: bool, heard: bool,
                            ofUse: Use -> bool, ofType: FieldType -> bool, ofFragment: Fragment -> bool)
    ensures Every(AnnotationListParts(as_, sc, visited, heard), ofUse, ofType, ofFragment) <==>
            OfAnnotationList(as_, sc, visited, heard, ofUse)
  {
    EveryGathered(as_, (a: Annotation) => AnnotationParts(a, sc, visited, heard), ofUse, ofType, ofFragment);
    forall i | 0 <= i < |as_|
      ensures Every(AnnotationParts(as_[i], sc, visited, heard), ofUse, ofType, ofFragment) <==>
              OfParams(as_[i].params, sc, visited, heard, ofUse)
    {
      EveryParams(as_[i].params, sc, visited, heard, ofUse, ofType, ofFragment);
    }
  }

  lemma EveryAnnotations(m: AnnotationMap, sc: Scope, ofUse: Use -> bool, ofType: FieldType -> bool,
                         ofFragment: Fragment -> bool)
    ensures Every(AnnotationsParts(m, sc), ofUse, ofType, ofFragment) <==> OfAnnotations(m, sc, ofUse)
  {
    var k := FirstUndeclared(m.annotations);
    var heard := k == |m.annotations|;
    var front, back := m.annotations[..k], m.annotations[k..];
    EveryJoin(AnnotationListParts(front, sc, true, heard), AnnotationListParts(back, sc, false, false), ofUse, ofType,
              ofFragment);
    EveryAnnotationList(front, sc, true, heard, ofUse, ofType, ofFragment);
    EveryAnnotationList(back, sc, false, false, ofUse, ofType, ofFragment);
    AnnotationsSplit(m, sc, ofUse);
  }

  lemma AnnotationsSplit(m: AnnotationMap, sc: Scope, ofUse: Use -> bool)
    ensures var k := FirstUndeclared(m.annotations);
            OfAnnotations(m, sc, ofUse) <==>
            OfAnnotationList(m.annotations[..k], sc, true, k == |m.annotations|, ofUse) &&
            OfAnnotationList(m.annotations[k..], sc, false, false, ofUse)
  {
    var k := FirstUndeclared(m.annotations);
    var heard := k == |m.annotations|;
    var front, back := m.annotations[..k], m.annotations[k..];
    if OfAnnotations(m, sc, ofUse) {
      forall i | 0 <= i < |back| ensures OfParams(back[i].params, sc, false, false, ofUse) {
        assert back[i] == m.annotations[k + i];
      }
    }
    if OfAnnotationList(front, sc, true, heard, ofUse) && OfAnnotationList(back, sc, false, false, ofUse) {
      forall i | 0 <= i < |m.annotations| ensures OfParams(m.annotations[i].params, sc, i < k, heard, ofUse) {
        if i < k { assert front[i] == m.annotations[i]; } else { assert back[i - k] == m.annotations[i]; }
      }
    }
  }

  ghost predicate OfField(f: Field, sc: Scope, ofUse: Use -> bool, ofType: FieldType -> bool) {
    && ofType(f.typ) && OfAnnotations(f.annotations, sc, ofUse)
    && (f.default.SelectionDefault? ==> ofUse(Use(Select(f.default.sel), sc, true, true)))
  }

  lemma EveryField(f: Field, sc: Scope, ofUse: Use -> bool, ofType: FieldType -> bool, ofFragment: Fragment -> bool)
    ensures Every(FieldParts(f, sc), ofUse, ofType, ofFragment) <==> OfField(f, sc, ofUse, ofType)
  {
    EveryType(f.typ, ofUse, ofType, ofFragment);
    EveryAnnotations(f.annotations, sc, ofUse, ofType, ofFragment);
    EveryJoin(AnnotationsParts(f.annotations, sc), DefaultParts(f.default, sc), ofUse, ofType, ofFragment);
    EveryJoin(TypeParts(f.typ), Join(AnnotationsParts(f.annotations, sc), DefaultParts(f.default, sc)), ofUse, ofType,
              ofFragment);
    var d := DefaultParts(f.default, sc);
    if f.default.SelectionDefault? { assert d.uses[0] == Use(Select(f.default.sel), sc, true, true); }
  }

  ghost predicate OfFields(fs: seq<Field>, sc: Scope, ofUse: Use -> bool, ofType: FieldType -> bool) {
    forall i :: 0 <= i < |fs| ==> OfField(fs[i], sc, ofUse, ofType)
  }

  lemma EveryFields(fs: seq<Field>, sc: Scope, ofUse: Use -> bool, ofType: FieldType -> bool,
                    ofFragment: Fragment -> bool)
    ensures Every(FieldsParts(fs, sc), ofUse, ofType, ofFragment) <==> OfFields(fs, sc, ofUse, ofType)
  {
    EveryGathered(fs, (f: Field) => FieldParts(f, sc), ofUse, ofType, ofFragment);
    forall i | 0 <= i < |fs|
      ensures Every(FieldParts(fs[i], sc), ofUse, ofType, ofFragment) <==> OfField(fs[i], sc, ofUse, ofType)
    {
      EveryField(fs[i], sc, ofUse, ofType, ofFragment);
    }
  }

  ghost predicate OfModel(m: Model, ofUse: Use -> bool, ofType: FieldType -> bool, ofFragment: Fragment -> bool) {
    && OfFields(m.fields, ModelScope(m.name), ofUse, ofType) && OfAnnotations(m.annotations, ModelScope(m.name), ofUse)
    && forall i :: 0 <= i < |m.fragments| ==> ofFragment(m.fragments[i])
  }

  lemma EveryModel(m: Model, ofUse: Use -> bool, ofType: FieldType -> bool, ofFragment: Fragment -> bool)
    ensures Every(ModelParts(m), ofUse, ofType, ofFragment) <==> OfModel(m, ofUse, ofType, ofFragment)
  {
    var sc := ModelScope(m.name);
    var p := FragmentParts(m.fragments);
    EveryFields(m.fields, sc, ofUse, ofType, ofFragment);
    EveryAnnotations(m.annotations, sc, ofUse, ofType, ofFragment);
    EveryJoin(p, AnnotationsParts(m.annotations, sc), ofUse, ofType, ofFragment);
    EveryJoin(FieldsParts(m.fields, sc), Join(p, AnnotationsParts(m.annotations, sc)), ofUse, ofType, ofFragment);
    assert forall k :: 0 <= k < |m.fragments| ==> p.fragments[k] == m.fragments[k];
  }

  ghost predicate OfCallable(c: Callable, ofUse: Use -> bool, ofType: FieldType -> bool) {
    && OfFields(c.args, NO_SCOPE, ofUse, ofType) && OfAnnotations(c.annotations, NO_SCOPE, ofUse)
    && (c.result.Some? ==> ofType(c.result.value))
  }

  lemma EveryCallable(c: Callable, ofUse: Use -> bool, ofType: FieldType -> bool, ofFragment: Fragment -> bool)
    ensures Every(CallableParts(c), ofUse, ofType, ofFragment) <==> OfCallable(c, ofUse, ofType)
  {
    EveryFields(c.args, NO_SCOPE, ofUse, ofType, ofFragment);
    EveryAnnotations(c.annotations, NO_SCOPE, ofUse, ofType, ofFragment);
    if c.result.Some? { EveryType(c.result.value, ofUse, ofType, ofFragment); }
    EveryJoin(ResultParts(c.result), AnnotationsParts(c.annotations, NO_SCOPE), ofUse, ofType, ofFragment);
    EveryJoin(FieldsParts(c.args, NO_SCOPE), Join(ResultParts(c.result), AnnotationsParts(c.annotations, NO_SCOPE)),
              ofUse, ofType, ofFragment);
  }

  ghost predicate OfModule(m: Module, ofUse: Use -> bool, ofType: FieldType -> bool, ofFragment: Fragment -> bool) {
    && (forall i :: 0 <= i < |m.types| ==> OfModel(m.types[i], ofUse, ofType, ofFragment))
    && (forall i :: 0 <= i < |m.methods| ==> OfCallable(m.methods[i], ofUse, ofType))
    && (forall i :: 0 <= i < |m.interceptors| ==> OfCallable(m.interceptors[i], ofUse, ofType))
    && OfAnnotations(m.annotations, NO_SCOPE, ofUse)
  }

  lemma EveryCallables(cs: seq<Callable>, ofUse: Use -> bool, ofType: FieldType -> bool, ofFragment: Fragment -> bool)
    ensures Every(CallablesParts(cs), ofUse, ofType, ofFragment) <==>
            forall i :: 0 <= i < |cs| ==> OfCallable(cs[i], ofUse, ofType)
  {
    EveryGathered(cs, CallableParts, ofUse, ofType, ofFragment);
    forall i | 0 <= i < |cs|
      ensures Every(CallableParts(cs[i]), ofUse, ofType, ofFragment) <==> OfCallable(cs[i], ofUse, ofType)
    {
      EveryCallable(cs[i], ofUse, ofType, ofFragment);
    }
  }

  lemma EveryModels(ms: seq<Model>, ofUse: Use -> bool, ofType: FieldType -> bool, ofFragment: Fragment -> bool)
    ensures Every(ModelsParts(ms), ofUse, ofType, ofFragment) <==>
            forall i :: 0 <= i < |ms| ==> OfModel(ms[i], ofUse, ofType, ofFragment)
  {
    EveryGathered(ms, ModelParts, ofUse, ofType, ofFragment);
    forall i | 0 <= i < |ms|
      ensures Every(ModelParts(ms[i]), ofUse, ofType, ofFragment) <==> OfModel(ms[i], ofUse, ofType, ofFragment)
    {
      EveryModel(ms[i], ofUse, ofType, ofFragment);
    }
  }

  lemma EveryModule(m: Module, ofUse: Use -> bool, ofType: FieldType -> bool, ofFragment: Fragment -> bool)
    ensures Every(ModuleParts(m), ofUse, ofType, ofFragment) <==> OfModule(m, ofUse, ofType, ofFragment)
  {
    EveryModels(m.types, ofUse, ofType, ofFragment);
    EveryCallables(m.methods, ofUse, ofType, ofFragment);
    EveryCallables(m.interceptors, ofUse, ofType, ofFragment);
    EveryAnnotations(m.annotations, NO_SCOPE, ofUse, ofType, ofFragment);
    EveryJoin(ModelsParts(m.types), CallablesParts(m.methods), ofUse, ofType, ofFragment);
    EveryJoin(CallablesParts(m.interceptors), AnnotationsParts(m.annotations, NO_SCOPE), ofUse, ofType, ofFragment);
    EveryJoin(FrontParts(m.types, m.methods), BackParts(m.interceptors, m.annotations), ofUse, ofType, ofFragment);
  }

  // ----- Soundness -----

  /** Every slot that is resolved holds its one-shot type, every flag that is set names a known type. */
  ghost predicate SoundParts(p: Parts, env: Arena) {
    Every(p, (u: Use) => Sound(u.expr, env, u.scope), (t: FieldType) => FlagsSound(t, env.ids),
          (f: Fragment) => SoundFragment(f, env))
  }

  lemma SoundAnnotationsParts(m: AnnotationMap, sc: Scope, env: Arena, ofUse: Use -> bool)
    requires forall u: Use :: ofUse(u) <==> Sound(u.expr, env, u.scope)
    ensures OfAnnotations(m, sc, ofUse) <==> SoundAnnotations(m, env, sc)
  {
    var k := FirstUndeclared(m.annotations);
    forall i | 0 <= i < |m.annotations|
      ensures OfParams(m.annotations[i].params, sc, i < k, k == |m.annotations|, ofUse) <==>
              SoundAnnotation(m.annotations[i], env, sc)
    {
      var es := m.annotations[i].params;
      assert forall j :: 0 <= j < |es| ==>
               (ofUse(Use(es[j], sc, i < k, k == |m.annotations|)) <==> Sound(es[j], env, sc));
    }
  }

  lemma SoundFieldParts(f: Field, sc: Scope, env: Arena, ofUse: Use -> bool, ofType: FieldType -> bool)
    requires forall u: Use :: ofUse(u) <==> Sound(u.expr, env, u.scope)
    requires forall t: FieldType :: ofType(t) <==> FlagsSound(t, env.ids)
    ensures OfField(f, sc, ofUse, ofType) <==> SoundField(f, env, sc)
  {
    SoundAnnotationsParts(f.annotations, sc, env, ofUse);
    if f.default.SelectionDefault? {
      assert ofUse(Use(Select(f.default.sel), sc, true, true)) <==> SelectionSound(f.default.sel, env, sc);
    }
  }

  lemma SoundModelParts(m: Model, env: Arena)
    ensures SoundModel(m, env) <==> m.name in env.ids && SoundParts(ModelParts(m), env)
  {
    var ofUse := (u: Use) => Sound(u.expr, env, u.scope);
    var ofType := (t: FieldType) => FlagsSound(t, env.ids);
    var ofFragment := (f: Fragment) => SoundFragment(f, env);
    EveryModel(m, ofUse, ofType, ofFragment);
    SoundFieldsParts(m.fields, ModelScope(m.name), env, ofUse, ofType);
    SoundAnnotationsParts(m.annotations, ModelScope(m.name), env, ofUse);
  }

  lemma SoundCallablesParts(cs: seq<Callable>, env: Arena, ofUse: Use -> bool, ofType: FieldType -> bool)
    requires forall u: Use :: ofUse(u) <==> Sound(u.expr, env, u.scope)
    requires forall t: FieldType :: ofType(t) <==> FlagsSound(t, env.ids)
    ensures forall i :: 0 <= i < |cs| ==> (SoundCallable(cs[i], env) <==> OfCallable(cs[i], ofUse, ofType))
  {
    forall i | 0 <= i < |cs| ensures SoundCallable(cs[i], env) <==> OfCallable(cs[i], ofUse, ofType) {
      SoundFieldsParts(cs[i].args, NO_SCOPE, env, ofUse, ofType);
      SoundAnnotationsParts(cs[i].annotations, NO_SCOPE, env, ofUse);
    }
  }

  lemma SoundFieldsParts(fs: seq<Field>, sc: Scope, env: Arena, ofUse: Use -> bool, ofType: FieldType -> bool)
    requires forall u: Use :: ofUse(u) <==> Sound(u.expr, env, u.scope)
    requires forall t: FieldType :: ofType(t) <==> FlagsSound(t, env.ids)
    ensures OfFields(fs, sc, ofUse, ofType) <==> forall i :: 0 <= i < |fs| ==> SoundField(fs[i], env, sc)
  {
    forall i | 0 <= i < |fs| ensures OfField(fs[i], sc, ofUse, ofType) <==> SoundField(fs[i], env, sc) {
      SoundFieldParts(fs[i], sc, env, ofUse, ofType);
    }
  }

  lemma SoundModuleParts(m: Module, env: Arena)
    ensures SoundModule(m, env) <==>
            (forall i :: 0 <= i < |m.types| ==> m.types[i].name in env.ids) && SoundParts(ModuleParts(m), env)
  {
    var ofUse := (u: Use) => Sound(u.expr, env, u.scope);
    var ofType := (t: FieldType) => FlagsSound(t, env.ids);
    var ofFragment := (f: Fragment) => SoundFragment(f, env);
    EveryModule(m, ofUse, ofType, ofFragment);
    forall i | 0 <= i < |m.types|
      ensures SoundModel(m.types[i], env) <==>
              m.types[i].name in env.ids && OfModel(m.types[i], ofUse, ofType, ofFragment)
    {
      SoundModelParts(m.types[i], env);
      EveryModel(m.types[i], ofUse, ofType, ofFragment);
    }
    SoundCallablesParts(m.methods, env, ofUse, ofType);
    SoundCallablesParts(m.interceptors, env, ofUse, ofType);
    SoundAnnotationsParts(m.annotations, NO_SCOPE, env, ofUse);
  }

  /** Model scopes name models of the arena. */
  ghost predicate ScopesOk(p: Parts, env: Arena) {
    Every(p, (u: Use) => ScopeOk(u.scope, env), (t: FieldType) => true, (f: Fragment) => true)
  }

  /** A property of all scopes. */
  ghost predicate OfScopes(p: Parts, ofScope: Scope -> bool) {
    Every(p, (u: Use) => ofScope(u.scope), (t: FieldType) => true, (f: Fragment) => true)
  }

  lemma FieldScopes(fs: seq<Field>, sc: Scope, ofUse: Use -> bool)
    requires forall u: Use :: u.scope == sc ==> ofUse(u)
    ensures OfFields(fs, sc, ofUse, (t: FieldType) => true)
  {
    forall i | 0 <= i < |fs| ensures OfField(fs[i], sc, ofUse, (t: FieldType) => true) {
      assert OfAnnotations(fs[i].annotations, sc, ofUse);
    }
  }

  lemma ModelScopesHold(m: Model, ofScope: Scope -> bool)
    requires ofScope(ModelScope(m.name))
    ensures OfScopes(ModelParts(m), ofScope)
  {
    var ofUse := (u: Use) => ofScope(u.scope);
    EveryModel(m, ofUse, (t: FieldType) => true, (f: Fragment) => true);
    FieldScopes(m.fields, ModelScope(m.name), ofUse);
  }

  lemma CallableScopesHold(c: Callable, ofScope: Scope -> bool)
    requires ofScope(NO_SCOPE)
    ensures OfScopes(CallableParts(c), ofScope)
  {
    var ofUse := (u: Use) => ofScope(u.scope);
    EveryCallable(c, ofUse, (t: FieldType) => true, (f: Fragment) => true);
    FieldScopes(c.args, NO_SCOPE, ofUse);
  }

  lemma ModuleScopesHold(m: Module, ofScope: Scope -> bool)
    requires ofScope(NO_SCOPE) && forall i :: 0 <= i < |m.types| ==> ofScope(ModelScope(m.types[i].name))
    ensures OfScopes(ModuleParts(m), ofScope)
  {
    var ofUse := (u: Use) => ofScope(u.scope);
    var all, any := (t: FieldType) => true, (f: Fragment) => true;
    EveryModule(m, ofUse, all, any);
    forall i | 0 <= i < |m.types| ensures OfModel(m.types[i], ofUse, all, any) {
      ModelScopesHold(m.types[i], ofScope);
      EveryModel(m.types[i], ofUse, all, any);
    }
    forall i | 0 <= i < |m.methods| ensures OfCallable(m.methods[i], ofUse, all) {
      CallableScopesHold(m.methods[i], ofScope);
      EveryCallable(m.methods[i], ofUse, all, any);
    }
    forall i | 0 <= i < |m.interceptors| ensures OfCallable(m.interceptors[i], ofUse, all) {
      CallableScopesHold(m.interceptors[i], ofScope);
      EveryCallable(m.interceptors[i], ofUse, all, any);
    }
  }

  lemma ModelScopes(m: Model, env: Arena)
    requires m.name in env.ids
    ensures ScopesOk(ModelParts(m), env)
  {
    ModelScopesHold(m, (sc: Scope) => ScopeOk(sc, env));
  }

  lemma ModuleScopes(m: Module, env: Arena)
    requires forall i :: 0 <= i < |m.types| ==> m.types[i].name in env.ids
    ensures ScopesOk(ModuleParts(m), env)
  {
    ModuleScopesHold(m, (sc: Scope) => ScopeOk(sc, env));
  }

  // ----- Declared annotations, completeness, single parameters -----

  predicate DeclaredAnnotations(m: AnnotationMap) {
    forall i :: 0 <= i < |m.annotations| ==> m.annotations[i].declared
  }

  predicate DeclaredFields(fs: seq<Field>) {
    forall i :: 0 <= i < |fs| ==> DeclaredAnnotations(fs[i].annotations)
  }

  predicate DeclaredModel(m: Model) {
    DeclaredFields(m.fields) && DeclaredAnnotations(m.annotations)
  }

  predicate DeclaredCallable(c: Callable) {
    DeclaredFields(c.args) && DeclaredAnnotations(c.annotations)
  }

  /** Every annotation's name is known. */
  predicate DeclaredModule(m: Module) {
    && (forall i :: 0 <= i < |m.types| ==> DeclaredModel(m.types[i]))
    && (forall i :: 0 <= i < |m.methods| ==> DeclaredCallable(m.methods[i]))
    && (forall i :: 0 <= i < |m.interceptors| ==> DeclaredCallable(m.interceptors[i]))
    && DeclaredAnnotations(m.annotations)
  }

  ghost predicate CompleteParts(p: Parts) {
    Every(p, (u: Use) => AllComplete(u.expr), (t: FieldType) => FlagsSet(t), (f: Fragment) => true)
  }

  lemma CompleteFieldsParts(fs: seq<Field>, sc: Scope, ofUse: Use -> bool, ofType: FieldType -> bool)
    requires forall u: Use :: ofUse(u) <==> AllComplete(u.expr)
    requires forall t: FieldType :: ofType(t) <==> FlagsSet(t)
    ensures OfFields(fs, sc, ofUse, ofType) && DeclaredFields(fs) <==>
            forall i :: 0 <= i < |fs| ==> CompleteField(fs[i])
  {
    forall i | 0 <= i < |fs|
      ensures OfField(fs[i], sc, ofUse, ofType) && DeclaredAnnotations(fs[i].annotations) <==> CompleteField(fs[i])
    {
      CompleteAnnotationsParts(fs[i].annotations, sc, ofUse);
      if fs[i].default.SelectionDefault? {
        assert ofUse(Use(Select(fs[i].default.sel), sc, true, true)) <==> SelectionComplete(fs[i].default.sel);
      }
    }
  }

  lemma CompleteAnnotationsParts(m: AnnotationMap, sc: Scope, ofUse: Use -> bool)
    requires forall u: Use :: ofUse(u) <==> AllComplete(u.expr)
    ensures OfAnnotations(m, sc, ofUse) && DeclaredAnnotations(m) <==> CompleteAnnotations(m)
  {
    var k := FirstUndeclared(m.annotations);
    forall i | 0 <= i < |m.annotations|
      ensures OfParams(m.annotations[i].params, sc, i < k, k == |m.annotations|, ofUse) <==>
              forall j :: 0 <= j < |m.annotations[i].params| ==> AllComplete(m.annotations[i].params[j])
    {
      var es := m.annotations[i].params;
      assert forall j :: 0 <= j < |es| ==> (ofUse(Use(es[j], sc, i < k, k == |m.annotations|)) <==> AllComplete(es[j]));
    }
  }

  lemma CompleteCallablesParts(cs: seq<Callable>, ofUse: Use -> bool, ofType: FieldType -> bool)
    requires forall u: Use :: ofUse(u) <==> AllComplete(u.expr)
    requires forall t: FieldType :: ofType(t) <==> FlagsSet(t)
    ensures forall i :: 0 <= i < |cs| ==>
              (CompleteCallable(cs[i]) <==> DeclaredCallable(cs[i]) && OfCallable(cs[i], ofUse, ofType))
  {
    forall i | 0 <= i < |cs|
      ensures CompleteCallable(cs[i]) <==> DeclaredCallable(cs[i]) && OfCallable(cs[i], ofUse, ofType)
    {
      CompleteFieldsParts(cs[i].args, NO_SCOPE, ofUse, ofType);
      CompleteAnnotationsParts(cs[i].annotations, NO_SCOPE, ofUse);
    }
  }

  lemma CompleteModuleParts(m: Module)
    ensures CompleteModule(m) <==> DeclaredModule(m) && CompleteParts(ModuleParts(m))
  {
    var ofUse := (u: Use) => AllComplete(u.expr);
    var ofType := (t: FieldType) => FlagsSet(t);
    var any := (f: Fragment) => true;
    EveryModule(m, ofUse, ofType, any);
    forall i | 0 <= i < |m.types|
      ensures CompleteModel(m.types[i]) <==> DeclaredModel(m.types[i]) && OfModel(m.types[i], ofUse, ofType, any)
    {
      CompleteFieldsParts(m.types[i].fields, ModelScope(m.types[i].name), ofUse, ofType);
      CompleteAnnotationsParts(m.types[i].annotations, ModelScope(m.types[i].name), ofUse);
    }
    CompleteCallablesParts(m.methods, ofUse, ofType);
    CompleteCallablesParts(m.interceptors, ofUse, ofType);
    CompleteAnnotationsParts(m.annotations, NO_SCOPE, ofUse);
  }

  ghost predicate SingleParts(p: Parts) {
    Every(p, (u: Use) => SingleParameter(u.expr), (t: FieldType) => true, (f: Fragment) => true)
  }

  lemma SingleAnnotationsParts(m: AnnotationMap, sc: Scope, ofUse: Use -> bool)
    requires forall u: Use :: ofUse(u) <==> SingleParameter(u.expr)
    ensures OfAnnotations(m, sc, ofUse) <==> SingleAnnotations(m)
  {
    var k := FirstUndeclared(m.annotations);
    forall i | 0 <= i < |m.annotations|
      ensures OfParams(m.annotations[i].params, sc, i < k, k == |m.annotations|, ofUse) <==>
              SingleAnnotation(m.annotations[i])
    {
      var es := m.annotations[i].params;
      assert forall j :: 0 <= j < |es| ==>
               (ofUse(Use(es[j], sc, i < k, k == |m.annotations|)) <==> SingleParameter(es[j]));
    }
  }

  lemma SingleFieldsParts(fs: seq<Field>, sc: Scope, ofUse: Use -> bool)
    requires forall u: Use :: ofUse(u) <==> SingleParameter(u.expr)
    ensures OfFields(fs, sc, ofUse, (t: FieldType) => true) <==> forall i :: 0 <= i < |fs| ==> SingleField(fs[i])
  {
    forall i | 0 <= i < |fs| ensures OfField(fs[i], sc, ofUse, (t: FieldType) => true) <==> SingleField(fs[i]) {
      SingleAnnotationsParts(fs[i].annotations, sc, ofUse);
      if fs[i].default.SelectionDefault? {
        assert ofUse(Use(Select(fs[i].default.sel), sc, true, true)) <==> SelectionSingleParameter(fs[i].default.sel);
      }
    }
  }

  lemma SingleCallablesParts(cs: seq<Callable>, ofUse: Use -> bool)
    requires forall u: Use :: ofUse(u) <==> SingleParameter(u.expr)
    ensures forall i :: 0 <= i < |cs| ==> (SingleCallable(cs[i]) <==> OfCallable(cs[i], ofUse, (t: FieldType) => true))
  {
    forall i | 0 <= i < |cs| ensures SingleCallable(cs[i]) <==> OfCallable(cs[i], ofUse, (t: FieldType) => true) {
      SingleFieldsParts(cs[i].args, NO_SCOPE, ofUse);
      SingleAnnotationsParts(cs[i].annotations, NO_SCOPE, ofUse);
    }
  }

  lemma SingleModuleParts(m: Module)
    ensures SingleModule(m) <==> SingleParts(ModuleParts(m))
  {
    var ofUse := (u: Use) => SingleParameter(u.expr);
    var all, any := (t: FieldType) => true, (f: Fragment) => true;
    EveryModule(m, ofUse, all, any);
    forall i | 0 <= i < |m.types| ensures SingleModel(m.types[i]) <==> OfModel(m.types[i], ofUse, all, any) {
      SingleFieldsParts(m.types[i].fields, ModelScope(m.types[i].name), ofUse);
      SingleAnnotationsParts(m.types[i].annotations, ModelScope(m.types[i].name), ofUse);
    }
    SingleCallablesParts(m.methods, ofUse);
    SingleCallablesParts(m.interceptors, ofUse);
    SingleAnnotationsParts(m.annotations, NO_SCOPE, ofUse);
  }
}
