/** Declarations whose expressions are all in ideal form. */
module IdealDeclarations {
  import opened Wrappers
  import opened Ast
  import opened Passes
  import opened OneShot
  import opened EnvironmentLemmas
  import opened ExprSoundness
  import opened QuietForms
  import opened IdealForms
  import opened Declarations
  import opened Parts
  import opened PartPasses
  import opened PartFacts
  import opened PartShapes

  function IdealParams(es: seq<Expr>, env: Arena, sc: Scope, loose: bool): (r: seq<Expr>)
    ensures |r| == |es|
  {
    seq(|es|, i requires 0 <= i < |es| => Ideal(es[i], env, sc, loose))
  }

  function IdealAnnotation(a: Annotation, env: Arena, sc: Scope, loose: bool): Annotation {
    a.(params := IdealParams(a.params, env, sc, loose))
  }

  function IdealAnnotations(m: AnnotationMap, env: Arena, sc: Scope, loose: bool): AnnotationMap {
    m.(annotations := Map(m.annotations, (a: Annotation) => IdealAnnotation(a, env, sc, loose)))
  }

  function IdealDefault(d: Default, env: Arena, sc: Scope, loose: bool): Default {
    if d.SelectionDefault? then SelectionDefault(IdealSelection(d.sel, env, sc, loose)) else d
  }

  function IdealField(f: Field, env: Arena, sc: Scope, loose: bool): Field {
    Field(f.name, f.typ, IdealAnnotations(f.annotations, env, sc, loose), IdealDefault(f.default, env, sc, loose))
  }

  function IdealFields(fs: seq<Field>, env: Arena, sc: Scope, loose: bool): seq<Field> {
    Map(fs, (f: Field) => IdealField(f, env, sc, loose))
  }

  function IdealModel(m: Model, env: Arena, loose: bool): Model {
    var sc := ModelScope(m.name);
    Model(m.name, m.kind, IdealFields(m.fields, env, sc, loose), m.fragments,
          IdealAnnotations(m.annotations, env, sc, loose))
  }

  function IdealCallable(c: Callable, env: Arena, loose: bool): Callable {
    Callable(c.name, IdealFields(c.args, env, NO_SCOPE, loose), c.result,
             IdealAnnotations(c.annotations, env, NO_SCOPE, loose))
  }

  function IdealCallables(cs: seq<Callable>, env: Arena, loose: bool): seq<Callable> {
    Map(cs, (c: Callable) => IdealCallable(c, env, loose))
  }

  function IdealModule(m: Module, env: Arena, loose: bool): Module {
    Module(m.name, Map(m.types, (t: Model) => IdealModel(t, env, loose)), m.enums,
           IdealCallables(m.methods, env, loose),
           IdealCallables(m.interceptors, env, loose), IdealAnnotations(m.annotations, env, NO_SCOPE, loose))
  }

  // ----- Part by part -----

  function IdealUse(u: Use, env: Arena, loose: bool): Use {
    Use(Ideal(u.expr, env, u.scope, loose), u.scope, u.visited, u.heard)
  }

  ghost predicate IdealParts(p: Parts, q: Parts, env: Arena, loose: bool) {
    Alike(p, q, (u: Use, v: Use) => v == IdealUse(u, env, loose), (t: FieldType, v: FieldType) => v == t,
          (f: Fragment, g: Fragment) => g == f)
  }

  lemma IdealJoin(p: Parts, q: Parts, p': Parts, q': Parts, env: Arena, loose: bool)
    requires IdealParts(p, q, env, loose) && IdealParts(p', q', env, loose)
    ensures IdealParts(Join(p, p'), Join(q, q'), env, loose)
  {
  }

  lemma IdealGathered<T>(xs: seq<T>, ys: seq<T>, f: T -> Parts, env: Arena, loose: bool)
    requires |xs| == |ys| && forall i :: 0 <= i < |xs| ==> IdealParts(f(xs[i]), f(ys[i]), env, loose)
    ensures IdealParts(Gathered(xs, f), Gathered(ys, f), env, loose)
  {
    AlikeGathered(xs, ys, f, (u: Use, v: Use) => v == IdealUse(u, env, loose), (t: FieldType, v: FieldType) => v == t,
                  (f: Fragment, g: Fragment) => g == f);
  }

  lemma IdealParamParts(es: seq<Expr>, env: Arena, sc: Scope, loose: bool, visited: bool, heard: bool)
    ensures IdealParts(ParamParts(es, sc, visited, heard),
                       ParamParts(IdealParams(es, env, sc, loose), sc, visited, heard), env, loose)
  {
    var p, q := ParamParts(es, sc, visited, heard), ParamParts(IdealParams(es, env, sc, loose), sc, visited, heard);
    forall k | 0 <= k < |es| ensures q.uses[k] == IdealUse(p.uses[k], env, loose) {
      assert p.uses[k] == Use(es[k], sc, visited, heard);
    }
  }

  lemma IdealListParts(a: seq<Annotation>, b: seq<Annotation>, env: Arena, sc: Scope, loose: bool, visited: bool,
                       heard: bool)
    requires |a| == |b| && forall i :: 0 <= i < |a| ==> b[i] == IdealAnnotation(a[i], env, sc, loose)
    ensures IdealParts(AnnotationListParts(a, sc, visited, heard), AnnotationListParts(b, sc, visited, heard), env,
                       loose)
  {
    var f := (x: Annotation) => AnnotationParts(x, sc, visited, heard);
    forall i | 0 <= i < |a| ensures IdealParts(f(a[i]), f(b[i]), env, loose) {
      IdealParamParts(a[i].params, env, sc, loose, visited, heard);
    }
    IdealGathered(a, b, f, env, loose);
  }

  lemma IdealAnnotationsParts(m: AnnotationMap, env: Arena, sc: Scope, loose: bool)
    ensures IdealParts(AnnotationsParts(m, sc), AnnotationsParts(IdealAnnotations(m, env, sc, loose), sc), env, loose)
  {
    var k, r := FirstUndeclared(m.annotations), IdealAnnotations(m, env, sc, loose);
    forall i | 0 <= i < |m.annotations| ensures r.annotations[i] == IdealAnnotation(m.annotations[i], env, sc, loose) {}
    SameFirstUndeclared(m.annotations, r.annotations);
    IdealListParts(m.annotations[..k], r.annotations[..k], env, sc, loose, true, k == |m.annotations|);
    IdealListParts(m.annotations[k..], r.annotations[k..], env, sc, loose, false, false);
    IdealJoin(AnnotationListParts(m.annotations[..k], sc, true, k == |m.annotations|),
              AnnotationListParts(r.annotations[..k], sc, true, k == |m.annotations|),
              AnnotationListParts(m.annotations[k..], sc, false, false),
              AnnotationListParts(r.annotations[k..], sc, false, false), env, loose);
  }

  lemma IdealDefaultParts(d: Default, env: Arena, sc: Scope, loose: bool)
    ensures IdealParts(DefaultParts(d, sc), DefaultParts(IdealDefault(d, env, sc, loose), sc), env, loose)
  {
    if d.SelectionDefault? {
      var u := Use(Select(d.sel), sc, true, true);
      assert Ideal(u.expr, env, sc, loose) == Select(IdealSelection(d.sel, env, sc, loose));
      assert DefaultParts(d, sc).uses == [u] &&
             DefaultParts(IdealDefault(d, env, sc, loose), sc).uses == [IdealUse(u, env, loose)];
    }
  }

  lemma SameTypeParts(ft: FieldType, env: Arena, loose: bool)
    ensures IdealParts(TypeParts(ft), TypeParts(ft), env, loose)
  {
  }

  lemma IdealFieldParts(f: Field, env: Arena, sc: Scope, loose: bool)
    ensures IdealParts(FieldParts(f, sc), FieldParts(IdealField(f, env, sc, loose), sc), env, loose)
  {
    var r := IdealField(f, env, sc, loose);
    IdealAnnotationsParts(f.annotations, env, sc, loose);
    IdealDefaultParts(f.default, env, sc, loose);
    SameTypeParts(f.typ, env, loose);
    IdealJoin(AnnotationsParts(f.annotations, sc), AnnotationsParts(r.annotations, sc), DefaultParts(f.default, sc),
              DefaultParts(r.default, sc), env, loose);
    IdealJoin(TypeParts(f.typ), TypeParts(f.typ),
              Join(AnnotationsParts(f.annotations, sc), DefaultParts(f.default, sc)),
              Join(AnnotationsParts(r.annotations, sc), DefaultParts(r.default, sc)), env, loose);
  }

  lemma IdealFieldsParts(fs: seq<Field>, env: Arena, sc: Scope, loose: bool)
    ensures IdealParts(FieldsParts(fs, sc), FieldsParts(IdealFields(fs, env, sc, loose), sc), env, loose)
  {
    var gs := IdealFields(fs, env, sc, loose);
    forall i | 0 <= i < |fs| ensures IdealParts(FieldParts(fs[i], sc), FieldParts(gs[i], sc), env, loose) {
      IdealFieldParts(fs[i], env, sc, loose);
    }
    IdealGathered(fs, gs, (f: Field) => FieldParts(f, sc), env, loose);
  }

  lemma IdealModelParts(m: Model, env: Arena, loose: bool)
    ensures IdealParts(ModelParts(m), ModelParts(IdealModel(m, env, loose)), env, loose)
  {
    var sc, r := ModelScope(m.name), IdealModel(m, env, loose);
    IdealFieldsParts(m.fields, env, sc, loose);
    IdealAnnotationsParts(m.annotations, env, sc, loose);
    assert IdealParts(FragmentParts(m.fragments), FragmentParts(m.fragments), env, loose);
    IdealJoin(FragmentParts(m.fragments), FragmentParts(m.fragments), AnnotationsParts(m.annotations, sc),
              AnnotationsParts(r.annotations, sc), env, loose);
    IdealJoin(FieldsParts(m.fields, sc), FieldsParts(r.fields, sc),
              Join(FragmentParts(m.fragments), AnnotationsParts(m.annotations, sc)),
              Join(FragmentParts(m.fragments), AnnotationsParts(r.annotations, sc)), env, loose);
  }

  lemma IdealCallableParts(c: Callable, env: Arena, loose: bool)
    ensures IdealParts(CallableParts(c), CallableParts(IdealCallable(c, env, loose)), env, loose)
  {
    var r := IdealCallable(c, env, loose);
    IdealFieldsParts(c.args, env, NO_SCOPE, loose);
    IdealAnnotationsParts(c.annotations, env, NO_SCOPE, loose);
    if c.result.Some? { SameTypeParts(c.result.value, env, loose); }
    IdealJoin(ResultParts(c.result), ResultParts(c.result), AnnotationsParts(c.annotations, NO_SCOPE),
              AnnotationsParts(r.annotations, NO_SCOPE), env, loose);
    IdealJoin(FieldsParts(c.args, NO_SCOPE), FieldsParts(r.args, NO_SCOPE),
              Join(ResultParts(c.result), AnnotationsParts(c.annotations, NO_SCOPE)),
              Join(ResultParts(c.result), AnnotationsParts(r.annotations, NO_SCOPE)), env, loose);
  }

  lemma IdealCallablesParts(cs: seq<Callable>, env: Arena, loose: bool)
    ensures IdealParts(CallablesParts(cs), CallablesParts(IdealCallables(cs, env, loose)), env, loose)
  {
    var ds := IdealCallables(cs, env, loose);
    forall i | 0 <= i < |cs| ensures IdealParts(CallableParts(cs[i]), CallableParts(ds[i]), env, loose) {
      IdealCallableParts(cs[i], env, loose);
    }
    IdealGathered(cs, ds, CallableParts, env, loose);
  }

  lemma IdealModuleParts(m: Module, env: Arena, loose: bool)
    ensures IdealParts(ModuleParts(m), ModuleParts(IdealModule(m, env, loose)), env, loose)
  {
    var r := IdealModule(m, env, loose);
    forall i | 0 <= i < |m.types| ensures IdealParts(ModelParts(m.types[i]), ModelParts(r.types[i]), env, loose) {
      IdealModelParts(m.types[i], env, loose);
    }
    IdealGathered(m.types, r.types, ModelParts, env, loose);
    IdealCallablesParts(m.methods, env, loose);
    IdealCallablesParts(m.interceptors, env, loose);
    IdealAnnotationsParts(m.annotations, env, NO_SCOPE, loose);
    IdealJoin(ModelsParts(m.types), ModelsParts(r.types), CallablesParts(m.methods), CallablesParts(r.methods), env,
              loose);
    IdealJoin(CallablesParts(m.interceptors), CallablesParts(r.interceptors), AnnotationsParts(m.annotations, NO_SCOPE),
              AnnotationsParts(r.annotations, NO_SCOPE), env, loose);
    IdealJoin(FrontParts(m.types, m.methods), FrontParts(r.types, r.methods), BackParts(m.interceptors, m.annotations),
              BackParts(r.interceptors, r.annotations), env, loose);
  }

  // ----- The shape is kept -----

  lemma SameMapped<T, U>(a: seq<T>, b: seq<T>, f: T -> U)
    requires |a| == |b| && forall i :: 0 <= i < |a| ==> f(a[i]) == f(b[i])
    ensures Map(a, f) == Map(b, f)
  {
  }

  lemma IdealAnnotationsShape(m: AnnotationMap, env: Arena, env0: Arena, sc: Scope, loose: bool)
    requires Settled(env, env0, sc) && SoundAnnotations(m, env0, sc)
    ensures ShallowAnnotations(IdealAnnotations(m, env0, sc, loose)) == ShallowAnnotations(m)
  {
    var r := IdealAnnotations(m, env0, sc, loose);
    forall i | 0 <= i < |m.annotations|
      ensures ShallowAnnotation(r.annotations[i]) == ShallowAnnotation(m.annotations[i])
    {
      var es := m.annotations[i].params;
      assert SoundAnnotation(m.annotations[i], env0, sc);
      forall j | 0 <= j < |es| ensures ShallowExpr(Ideal(es[j], env0, sc, loose)) == ShallowExpr(es[j]) {
        IdealSound(es[j], env, env0, sc, loose);
      }
      assert ShallowExprs(IdealParams(es, env0, sc, loose)) == ShallowExprs(es);
    }
    SameMapped(r.annotations, m.annotations, ShallowAnnotation);
  }

  lemma IdealFieldsShape(fs: seq<Field>, env: Arena, env0: Arena, sc: Scope, loose: bool)
    requires Settled(env, env0, sc) && forall i :: 0 <= i < |fs| ==> SoundField(fs[i], env0, sc)
    ensures Map(IdealFields(fs, env0, sc, loose), ShallowField) == Map(fs, ShallowField)
  {
    var gs := IdealFields(fs, env0, sc, loose);
    forall i | 0 <= i < |fs| ensures ShallowField(gs[i]) == ShallowField(fs[i]) {
      IdealAnnotationsShape(fs[i].annotations, env, env0, sc, loose);
      if fs[i].default.SelectionDefault? { IdealSelectionSound(fs[i].default.sel, env, env0, sc, loose); }
    }
    SameMapped(gs, fs, ShallowField);
  }

  lemma IdealModelShape(m: Model, env: Arena, env0: Arena, loose: bool)
    requires StateOf(env, env0) && EnvSettled(env) && SoundModel(m, env0)
    ensures ShallowModel(IdealModel(m, env0, loose)) == ShallowModel(m)
  {
    IdealFieldsShape(m.fields, env, env0, ModelScope(m.name), loose);
    IdealAnnotationsShape(m.annotations, env, env0, ModelScope(m.name), loose);
  }

  lemma IdealCallablesShape(cs: seq<Callable>, env: Arena, env0: Arena, loose: bool)
    requires StateOf(env, env0) && EnvSettled(env) && forall i :: 0 <= i < |cs| ==> SoundCallable(cs[i], env0)
    ensures Map(IdealCallables(cs, env0, loose), ShallowCallable) == Map(cs, ShallowCallable)
  {
    var ds := IdealCallables(cs, env0, loose);
    forall i | 0 <= i < |cs| ensures ShallowCallable(ds[i]) == ShallowCallable(cs[i]) {
      IdealFieldsShape(cs[i].args, env, env0, NO_SCOPE, loose);
      IdealAnnotationsShape(cs[i].annotations, env, env0, NO_SCOPE, loose);
    }
    SameMapped(ds, cs, ShallowCallable);
  }

  lemma IdealModuleShape(m: Module, env: Arena, env0: Arena, loose: bool)
    requires StateOf(env, env0) && EnvSettled(env) && SoundModule(m, env0)
    ensures ShallowModule(IdealModule(m, env0, loose)) == ShallowModule(m)
  {
    var r := IdealModule(m, env0, loose);
    forall i | 0 <= i < |m.types| ensures ShallowModel(r.types[i]) == ShallowModel(m.types[i]) {
      IdealModelShape(m.types[i], env, env0, loose);
    }
    SameMapped(r.types, m.types, ShallowModel);
    IdealCallablesShape(m.methods, env, env0, loose);
    IdealCallablesShape(m.interceptors, env, env0, loose);
    IdealAnnotationsShape(m.annotations, env, env0, NO_SCOPE, loose);
  }

  // ----- They are sound, and a pass leaves them alone -----

  lemma IdealSoundParts(p: Parts, q: Parts, env: Arena, env0: Arena, loose: bool)
    requires StateOf(env, env0) && EnvSettled(env) && IdealParts(p, q, env0, loose) && SoundParts(p, env0) &&
             ScopesOk(p, env0)
    ensures SoundParts(q, env0)
  {
    forall k | 0 <= k < |q.uses| ensures Sound(q.uses[k].expr, env0, q.uses[k].scope) {
      var u := p.uses[k];
      assert Sound(u.expr, env0, u.scope) && ScopeOk(u.scope, env0);
      IdealSound(u.expr, env, env0, u.scope, loose);
      assert q.uses[k] == IdealUse(u, env0, loose);
    }
    assert forall k :: 0 <= k < |q.types| ==> q.types[k] == p.types[k];
    assert forall k :: 0 <= k < |q.fragments| ==> q.fragments[k] == p.fragments[k];
  }

  /** In any settled state of the environment; types and fragments have nothing left to do. */
  lemma IdealQuietParts(p: Parts, q: Parts, env: Arena, env0: Arena, loose: bool)
    requires StateOf(env, env0) && EnvSettled(env) && IdealParts(p, q, env0, loose) && SoundParts(p, env0) &&
             ScopesOk(p, env0)
    requires forall k :: 0 <= k < |p.types| ==> !PassFieldType(p.types[k], env.ids).changed
    requires forall k :: 0 <= k < |p.fragments| ==> !PassFragment(p.fragments[k], env).changed
    ensures QuietParts(q, env)
  {
    forall k | 0 <= k < |q.uses| ensures UseQuiet(q.uses[k], env) {
      var u := p.uses[k];
      assert Sound(u.expr, env0, u.scope) && ScopeOk(u.scope, env0);
      IdealQuiet(u.expr, env, env0, u.scope, loose);
      assert q.uses[k] == IdealUse(u, env0, loose);
    }
    assert forall k :: 0 <= k < |q.types| ==> q.types[k] == p.types[k];
    assert forall k :: 0 <= k < |q.fragments| ==> q.fragments[k] == p.fragments[k];
  }
}
