/** States of one declaration have parts of the same shape, and its measure is that of its parts. */
module PartShapes {
  import opened Sums
  import opened Wrappers
  import opened Ast
  import opened Passes
  import opened ExprProgress
  import opened FieldTypeLemmas
  import opened Declarations
  import opened Parts
  import opened PartPasses

  // ----- Shape -----

  predicate UseShape(u: Use, v: Use) {
    && v.scope == u.scope && v.visited == u.visited && v.heard == u.heard
    && ShallowExpr(v.expr) == ShallowExpr(u.expr)
  }

  ghost predicate SameShape(p: Parts, q: Parts) {
    Alike(p, q, UseShape, (t: FieldType, v: FieldType) => ShallowFieldType(v) == ShallowFieldType(t),
          (f: Fragment, g: Fragment) => g.name == f.name)
  }

  lemma ShapeJoin(p: Parts, q: Parts, p': Parts, q': Parts)
    requires SameShape(p, q) && SameShape(p', q')
    ensures SameShape(Join(p, p'), Join(q, q'))
  {
  }

  lemma ShapeGathered<T>(xs: seq<T>, ys: seq<T>, f: T -> Parts)
    requires |xs| == |ys| && forall i :: 0 <= i < |xs| ==> SameShape(f(xs[i]), f(ys[i]))
    ensures SameShape(Gathered(xs, f), Gathered(ys, f))
  {
    AlikeGathered(xs, ys, f, UseShape, (t: FieldType, v: FieldType) => ShallowFieldType(v) == ShallowFieldType(t),
                  (f: Fragment, g: Fragment) => g.name == f.name);
  }

  lemma ShapeParams(a: seq<Expr>, b: seq<Expr>, sc: Scope, visited: bool, heard: bool)
    requires ShallowExprs(a) == ShallowExprs(b)
    ensures SameShape(ParamParts(a, sc, visited, heard), ParamParts(b, sc, visited, heard))
  {
    assert |a| == |ShallowExprs(a)| == |b|;
    forall j | 0 <= j < |a| ensures ShallowExpr(a[j]) == ShallowExpr(b[j]) {
      assert ShallowExpr(a[j]) == ShallowExprs(a)[j] == ShallowExpr(b[j]);
    }
  }

  lemma SameMap<T, U>(a: seq<T>, b: seq<T>, f: T -> U)
    requires Map(a, f) == Map(b, f)
    ensures |a| == |b| && forall i :: 0 <= i < |a| ==> f(a[i]) == f(b[i])
  {
    assert |a| == |Map(a, f)| == |b|;
    forall i | 0 <= i < |a| ensures f(a[i]) == f(b[i]) { assert Map(a, f)[i] == Map(b, f)[i]; }
  }

  lemma ShapeAnnotationList(a: seq<Annotation>, b: seq<Annotation>, sc: Scope, visited: bool, heard: bool)
    requires |a| == |b| && forall i :: 0 <= i < |a| ==> ShallowAnnotation(a[i]) == ShallowAnnotation(b[i])
    ensures SameShape(AnnotationListParts(a, sc, visited, heard), AnnotationListParts(b, sc, visited, heard))
  {
    var f := (x: Annotation) => AnnotationParts(x, sc, visited, heard);
    forall i | 0 <= i < |a| ensures SameShape(f(a[i]), f(b[i])) {
      ShapeParams(a[i].params, b[i].params, sc, visited, heard);
    }
    ShapeGathered(a, b, f);
  }

  lemma ShapeAnnotations(a: AnnotationMap, b: AnnotationMap, sc: Scope)
    requires ShallowAnnotations(a) == ShallowAnnotations(b)
    ensures SameShape(AnnotationsParts(a, sc), AnnotationsParts(b, sc))
  {
    SameMap(a.annotations, b.annotations, ShallowAnnotation);
    forall i | 0 <= i < |a.annotations| ensures a.annotations[i].declared == b.annotations[i].declared {
      assert ShallowAnnotation(a.annotations[i]) == ShallowAnnotation(b.annotations[i]);
    }
    SameFirstUndeclared(a.annotations, b.annotations);
    var k := FirstUndeclared(a.annotations);
    ShapeAnnotationList(a.annotations[..k], b.annotations[..k], sc, true, k == |a.annotations|);
    ShapeAnnotationList(a.annotations[k..], b.annotations[k..], sc, false, false);
    ShapeJoin(AnnotationListParts(a.annotations[..k], sc, true, k == |a.annotations|),
              AnnotationListParts(b.annotations[..k], sc, true, k == |a.annotations|),
              AnnotationListParts(a.annotations[k..], sc, false, false),
              AnnotationListParts(b.annotations[k..], sc, false, false));
  }

  lemma ShapeType(a: FieldType, b: FieldType)
    requires ShallowFieldType(a) == ShallowFieldType(b)
    ensures SameShape(TypeParts(a), TypeParts(b))
  {
  }

  lemma ShapeDefault(a: Default, b: Default, sc: Scope)
    requires ShallowDefault(a) == ShallowDefault(b)
    ensures SameShape(DefaultParts(a, sc), DefaultParts(b, sc))
  {
  }

  lemma ShapeField(a: Field, b: Field, sc: Scope)
    requires ShallowField(a) == ShallowField(b)
    ensures SameShape(FieldParts(a, sc), FieldParts(b, sc))
  {
    ShapeAnnotations(a.annotations, b.annotations, sc);
    ShapeDefault(a.default, b.default, sc);
    ShapeType(a.typ, b.typ);
    ShapeJoin(AnnotationsParts(a.annotations, sc), AnnotationsParts(b.annotations, sc), DefaultParts(a.default, sc),
              DefaultParts(b.default, sc));
    ShapeJoin(TypeParts(a.typ), TypeParts(b.typ),
              Join(AnnotationsParts(a.annotations, sc), DefaultParts(a.default, sc)),
              Join(AnnotationsParts(b.annotations, sc), DefaultParts(b.default, sc)));
  }

  lemma ShapeFields(a: seq<Field>, b: seq<Field>, sc: Scope)
    requires Map(a, ShallowField) == Map(b, ShallowField)
    ensures SameShape(FieldsParts(a, sc), FieldsParts(b, sc))
  {
    SameMap(a, b, ShallowField);
    forall i | 0 <= i < |a| ensures SameShape(FieldParts(a[i], sc), FieldParts(b[i], sc)) {
      ShapeField(a[i], b[i], sc);
    }
    ShapeGathered(a, b, (f: Field) => FieldParts(f, sc));
  }

  lemma ShapeModel(a: Model, b: Model)
    requires ShallowModel(a) == ShallowModel(b)
    ensures SameShape(ModelParts(a), ModelParts(b))
  {
    var sc := ModelScope(a.name);
    ShapeFields(a.fields, b.fields, sc);
    ShapeAnnotations(a.annotations, b.annotations, sc);
    SameMap(a.fragments, b.fragments, ShallowFragment);
    ShapeFragments(a.fragments, b.fragments);
    ShapeJoin(FragmentParts(a.fragments), FragmentParts(b.fragments), AnnotationsParts(a.annotations, sc),
              AnnotationsParts(b.annotations, sc));
    ShapeJoin(FieldsParts(a.fields, sc), FieldsParts(b.fields, sc),
              Join(FragmentParts(a.fragments), AnnotationsParts(a.annotations, sc)),
              Join(FragmentParts(b.fragments), AnnotationsParts(b.annotations, sc)));
  }

  lemma ShapeFragments(a: seq<Fragment>, b: seq<Fragment>)
    requires |a| == |b| && forall i :: 0 <= i < |a| ==> ShallowFragment(a[i]) == ShallowFragment(b[i])
    ensures SameShape(FragmentParts(a), FragmentParts(b))
  {
    forall i | 0 <= i < |a| ensures a[i].name == b[i].name { assert ShallowFragment(a[i]) == ShallowFragment(b[i]); }
  }

  lemma ShapeCallable(a: Callable, b: Callable)
    requires ShallowCallable(a) == ShallowCallable(b)
    ensures SameShape(CallableParts(a), CallableParts(b))
  {
    ShapeFields(a.args, b.args, NO_SCOPE);
    ShapeAnnotations(a.annotations, b.annotations, NO_SCOPE);
    ShapeResult(a.result, b.result);
    ShapeJoin(ResultParts(a.result), ResultParts(b.result), AnnotationsParts(a.annotations, NO_SCOPE),
              AnnotationsParts(b.annotations, NO_SCOPE));
    ShapeJoin(FieldsParts(a.args, NO_SCOPE), FieldsParts(b.args, NO_SCOPE),
              Join(ResultParts(a.result), AnnotationsParts(a.annotations, NO_SCOPE)),
              Join(ResultParts(b.result), AnnotationsParts(b.annotations, NO_SCOPE)));
  }

  lemma ShapeResult(a: Option<FieldType>, b: Option<FieldType>)
    requires ShallowResult(a) == ShallowResult(b)
    ensures SameShape(ResultParts(a), ResultParts(b))
  {
  }

  lemma ShapeCallables(a: seq<Callable>, b: seq<Callable>)
    requires Map(a, ShallowCallable) == Map(b, ShallowCallable)
    ensures SameShape(CallablesParts(a), CallablesParts(b))
  {
    SameMap(a, b, ShallowCallable);
    forall i | 0 <= i < |a| ensures SameShape(CallableParts(a[i]), CallableParts(b[i])) { ShapeCallable(a[i], b[i]); }
    ShapeGathered(a, b, CallableParts);
  }

  lemma ShapeModule(a: Module, b: Module)
    requires ShallowModule(a) == ShallowModule(b)
    ensures SameShape(ModuleParts(a), ModuleParts(b))
  {
    ShapeModels(a.types, b.types);
    ShapeCallables(a.methods, b.methods);
    ShapeCallables(a.interceptors, b.interceptors);
    ShapeAnnotations(a.annotations, b.annotations, NO_SCOPE);
    ShapeJoin(ModelsParts(a.types), ModelsParts(b.types), CallablesParts(a.methods), CallablesParts(b.methods));
    ShapeJoin(CallablesParts(a.interceptors), CallablesParts(b.interceptors), AnnotationsParts(a.annotations, NO_SCOPE),
              AnnotationsParts(b.annotations, NO_SCOPE));
    ShapeJoin(FrontParts(a.types, a.methods), FrontParts(b.types, b.methods), BackParts(a.interceptors, a.annotations),
              BackParts(b.interceptors, b.annotations));
  }

  lemma ShapeModels(a: seq<Model>, b: seq<Model>)
    requires Map(a, ShallowModel) == Map(b, ShallowModel)
    ensures SameShape(ModelsParts(a), ModelsParts(b))
  {
    SameMap(a, b, ShallowModel);
    forall i | 0 <= i < |a| ensures SameShape(ModelParts(a[i]), ModelParts(b[i])) { ShapeModel(a[i], b[i]); }
    ShapeGathered(a, b, ModelParts);
  }

  // ----- The measure -----

  function CountUse(u: Use): nat {
    CountExpr(u.expr)
  }

  function CountParts(p: Parts): nat {
    Sum(p.uses, CountUse) + Sum(p.types, CountFlags) + Sum(p.fragments, CountFragment)
  }

  lemma CountJoin(p: Parts, q: Parts)
    ensures CountParts(Join(p, q)) == CountParts(p) + CountParts(q)
  {
    SumConcat(p.uses, q.uses, CountUse);
    SumConcat(p.types, q.types, CountFlags);
    SumConcat(p.fragments, q.fragments, CountFragment);
  }

  lemma {:induction false} CountGathered<T>(xs: seq<T>, f: T -> Parts, count: T -> nat)
    requires forall i :: 0 <= i < |xs| ==> CountParts(f(xs[i])) == count(xs[i])
    ensures CountParts(Gathered(xs, f)) == Sum(xs, count)
  {
    if xs != [] {
      assert forall i :: 0 <= i < |xs[1..]| ==> xs[1..][i] == xs[i + 1];
      CountGathered(xs[1..], f, count);
      CountJoin(f(xs[0]), Gathered(xs[1..], f));
    }
  }

  lemma {:induction false} CountParams(es: seq<Expr>, sc: Scope, visited: bool, heard: bool)
    ensures Sum(ParamParts(es, sc, visited, heard).uses, CountUse) == Sum(es, CountExpr)
  {
    if es != [] {
      CountParams(es[1..], sc, visited, heard);
      assert ParamParts(es, sc, visited, heard).uses[1..] == ParamParts(es[1..], sc, visited, heard).uses;
    }
  }

  lemma CountAnnotationList(as_: seq<Annotation>, sc: Scope, visited: bool, heard: bool)
    ensures CountParts(AnnotationListParts(as_, sc, visited, heard)) == Sum(as_, CountAnnotation)
  {
    var f := (a: Annotation) => AnnotationParts(a, sc, visited, heard);
    forall i | 0 <= i < |as_| ensures CountParts(f(as_[i])) == CountAnnotation(as_[i]) {
      CountParams(as_[i].params, sc, visited, heard);
    }
    CountGathered(as_, f, CountAnnotation);
  }

  lemma {:induction false} CountAnnotationsParts(m: AnnotationMap, sc: Scope)
    ensures CountParts(AnnotationsParts(m, sc)) == CountAnnotations(m)
  {
    var k := FirstUndeclared(m.annotations);
    var front, back, heard := m.annotations[..k], m.annotations[k..], k == |m.annotations|;
    CountAnnotationList(front, sc, true, heard);
    CountAnnotationList(back, sc, false, false);
    CountJoin(AnnotationListParts(front, sc, true, heard), AnnotationListParts(back, sc, false, false));
    SumSplit(m.annotations, k, CountAnnotation);
  }

  lemma CountFieldParts(f: Field, sc: Scope)
    ensures CountParts(FieldParts(f, sc)) == CountField(f)
  {
    CountAnnotationsParts(f.annotations, sc);
    CountJoin(AnnotationsParts(f.annotations, sc), DefaultParts(f.default, sc));
    CountJoin(TypeParts(f.typ), Join(AnnotationsParts(f.annotations, sc), DefaultParts(f.default, sc)));
    CountDefaultParts(f.default, sc);
    CountTypeParts(f.typ);
  }

  lemma CountDefaultParts(d: Default, sc: Scope)
    ensures CountParts(DefaultParts(d, sc)) == CountDefault(d)
  {
    if d.SelectionDefault? { SumOne(Use(Select(d.sel), sc, true, true), CountUse); }
  }

  lemma CountTypeParts(ft: FieldType)
    ensures CountParts(TypeParts(ft)) == CountFlags(ft)
  {
    SumOne(ft, CountFlags);
  }

  lemma CountFieldsParts(fs: seq<Field>, sc: Scope)
    ensures CountParts(FieldsParts(fs, sc)) == Sum(fs, CountField)
  {
    forall i | 0 <= i < |fs| ensures CountParts(FieldParts(fs[i], sc)) == CountField(fs[i]) {
      CountFieldParts(fs[i], sc);
    }
    CountGathered(fs, (f: Field) => FieldParts(f, sc), CountField);
  }

  lemma CountModelParts(m: Model)
    ensures CountParts(ModelParts(m)) == CountModel(m)
  {
    var sc, p := ModelScope(m.name), FragmentParts(m.fragments);
    CountFieldsParts(m.fields, sc);
    CountAnnotationsParts(m.annotations, sc);
    CountJoin(p, AnnotationsParts(m.annotations, sc));
    CountJoin(FieldsParts(m.fields, sc), Join(p, AnnotationsParts(m.annotations, sc)));
  }

  lemma CountCallableParts(c: Callable)
    ensures CountParts(CallableParts(c)) == CountCallable(c)
  {
    CountFieldsParts(c.args, NO_SCOPE);
    CountAnnotationsParts(c.annotations, NO_SCOPE);
    CountJoin(ResultParts(c.result), AnnotationsParts(c.annotations, NO_SCOPE));
    CountJoin(FieldsParts(c.args, NO_SCOPE), Join(ResultParts(c.result), AnnotationsParts(c.annotations, NO_SCOPE)));
    if c.result.Some? { CountTypeParts(c.result.value); }
  }

  lemma CountCallablesParts(cs: seq<Callable>)
    ensures CountParts(CallablesParts(cs)) == Sum(cs, CountCallable)
  {
    forall i | 0 <= i < |cs| ensures CountParts(CallableParts(cs[i])) == CountCallable(cs[i]) {
      CountCallableParts(cs[i]);
    }
    CountGathered(cs, CallableParts, CountCallable);
  }

  lemma CountModuleParts(m: Module)
    ensures CountParts(ModuleParts(m)) == CountModule(m)
  {
    forall i | 0 <= i < |m.types| ensures CountParts(ModelParts(m.types[i])) == CountModel(m.types[i]) {
      CountModelParts(m.types[i]);
    }
    CountGathered(m.types, ModelParts, CountModel);
    CountCallablesParts(m.methods);
    CountCallablesParts(m.interceptors);
    CountAnnotationsParts(m.annotations, NO_SCOPE);
    CountJoin(ModelsParts(m.types), CallablesParts(m.methods));
    CountJoin(CallablesParts(m.interceptors), AnnotationsParts(m.annotations, NO_SCOPE));
    CountJoin(FrontParts(m.types, m.methods), BackParts(m.interceptors, m.annotations));
  }
}
