/** A pass over a declaration, part by part. */
module PartPasses {
  import opened Wrappers
  import opened Ast
  import opened Passes
  import opened Parts

  // ----- One part -----

  function PassedUse(u: Use, env: Arena): Use {
    if u.visited then Use(PassExpr(u.expr, env, u.scope).node, u.scope, u.visited, u.heard) else u
  }

  predicate UseQuiet(u: Use, env: Arena) {
    u.heard ==> !PassExpr(u.expr, env, u.scope).changed
  }

  predicate UseClean(u: Use, env: Arena) {
    u.visited ==> PassExpr(u.expr, env, u.scope).errors == []
  }

  // ----- All parts -----

  /** `q` are the parts `p` after the pass. */
  ghost predicate PassedParts(p: Parts, q: Parts, env: Arena) {
    Alike(p, q, (u: Use, v: Use) => v == PassedUse(u, env),
          (t: FieldType, v: FieldType) => v == PassFieldType(t, env.ids).node,
          (f: Fragment, g: Fragment) => g == PassFragment(f, env).node)
  }

  /** No part makes the pass report a change. */
  ghost predicate QuietParts(p: Parts, env: Arena) {
    Every(p, (u: Use) => UseQuiet(u, env), (t: FieldType) => !PassFieldType(t, env.ids).changed,
          (f: Fragment) => !PassFragment(f, env).changed)
  }

  /** No part draws a diagnostic. */
  ghost predicate CleanParts(p: Parts, env: Arena) {
    Every(p, (u: Use) => UseClean(u, env), (t: FieldType) => PassFieldType(t, env.ids).errors == [],
          (f: Fragment) => true)
  }

  lemma PassedJoin(p: Parts, q: Parts, p': Parts, q': Parts, env: Arena)
    requires PassedParts(p, q, env) && PassedParts(p', q', env)
    ensures PassedParts(Join(p, p'), Join(q, q'), env)
  {
  }

  lemma PassedGathered<T>(xs: seq<T>, ys: seq<T>, f: T -> Parts, env: Arena)
    requires |xs| == |ys| && forall i :: 0 <= i < |xs| ==> PassedParts(f(xs[i]), f(ys[i]), env)
    ensures PassedParts(Gathered(xs, f), Gathered(ys, f), env)
  {
    AlikeGathered(xs, ys, f, (u: Use, v: Use) => v == PassedUse(u, env),
                  (t: FieldType, v: FieldType) => v == PassFieldType(t, env.ids).node,
                  (f: Fragment, g: Fragment) => g == PassFragment(f, env).node);
  }

  lemma QuietJoin(p: Parts, q: Parts, env: Arena)
    ensures QuietParts(Join(p, q), env) <==> QuietParts(p, env) && QuietParts(q, env)
  {
    EveryJoin(p, q, (u: Use) => UseQuiet(u, env), (t: FieldType) => !PassFieldType(t, env.ids).changed,
              (f: Fragment) => !PassFragment(f, env).changed);
  }

  lemma QuietGathered<T>(xs: seq<T>, f: T -> Parts, env: Arena)
    ensures QuietParts(Gathered(xs, f), env) <==> forall i :: 0 <= i < |xs| ==> QuietParts(f(xs[i]), env)
  {
    EveryGathered(xs, f, (u: Use) => UseQuiet(u, env), (t: FieldType) => !PassFieldType(t, env.ids).changed,
                  (f: Fragment) => !PassFragment(f, env).changed);
  }

  lemma CleanJoin(p: Parts, q: Parts, env: Arena)
    ensures CleanParts(Join(p, q), env) <==> CleanParts(p, env) && CleanParts(q, env)
  {
    EveryJoin(p, q, (u: Use) => UseClean(u, env), (t: FieldType) => PassFieldType(t, env.ids).errors == [],
              (f: Fragment) => true);
  }

  lemma CleanGathered<T>(xs: seq<T>, f: T -> Parts, env: Arena)
    ensures CleanParts(Gathered(xs, f), env) <==> forall i :: 0 <= i < |xs| ==> CleanParts(f(xs[i]), env)
  {
    EveryGathered(xs, f, (u: Use) => UseClean(u, env), (t: FieldType) => PassFieldType(t, env.ids).errors == [],
                  (f: Fragment) => true);
  }

  /** What a pass is, seen from the parts.  `own` says that the declaration draws no diagnostic of its own. */
  ghost predicate Digest(p: Parts, q: Parts, changed: bool, silent: bool, own: bool, env: Arena) {
    PassedParts(p, q, env) && (!changed <==> QuietParts(p, env)) && (silent <==> own && CleanParts(p, env))
  }

  lemma DigestJoin(p: Parts, q: Parts, p': Parts, q': Parts, c: bool, c': bool, s: bool, s': bool, o: bool, o': bool,
                   env: Arena)
    requires Digest(p, q, c, s, o, env) && Digest(p', q', c', s', o', env)
    ensures Digest(Join(p, p'), Join(q, q'), c || c', s && s', o && o', env)
  {
    PassedJoin(p, q, p', q', env);
    QuietJoin(p, p', env);
    CleanJoin(p, p', env);
  }

  lemma DigestNone(env: Arena)
    ensures Digest(NO_PARTS, NO_PARTS, false, true, true, env)
  {
  }

  predicate OwnSilence<T>(xs: seq<T>, own: T -> bool) {
    forall i :: 0 <= i < |xs| ==> own(xs[i])
  }

  /** A list passed item by item. */
  lemma DigestEach<T>(xs: seq<T>, pass: T -> Outcome<T>, f: T -> Parts, own: T -> bool, env: Arena)
    requires forall i :: 0 <= i < |xs| ==>
               Digest(f(xs[i]), f(pass(xs[i]).node), pass(xs[i]).changed, pass(xs[i]).errors == [], own(xs[i]), env)
    ensures var r := PassEach(xs, pass);
            Digest(Gathered(xs, f), Gathered(r.node, f), r.changed, r.errors == [], OwnSilence(xs, own), env)
  {
    var r := PassEach(xs, pass);
    PassEachFacts(xs, pass);
    PassedGathered(xs, r.node, f, env);
    QuietGathered(xs, f, env);
    CleanGathered(xs, f, env);
  }

  // ----- Annotations -----

  predicate OwnAnnotation(a: Annotation) {
    !a.misused
  }

  /** All declared, used properly, and none twice. */
  predicate OwnAnnotations(m: AnnotationMap) {
    m.duplicates == [] && forall i :: 0 <= i < |m.annotations| ==>
                            m.annotations[i].declared && !m.annotations[i].misused
  }

  lemma DigestAnnotation(a: Annotation, env: Arena, sc: Scope, heard: bool)
    ensures var r := PassAnnotation(a, env, sc);
            Digest(AnnotationParts(a, sc, true, heard), AnnotationParts(r.node, sc, true, heard), heard && r.changed,
                   r.errors == [], OwnAnnotation(a), env)
  {
    DigestParams(a.params, env, sc, heard);
  }

  lemma DigestParams(es: seq<Expr>, env: Arena, sc: Scope, heard: bool)
    ensures var r := PassEach(es, (e: Expr) => PassExpr(e, env, sc));
            Digest(ParamParts(es, sc, true, heard), ParamParts(r.node, sc, true, heard), heard && r.changed,
                   r.errors == [], true, env)
  {
    PassEachFacts(es, (e: Expr) => PassExpr(e, env, sc));
    var p := ParamParts(es, sc, true, heard);
    assert forall i :: 0 <= i < |es| ==> p.uses[i] == Use(es[i], sc, true, heard);
    if CleanParts(p, env) {
      forall i | 0 <= i < |es| ensures PassExpr(es[i], env, sc).errors == [] { assert UseClean(p.uses[i], env); }
    }
    if heard && QuietParts(p, env) {
      forall i | 0 <= i < |es| ensures !PassExpr(es[i], env, sc).changed { assert UseQuiet(p.uses[i], env); }
    }
  }

  lemma DigestUntouched(p: Parts, env: Arena)
    requires p.types == [] && p.fragments == [] &&
             forall k :: 0 <= k < |p.uses| ==> !p.uses[k].visited && !p.uses[k].heard
    ensures Digest(p, p, false, true, true, env)
  {
    forall k | 0 <= k < |p.uses| ensures p.uses[k] == PassedUse(p.uses[k], env) {}
  }

  /** Annotations behind an undeclared one are not touched. */
  lemma DigestUnvisited(as_: seq<Annotation>, env: Arena, sc: Scope)
    ensures var p := AnnotationListParts(as_, sc, false, false); Digest(p, p, false, true, true, env)
  {
    var f := (a: Annotation) => AnnotationParts(a, sc, false, false);
    forall i | 0 <= i < |as_| ensures Digest(f(as_[i]), f(as_[i]), false, true, true, env) {
      DigestUntouched(f(as_[i]), env);
    }
    PassedGathered(as_, as_, f, env);
    QuietGathered(as_, f, env);
    CleanGathered(as_, f, env);
  }

  lemma {:induction false} SameFirstUndeclared(a: seq<Annotation>, b: seq<Annotation>)
    requires |a| == |b| && forall i :: 0 <= i < |a| ==> a[i].declared == b[i].declared
    ensures FirstUndeclared(a) == FirstUndeclared(b)
  {
    if a != [] && a[0].declared {
      assert forall i :: 0 <= i < |a[1..]| ==> a[1..][i].declared == a[i + 1].declared == b[1..][i].declared;
      SameFirstUndeclared(a[1..], b[1..]);
    }
  }

  lemma DigestVisited(as_: seq<Annotation>, env: Arena, sc: Scope, heard: bool)
    ensures var r := PassEach(as_, (a: Annotation) => PassAnnotation(a, env, sc));
            Digest(AnnotationListParts(as_, sc, true, heard), AnnotationListParts(r.node, sc, true, heard),
                   heard && r.changed, r.errors == [], OwnSilence(as_, OwnAnnotation), env)
  {
    var pass := (a: Annotation) => PassAnnotation(a, env, sc);
    var f := (a: Annotation) => AnnotationParts(a, sc, true, heard);
    forall i | 0 <= i < |as_|
      ensures Digest(f(as_[i]), f(pass(as_[i]).node), heard && pass(as_[i]).changed, pass(as_[i]).errors == [],
                     OwnAnnotation(as_[i]), env)
    {
      DigestAnnotation(as_[i], env, sc, heard);
    }
    if heard {
      DigestEach(as_, pass, f, OwnAnnotation, env);
    } else {
      UnheardEach(as_, pass, f, env);
    }
  }

  /** Without being heard, nothing makes the pass report a change. */
  lemma UnheardEach(as_: seq<Annotation>, pass: Annotation -> Outcome<Annotation>, f: Annotation -> Parts, env: Arena)
    requires forall i :: 0 <= i < |as_| ==>
               Digest(f(as_[i]), f(pass(as_[i]).node), false, pass(as_[i]).errors == [], OwnAnnotation(as_[i]), env)
    ensures var r := PassEach(as_, pass);
            Digest(Gathered(as_, f), Gathered(r.node, f), false, r.errors == [], OwnSilence(as_, OwnAnnotation), env)
  {
    PassEachFacts(as_, pass);
    PassedGathered(as_, PassEach(as_, pass).node, f, env);
    QuietGathered(as_, f, env);
    CleanGathered(as_, f, env);
  }

  lemma DigestAnnotations(m: AnnotationMap, env: Arena, sc: Scope)
    ensures var r := PassAnnotations(m, env, sc);
            Digest(AnnotationsParts(m, sc), AnnotationsParts(r.node, sc), r.changed, r.errors == [], OwnAnnotations(m),
                   env)
  {
    var k := FirstUndeclared(m.annotations);
    var heard := k == |m.annotations|;
    var front, back := m.annotations[..k], m.annotations[k..];
    var r := PassAnnotations(m, env, sc);
    DigestVisited(front, env, sc, heard);
    DigestUnvisited(back, env, sc);
    var e := PassEach(front, (a: Annotation) => PassAnnotation(a, env, sc));
    DigestJoin(AnnotationListParts(front, sc, true, heard), AnnotationListParts(e.node, sc, true, heard),
               AnnotationListParts(back, sc, false, false), AnnotationListParts(back, sc, false, false),
               heard && e.changed, false, e.errors == [], true, OwnSilence(front, OwnAnnotation), true, env);
    PassedAnnotations(m, env, sc);
    AnnotationsOutcome(m, env, sc);
  }

  lemma AnnotationsOutcome(m: AnnotationMap, env: Arena, sc: Scope)
    ensures var k := FirstUndeclared(m.annotations);
            var r := PassAnnotations(m, env, sc);
            var e := PassEach(m.annotations[..k], (a: Annotation) => PassAnnotation(a, env, sc));
            && (r.changed <==> k == |m.annotations| && e.changed)
            && (r.errors == [] && OwnAnnotations(m) <==> e.errors == [] && OwnAnnotations(m))
            && (r.errors == [] || OwnAnnotations(m) ==> k == |m.annotations| && m.duplicates == [])
            && (OwnAnnotations(m) <==>
                k == |m.annotations| && m.duplicates == [] && OwnSilence(m.annotations[..k], OwnAnnotation))
  {
    var k := FirstUndeclared(m.annotations);
    if k == |m.annotations| { assert m.annotations[..k] == m.annotations; }
    if OwnAnnotations(m) { assert k == |m.annotations|; }
  }

  lemma PassedAnnotations(m: AnnotationMap, env: Arena, sc: Scope)
    ensures var k := FirstUndeclared(m.annotations);
            AnnotationsParts(PassAnnotations(m, env, sc).node, sc) ==
            Join(AnnotationListParts(PassEach(m.annotations[..k], (a: Annotation) => PassAnnotation(a, env, sc)).node,
                                     sc, true, k == |m.annotations|),
                 AnnotationListParts(m.annotations[k..], sc, false, false))
  {
    var k := FirstUndeclared(m.annotations);
    var node := PassEach(m.annotations[..k], (a: Annotation) => PassAnnotation(a, env, sc)).node;
    var r := PassAnnotations(m, env, sc).node;
    DeclaredKept(m, env, sc);
    assert r.annotations[..k] == node && r.annotations[k..] == m.annotations[k..];
  }

  /** A pass leaves the position of the first undeclared annotation alone. */
  lemma DeclaredKept(m: AnnotationMap, env: Arena, sc: Scope)
    ensures var r := PassAnnotations(m, env, sc);
            |r.node.annotations| == |m.annotations| &&
            FirstUndeclared(r.node.annotations) == FirstUndeclared(m.annotations)
  {
    var k := FirstUndeclared(m.annotations);
    var r := PassAnnotations(m, env, sc);
    PassEachFacts(m.annotations[..k], (a: Annotation) => PassAnnotation(a, env, sc));
    forall i | 0 <= i < |m.annotations| ensures r.node.annotations[i].declared == m.annotations[i].declared {
      if i < k { assert m.annotations[..k][i] == m.annotations[i]; }
    }
    SameFirstUndeclared(m.annotations, r.node.annotations);
  }

  // ----- Fields, models, methods, modules -----

  predicate OwnDefault(d: Default) {
    d.LiteralDefault? ==> !d.wrongType
  }

  predicate OwnField(f: Field) {
    OwnAnnotations(f.annotations) && OwnDefault(f.default)
  }

  lemma DigestField(f: Field, env: Arena, sc: Scope)
    ensures var r := PassField(f, env, sc);
            Digest(FieldParts(f, sc), FieldParts(r.node, sc), r.changed, r.errors == [], OwnField(f), env)
  {
    var rt, ra, rd :=
      PassFieldType(f.typ, env.ids), PassAnnotations(f.annotations, env, sc), PassDefault(f.default, f.name, env, sc);
    DigestType(f.typ, env);
    DigestAnnotations(f.annotations, env, sc);
    DigestDefault(f.default, f.name, env, sc);
    DigestJoin(AnnotationsParts(f.annotations, sc), AnnotationsParts(ra.node, sc), DefaultParts(f.default, sc),
               DefaultParts(rd.node, sc),
               ra.changed, rd.changed, ra.errors == [], rd.errors == [], OwnAnnotations(f.annotations),
               OwnDefault(f.default), env);
    DigestJoin(TypeParts(f.typ), TypeParts(rt.node),
               Join(AnnotationsParts(f.annotations, sc), DefaultParts(f.default, sc)),
               Join(AnnotationsParts(ra.node, sc), DefaultParts(rd.node, sc)),
               rt.changed, ra.changed || rd.changed, rt.errors == [], ra.errors == [] && rd.errors == [], true,
               OwnField(f), env);
  }

  lemma {:induction false} DigestType(ft: FieldType, env: Arena)
    ensures var r := PassFieldType(ft, env.ids);
            Digest(TypeParts(ft), TypeParts(r.node), r.changed, r.errors == [], true, env)
  {
    EveryType(ft, (u: Use) => UseQuiet(u, env), (t: FieldType) => !PassFieldType(t, env.ids).changed,
              (f: Fragment) => !PassFragment(f, env).changed);
    EveryType(ft, (u: Use) => UseClean(u, env), (t: FieldType) => PassFieldType(t, env.ids).errors == [],
              (f: Fragment) => true);
    AlikeType(ft, PassFieldType(ft, env.ids).node, (u: Use, v: Use) => v == PassedUse(u, env),
              (t: FieldType, v: FieldType) => v == PassFieldType(t, env.ids).node,
              (f: Fragment, g: Fragment) => g == PassFragment(f, env).node);
  }

  lemma DigestDefault(d: Default, name: string, env: Arena, sc: Scope)
    ensures var r := PassDefault(d, name, env, sc);
            Digest(DefaultParts(d, sc), DefaultParts(r.node, sc), r.changed, r.errors == [], OwnDefault(d), env)
  {
    if d.SelectionDefault? {
      var u := Use(Select(d.sel), sc, true, true);
      assert DefaultParts(d, sc).uses[0] == u;
      assert PassExpr(u.expr, env, sc) == var s := PassSelection(d.sel, env, sc);
             Outcome(Select(s.node), s.changed, s.errors);
    }
  }

  lemma DigestFields(fs: seq<Field>, env: Arena, sc: Scope)
    ensures var r := PassEach(fs, (f: Field) => PassField(f, env, sc));
            Digest(FieldsParts(fs, sc), FieldsParts(r.node, sc), r.changed, r.errors == [], OwnSilence(fs, OwnField),
                   env)
  {
    var pass, f := (f: Field) => PassField(f, env, sc), (f: Field) => FieldParts(f, sc);
    forall i | 0 <= i < |fs|
      ensures Digest(f(fs[i]), f(pass(fs[i]).node), pass(fs[i]).changed, pass(fs[i]).errors == [], OwnField(fs[i]), env)
    {
      DigestField(fs[i], env, sc);
    }
    DigestEach(fs, pass, f, OwnField, env);
  }

  lemma DigestFragments(fs: seq<Fragment>, env: Arena)
    ensures var r := PassEach(fs, (f: Fragment) => PassFragment(f, env));
            Digest(FragmentParts(fs), FragmentParts(r.node), r.changed, r.errors == [], true, env)
  {
    PassEachFacts(fs, (f: Fragment) => PassFragment(f, env));
    var p := FragmentParts(fs);
    assert forall i :: 0 <= i < |fs| ==> p.fragments[i] == fs[i];
  }

  // ----- Models -----

  /** A context's fields have no defaults. */
  predicate OwnContext(kind: ModelKind, fs: seq<Field>) {
    kind.ContextKind? ==> forall i :: 0 <= i < |fs| ==> fs[i].default.NoDefault?
  }

  predicate OwnModel(m: Model) {
    OwnSilence(m.fields, OwnField) && OwnContext(m.kind, m.fields) && OwnAnnotations(m.annotations)
  }

  lemma {:induction false} ContextErrors(kind: ModelKind, fs: seq<Field>)
    ensures ContextDefaultErrors(kind, fs) == [] <==> OwnContext(kind, fs)
  {
    if fs != [] && kind.ContextKind? {
      ContextErrors(kind, fs[1..]);
      assert forall i :: 0 < i < |fs| ==> fs[i] == fs[1..][i - 1];
      if OwnContext(kind, fs) {
        forall i | 0 <= i < |fs[1..]| ensures fs[1..][i].default.NoDefault? { assert fs[1..][i] == fs[i + 1]; }
      }
    }
  }

  lemma SameContext(kind: ModelKind, fs: seq<Field>, env: Arena, sc: Scope)
    ensures ContextDefaultErrors(kind, PassEach(fs, (f: Field) => PassField(f, env, sc)).node) == [] <==>
            OwnContext(kind, fs)
  {
    var gs := PassEach(fs, (f: Field) => PassField(f, env, sc)).node;
    PassEachFacts(fs, (f: Field) => PassField(f, env, sc));
    ContextErrors(kind, gs);
    forall i | 0 <= i < |fs| ensures gs[i].default.NoDefault? <==> fs[i].default.NoDefault? {
      assert gs[i] == PassField(fs[i], env, sc).node;
    }
  }

  lemma DigestModel(m: Model, env: Arena)
    ensures var r := PassModel(m, env);
            Digest(ModelParts(m), ModelParts(r.node), r.changed, r.errors == [], OwnModel(m), env)
  {
    var sc := ModelScope(m.name);
    var rf := PassEach(m.fields, (f: Field) => PassField(f, env, sc));
    var rg := PassEach(m.fragments, (f: Fragment) => PassFragment(f, env));
    var ra := PassAnnotations(m.annotations, env, sc);
    DigestFields(m.fields, env, sc);
    DigestFragments(m.fragments, env);
    DigestAnnotations(m.annotations, env, sc);
    SameContext(m.kind, m.fields, env, sc);
    DigestJoin(FragmentParts(m.fragments), FragmentParts(rg.node), AnnotationsParts(m.annotations, sc),
               AnnotationsParts(ra.node, sc),
               rg.changed, ra.changed, rg.errors == [], ra.errors == [], true, OwnAnnotations(m.annotations), env);
    DigestJoin(FieldsParts(m.fields, sc), FieldsParts(rf.node, sc),
               Join(FragmentParts(m.fragments), AnnotationsParts(m.annotations, sc)),
               Join(FragmentParts(rg.node), AnnotationsParts(ra.node, sc)),
               rf.changed, rg.changed || ra.changed, rf.errors == [], rg.errors == [] && ra.errors == [],
               OwnSilence(m.fields, OwnField), OwnAnnotations(m.annotations), env);
  }

  // ----- Methods, interceptors, modules -----

  /** What has no return type is an interceptor, and says when it runs. */
  predicate OwnCallable(c: Callable) {
    && OwnSilence(c.args, OwnField) && OwnAnnotations(c.annotations)
    && (c.result.None? ==> HasInterceptorAnnotation(c.annotations))
  }

  lemma DigestResult(r: Option<FieldType>, env: Arena)
    ensures var rr := PassResult(r, env.ids);
            Digest(ResultParts(r), ResultParts(rr.node), rr.changed, rr.errors == [], true, env)
  {
    if r.Some? { DigestType(r.value, env); } else { DigestNone(env); }
  }

  lemma DigestCallable(c: Callable, env: Arena)
    ensures var r := PassCallable(c, env);
            Digest(CallableParts(c), CallableParts(r.node), r.changed, r.errors == [], OwnCallable(c), env)
  {
    var rs := PassEach(c.args, (f: Field) => PassField(f, env, NO_SCOPE));
    var rr, ra := PassResult(c.result, env.ids), PassAnnotations(c.annotations, env, NO_SCOPE);
    DigestFields(c.args, env, NO_SCOPE);
    DigestResult(c.result, env);
    DigestAnnotations(c.annotations, env, NO_SCOPE);
    DigestJoin(ResultParts(c.result), ResultParts(rr.node), AnnotationsParts(c.annotations, NO_SCOPE),
               AnnotationsParts(ra.node, NO_SCOPE),
               rr.changed, ra.changed, rr.errors == [], ra.errors == [], true, OwnAnnotations(c.annotations), env);
    DigestJoin(FieldsParts(c.args, NO_SCOPE), FieldsParts(rs.node, NO_SCOPE),
               Join(ResultParts(c.result), AnnotationsParts(c.annotations, NO_SCOPE)),
               Join(ResultParts(rr.node), AnnotationsParts(ra.node, NO_SCOPE)),
               rs.changed, rr.changed || ra.changed, rs.errors == [], rr.errors == [] && ra.errors == [],
               OwnSilence(c.args, OwnField), OwnAnnotations(c.annotations), env);
  }

  /** Exactly one annotation says which subsystem a module belongs to. */
  predicate OwnModule(m: Module) {
    && OwnSilence(m.types, OwnModel) && OwnSilence(m.methods, OwnCallable) && OwnSilence(m.interceptors, OwnCallable)
    && OwnAnnotations(m.annotations) && |m.annotations.annotations| == 1
  }

  lemma DigestCallables(cs: seq<Callable>, env: Arena)
    ensures var r := PassEach(cs, (c: Callable) => PassCallable(c, env));
            Digest(CallablesParts(cs), CallablesParts(r.node), r.changed, r.errors == [], OwnSilence(cs, OwnCallable),
                   env)
  {
    var pass, f := (c: Callable) => PassCallable(c, env), CallableParts;
    forall i | 0 <= i < |cs|
      ensures Digest(f(cs[i]), f(pass(cs[i]).node), pass(cs[i]).changed, pass(cs[i]).errors == [], OwnCallable(cs[i]),
                     env)
    {
      DigestCallable(cs[i], env);
    }
    DigestEach(cs, pass, f, OwnCallable, env);
  }

  lemma DigestModels(ms: seq<Model>, env: Arena)
    ensures var r := PassEach(ms, (m: Model) => PassModel(m, env));
            Digest(ModelsParts(ms), ModelsParts(r.node), r.changed, r.errors == [], OwnSilence(ms, OwnModel), env)
  {
    var pass, f := (m: Model) => PassModel(m, env), ModelParts;
    forall i | 0 <= i < |ms|
      ensures Digest(f(ms[i]), f(pass(ms[i]).node), pass(ms[i]).changed, pass(ms[i]).errors == [], OwnModel(ms[i]), env)
    {
      DigestModel(ms[i], env);
    }
    DigestEach(ms, pass, f, OwnModel, env);
  }

  lemma DigestFront(types: seq<Model>, methods: seq<Callable>, env: Arena)
    ensures var rt := PassEach(types, (t: Model) => PassModel(t, env));
            var rm := PassEach(methods, (c: Callable) => PassCallable(c, env));
            Digest(FrontParts(types, methods), FrontParts(rt.node, rm.node), rt.changed || rm.changed,
                   rt.errors == [] && rm.errors == [], OwnSilence(types, OwnModel) && OwnSilence(methods, OwnCallable),
                   env)
  {
    var rt := PassEach(types, (t: Model) => PassModel(t, env));
    var rm := PassEach(methods, (c: Callable) => PassCallable(c, env));
    DigestModels(types, env);
    DigestCallables(methods, env);
    DigestJoin(ModelsParts(types), ModelsParts(rt.node), CallablesParts(methods), CallablesParts(rm.node),
               rt.changed, rm.changed, rt.errors == [], rm.errors == [], OwnSilence(types, OwnModel),
               OwnSilence(methods, OwnCallable), env);
  }

  lemma DigestBack(interceptors: seq<Callable>, annotations: AnnotationMap, env: Arena)
    ensures var ri := PassEach(interceptors, (c: Callable) => PassCallable(c, env));
            var ra := PassAnnotations(annotations, env, NO_SCOPE);
            Digest(BackParts(interceptors, annotations), BackParts(ri.node, ra.node), ri.changed || ra.changed,
                   ri.errors == [] && ra.errors == [],
                   OwnSilence(interceptors, OwnCallable) && OwnAnnotations(annotations), env)
  {
    var ri := PassEach(interceptors, (c: Callable) => PassCallable(c, env));
    var ra := PassAnnotations(annotations, env, NO_SCOPE);
    DigestCallables(interceptors, env);
    DigestAnnotations(annotations, env, NO_SCOPE);
    DigestJoin(CallablesParts(interceptors), CallablesParts(ri.node), AnnotationsParts(annotations, NO_SCOPE),
               AnnotationsParts(ra.node, NO_SCOPE),
               ri.changed, ra.changed, ri.errors == [], ra.errors == [],
               OwnSilence(interceptors, OwnCallable), OwnAnnotations(annotations), env);
  }

  /** A pass over a module passes each of its visited parts; it reports a change exactly when a part that is heard
      does, and no diagnostic exactly when neither its parts nor its own rules draw one. */
  lemma DigestModule(m: Module, env: Arena)
    ensures var r := PassModule(m, env);
            Digest(ModuleParts(m), ModuleParts(r.node), r.changed, r.errors == [], OwnModule(m), env)
  {
    var n := PassModule(m, env).node;
    var rt := PassEach(m.types, (t: Model) => PassModel(t, env));
    var rm := PassEach(m.methods, (c: Callable) => PassCallable(c, env));
    var ri := PassEach(m.interceptors, (c: Callable) => PassCallable(c, env));
    var ra := PassAnnotations(m.annotations, env, NO_SCOPE);
    DigestFront(m.types, m.methods, env);
    DigestBack(m.interceptors, m.annotations, env);
    DigestJoin(FrontParts(m.types, m.methods), FrontParts(n.types, n.methods),
               BackParts(m.interceptors, m.annotations), BackParts(n.interceptors, n.annotations),
               rt.changed || rm.changed, ri.changed || ra.changed, rt.errors == [] &&
               rm.errors == [], ri.errors == [] && ra.errors == [],
               OwnSilence(m.types, OwnModel) && OwnSilence(m.methods, OwnCallable),
               OwnSilence(m.interceptors, OwnCallable) && OwnAnnotations(m.annotations), env);
    ModuleOutcome(m, env);
  }

  lemma ModuleOutcome(m: Module, env: Arena)
    ensures var r := PassModule(m, env);
            var rt := PassEach(m.types, (t: Model) => PassModel(t, env));
            var rm := PassEach(m.methods, (c: Callable) => PassCallable(c, env));
            var ri := PassEach(m.interceptors, (c: Callable) => PassCallable(c, env));
            var ra := PassAnnotations(m.annotations, env, NO_SCOPE);
            && (r.changed <==> (rt.changed || rm.changed) || (ri.changed || ra.changed))
            && (r.errors == [] <==> (rt.errors == [] && rm.errors == []) && (ri.errors == [] && ra.errors == [])
                                    && |m.annotations.annotations| == 1)
  {
    SubsystemSilence(m, env);
  }

  lemma SubsystemSilence(m: Module, env: Arena)
    ensures SubsystemErrors(PassAnnotations(m.annotations, env, NO_SCOPE).node, m.name) == [] <==>
            |m.annotations.annotations| == 1
  {
    DeclaredKept(m.annotations, env, NO_SCOPE);
  }
}
