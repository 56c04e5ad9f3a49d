/** When a declaration is finished, and why its two copies then agree. */
module DeclarationCompletion {
  import opened Wrappers
  import opened Ast
  import opened Passes
  import opened OneShot
  import opened EnvironmentLemmas
  import opened ExprSoundness
  import opened ExprCompletion
  import opened FieldTypeLemmas
  import opened Declarations
  import opened DeclarationSteps

  // ----- A pass that neither changes nor complains finds the declaration complete -----

  lemma QuietAnnotation(a: Annotation, env: Arena, env0: Arena, sc: Scope)
    requires Ready(env, env0, sc) && SoundAnnotation(a, env0, sc) && EnvReady(env) && SingleAnnotation(a) && a.declared
    requires var r := PassAnnotation(a, env, sc); !r.changed && r.errors == []
    ensures CompleteAnnotation(a)
  {
    PassEachFacts(a.params, (e: Expr) => PassExpr(e, env, sc));
    forall i | 0 <= i < |a.params| ensures AllComplete(a.params[i]) {
      assert PassExpr(a.params[i], env, sc).errors == [] && !PassExpr(a.params[i], env, sc).changed;
      ReadySettled(env, env0);
      ReadyKnown(a.params[i], env, env0, sc);
      QuietComplete(a.params[i], env, env0, sc);
      RootComplete(a.params[i], env0, sc);
    }
  }

  lemma QuietAnnotations(m: AnnotationMap, env: Arena, env0: Arena, sc: Scope)
    requires Ready(env, env0, sc) && SoundAnnotations(m, env0, sc) && EnvReady(env) && SingleAnnotations(m)
    requires var r := PassAnnotations(m, env, sc); !r.changed && r.errors == []
    ensures CompleteAnnotations(m)
  {
    var k := FirstUndeclared(m.annotations);
    assert m.annotations[..k] == m.annotations;
    PassEachFacts(m.annotations, (a: Annotation) => PassAnnotation(a, env, sc));
    forall i | 0 <= i < |m.annotations| ensures CompleteAnnotation(m.annotations[i]) {
      assert PassAnnotation(m.annotations[i], env, sc).errors == [] &&
             !PassAnnotation(m.annotations[i], env, sc).changed;
      QuietAnnotation(m.annotations[i], env, env0, sc);
    }
  }

  lemma QuietField(f: Field, env: Arena, env0: Arena, sc: Scope)
    requires Ready(env, env0, sc) && SoundField(f, env0, sc) && EnvReady(env) && SingleField(f)
    requires var r := PassField(f, env, sc); !r.changed && r.errors == []
    ensures CompleteField(f)
  {
    PassFlags(f.typ, env.ids);
    QuietAnnotations(f.annotations, env, env0, sc);
    if f.default.SelectionDefault? {
      ReadySettled(env, env0);
      ReadySelectionKnown(f.default.sel, env, env0, sc);
      SelectionQuietComplete(f.default.sel, env, env0, sc);
      SelectionRootComplete(f.default.sel, env0, sc);
    }
  }

  lemma QuietFields(fs: seq<Field>, env: Arena, env0: Arena, sc: Scope)
    requires Ready(env, env0, sc) && EnvReady(env)
    requires forall i :: 0 <= i < |fs| ==> SoundField(fs[i], env0, sc) && SingleField(fs[i])
    requires var r := PassEach(fs, (f: Field) => PassField(f, env, sc)); !r.changed && r.errors == []
    ensures forall i :: 0 <= i < |fs| ==> CompleteField(fs[i])
  {
    PassEachFacts(fs, (f: Field) => PassField(f, env, sc));
    forall i | 0 <= i < |fs| ensures CompleteField(fs[i]) {
      assert PassField(fs[i], env, sc).errors == [] && !PassField(fs[i], env, sc).changed;
      QuietField(fs[i], env, env0, sc);
    }
  }

  lemma UnchangedFragments(m: Model, env: Arena, env0: Arena)
    requires StateOf(env, env0) && SoundModel(m, env0) && !PassModel(m, env).changed
    ensures FragmentsSettled(m, env0)
  {
    PassEachFacts(m.fragments, (f: Fragment) => PassFragment(f, env));
    forall i | 0 <= i < |m.fragments|
      ensures m.fragments[i].known <==> IsModelName(m.fragments[i].name, env0)
    {
      assert !PassFragment(m.fragments[i], env).changed;
      SameModelName(m.fragments[i].name, env, env0);
    }
  }

  lemma QuietModel(m: Model, env: Arena, env0: Arena)
    requires StateOf(env, env0) && SoundModel(m, env0) && EnvReady(env) && SingleModel(m)
    requires var r := PassModel(m, env); !r.changed && r.errors == []
    ensures CompleteModel(m)
  {
    QuietFields(m.fields, env, env0, ModelScope(m.name));
    QuietAnnotations(m.annotations, env, env0, ModelScope(m.name));
  }

  lemma QuietCallable(c: Callable, env: Arena, env0: Arena)
    requires StateOf(env, env0) && SoundCallable(c, env0) && EnvReady(env) && SingleCallable(c)
    requires var r := PassCallable(c, env); !r.changed && r.errors == []
    ensures CompleteCallable(c)
  {
    QuietFields(c.args, env, env0, NO_SCOPE);
    QuietAnnotations(c.annotations, env, env0, NO_SCOPE);
    if c.result.Some? { PassFlags(c.result.value, env.ids); }
  }

  lemma QuietCallables(cs: seq<Callable>, env: Arena, env0: Arena)
    requires StateOf(env, env0) && EnvReady(env)
    requires forall i :: 0 <= i < |cs| ==> SoundCallable(cs[i], env0) && SingleCallable(cs[i])
    requires var r := PassEach(cs, (c: Callable) => PassCallable(c, env)); !r.changed && r.errors == []
    ensures forall i :: 0 <= i < |cs| ==> CompleteCallable(cs[i])
  {
    PassEachFacts(cs, (c: Callable) => PassCallable(c, env));
    forall i | 0 <= i < |cs| ensures CompleteCallable(cs[i]) {
      assert PassCallable(cs[i], env).errors == [] && !PassCallable(cs[i], env).changed;
      QuietCallable(cs[i], env, env0);
    }
  }

  lemma QuietModels(ms: seq<Model>, env: Arena, env0: Arena)
    requires StateOf(env, env0) && EnvReady(env)
    requires forall i :: 0 <= i < |ms| ==> SoundModel(ms[i], env0) && SingleModel(ms[i])
    requires var r := PassEach(ms, (m: Model) => PassModel(m, env)); !r.changed && r.errors == []
    ensures forall i :: 0 <= i < |ms| ==> CompleteModel(ms[i])
  {
    PassEachFacts(ms, (m: Model) => PassModel(m, env));
    forall i | 0 <= i < |ms| ensures CompleteModel(ms[i]) {
      assert PassModel(ms[i], env).errors == [] && !PassModel(ms[i], env).changed;
      QuietModel(ms[i], env, env0);
    }
  }

  /** Nothing is silently incomplete: an unresolved node that a pass over its module leaves
      unresolved has drawn a diagnostic. */
  lemma QuietModule(m: Module, env: Arena, env0: Arena)
    requires StateOf(env, env0) && SoundModule(m, env0) && EnvReady(env) && SingleModule(m)
    requires var r := PassModule(m, env); !r.changed && r.errors == []
    ensures CompleteModule(m)
  {
    QuietModels(m.types, env, env0);
    QuietCallables(m.methods, env, env0);
    QuietCallables(m.interceptors, env, env0);
    QuietAnnotations(m.annotations, env, env0, NO_SCOPE);
  }

  // ----- Two copies of one declaration -----

  lemma {:induction false} SameTypable(a: Expr, b: Expr, env: Arena, sc: Scope)
    requires ShallowExpr(a) == ShallowExpr(b) && Typable(a, env, sc)
    ensures Typable(b, env, sc)
    decreases a, 0
  {
    SameInfer(a, b, env, sc);
    match a
    case Lit(_) =>
    case Select(s) => SameSelectionTypable(s, b.sel, env, sc);
    case Not(x, _) => SameTypable(x, b.arg, env, sc);
    case Logical(_, l, r, _) => SameTypable(l, b.left, env, sc); SameTypable(r, b.right, env, sc);
    case Relational(_, l, r, _) => SameTypable(l, b.left, env, sc); SameTypable(r, b.right, env, sc);
  }

  lemma {:induction false} SameSelectionTypable(a: Selection, b: Selection, env: Arena, sc: Scope)
    requires ShallowSelection(a) == ShallowSelection(b) && SelectionTypable(a, env, sc)
    ensures SelectionTypable(b, env, sc)
    decreases a, 0
  {
    SameInferSelection(a, b, env, sc);
    if a.Path? {
      SameSelectionTypable(a.prefix, b.prefix, env, sc);
      SameInferSelection(a.prefix, b.prefix, env, sc);
      if a.elem.HofCall? {
        var target := TargetOf(Deref(InferSelection(a.prefix, env, sc), env));
        SameTypable(a.elem.body, b.elem.body, env, BodyScope(a.elem.param, Some(target.of), env, sc).value);
      }
    }
  }

  /** A copy of a complete expression on which a pass reports no change equals it. */
  lemma CopyExpr(a: Expr, b: Expr, env: Arena, env0: Arena, sc: Scope)
    requires Ready(env, env0, sc) && EnvSettled(env) && Sound(a, env0, sc) && Sound(b, env0, sc)
    requires ShallowExpr(a) == ShallowExpr(b) && AllComplete(b) && !PassExpr(a, env, sc).changed
    ensures a == b
  {
    RootComplete(b, env0, sc);
    SameTypable(b, a, env0, sc);
    SettledComplete(a, env, env0, sc);
    CompleteUnique(a, b, env0, sc);
  }

  lemma CopySelection(a: Selection, b: Selection, env: Arena, env0: Arena, sc: Scope)
    requires Ready(env, env0, sc) && EnvSettled(env) && SelectionSound(a, env0, sc) && SelectionSound(b, env0, sc)
    requires ShallowSelection(a) == ShallowSelection(b) && SelectionComplete(b) && !PassSelection(a, env, sc).changed
    ensures a == b
  {
    SelectionRootComplete(b, env0, sc);
    SameSelectionTypable(b, a, env0, sc);
    SelectionSettledComplete(a, env, env0, sc);
    SelectionCompleteUnique(a, b, env0, sc);
  }

  lemma CopyAnnotation(a: Annotation, b: Annotation, env: Arena, env0: Arena, sc: Scope)
    requires Ready(env, env0, sc) && EnvSettled(env) && SoundAnnotation(a, env0, sc) && SoundAnnotation(b, env0, sc)
    requires ShallowAnnotation(a) == ShallowAnnotation(b) && CompleteAnnotation(b) &&
             !PassAnnotation(a, env, sc).changed
    ensures a == b
  {
    PassEachFacts(a.params, (e: Expr) => PassExpr(e, env, sc));
    assert |a.params| == |ShallowExprs(a.params)| == |b.params|;
    forall i | 0 <= i < |a.params| ensures a.params[i] == b.params[i] {
      assert ShallowExpr(a.params[i]) == ShallowExprs(a.params)[i] == ShallowExpr(b.params[i]);
      assert !PassExpr(a.params[i], env, sc).changed;
      CopyExpr(a.params[i], b.params[i], env, env0, sc);
    }
  }

  lemma CopyAnnotations(a: AnnotationMap, b: AnnotationMap, env: Arena, env0: Arena, sc: Scope)
    requires Ready(env, env0, sc) && EnvSettled(env) && SoundAnnotations(a, env0, sc) && SoundAnnotations(b, env0, sc)
    requires ShallowAnnotations(a) == ShallowAnnotations(b) && CompleteAnnotations(b) &&
             !PassAnnotations(a, env, sc).changed
    ensures a == b
  {
    assert |a.annotations| == |Map(a.annotations, ShallowAnnotation)| == |b.annotations|;
    forall i | 0 <= i < |a.annotations|
      ensures ShallowAnnotation(a.annotations[i]) == ShallowAnnotation(b.annotations[i]) && a.annotations[i].declared
    {
      assert ShallowAnnotation(a.annotations[i]) == Map(a.annotations, ShallowAnnotation)[i] ==
             ShallowAnnotation(b.annotations[i]);
      assert CompleteAnnotation(b.annotations[i]);
    }
    assert a.annotations[..FirstUndeclared(a.annotations)] == a.annotations;
    PassEachFacts(a.annotations, (x: Annotation) => PassAnnotation(x, env, sc));
    forall i | 0 <= i < |a.annotations| ensures a.annotations[i] == b.annotations[i] {
      assert !PassAnnotation(a.annotations[i], env, sc).changed;
      CopyAnnotation(a.annotations[i], b.annotations[i], env, env0, sc);
    }
    assert a.annotations == b.annotations;
  }

  lemma CopyField(a: Field, b: Field, env: Arena, env0: Arena, sc: Scope)
    requires Ready(env, env0, sc) && EnvSettled(env) && SoundField(a, env0, sc) && SoundField(b, env0, sc)
    requires ShallowField(a) == ShallowField(b) && CompleteField(b) && !PassField(a, env, sc).changed
    ensures a == b
  {
    PassFlags(a.typ, env.ids);
    SettledFlagsEqual(a.typ, b.typ, env.ids);
    CopyAnnotations(a.annotations, b.annotations, env, env0, sc);
    if a.default.SelectionDefault? {
      CopySelection(a.default.sel, b.default.sel, env, env0, sc);
    }
  }

  lemma CopyFields(a: seq<Field>, b: seq<Field>, env: Arena, env0: Arena, sc: Scope)
    requires Ready(env, env0, sc) && EnvSettled(env)
    requires forall i :: 0 <= i < |a| ==> SoundField(a[i], env0, sc)
    requires forall i :: 0 <= i < |b| ==> SoundField(b[i], env0, sc) && CompleteField(b[i])
    requires Map(a, ShallowField) == Map(b, ShallowField) && !PassEach(a, (f: Field) => PassField(f, env, sc)).changed
    ensures a == b
  {
    PassEachFacts(a, (f: Field) => PassField(f, env, sc));
    assert |a| == |Map(a, ShallowField)| == |b|;
    forall i | 0 <= i < |a| ensures a[i] == b[i] {
      assert ShallowField(a[i]) == Map(a, ShallowField)[i] == ShallowField(b[i]);
      assert !PassField(a[i], env, sc).changed;
      CopyField(a[i], b[i], env, env0, sc);
    }
  }

  lemma CopyFragments(a: Model, b: Model, env: Arena)
    requires Map(a.fragments, ShallowFragment) == Map(b.fragments, ShallowFragment)
    requires FragmentsSettled(a, env) && FragmentsSettled(b, env)
    ensures a.fragments == b.fragments
  {
    var fs, gs := a.fragments, b.fragments;
    assert |fs| == |Map(fs, ShallowFragment)| == |gs|;
    forall i | 0 <= i < |fs| ensures fs[i] == gs[i] {
      assert ShallowFragment(fs[i]) == Map(fs, ShallowFragment)[i] == ShallowFragment(gs[i]);
    }
  }

  /** The arena's copy of a model, once no pass changes it, equals the complete module copy. */
  lemma CopyModel(a: Model, b: Model, env: Arena, env0: Arena)
    requires StateOf(env, env0) && EnvSettled(env) && SoundModel(a, env0) && SoundModel(b, env0)
    requires ShallowModel(a) == ShallowModel(b) && CompleteModel(b) && FragmentsSettled(b, env0)
    requires !PassModel(a, env).changed
    ensures a == b
  {
    var sc := ModelScope(a.name);
    CopyFields(a.fields, b.fields, env, env0, sc);
    CopyAnnotations(a.annotations, b.annotations, env, env0, sc);
    UnchangedFragments(a, env, env0);
    CopyFragments(a, b, env0);
  }

  lemma SameMapped<T, U>(a: seq<T>, b: seq<T>, f: T -> U)
    requires Map(a, f) == Map(b, f)
    ensures |a| == |b| && forall i :: 0 <= i < |a| ==> f(a[i]) == f(b[i])
  {
    assert |a| == |Map(a, f)| == |b|;
    forall i | 0 <= i < |a| ensures f(a[i]) == f(b[i]) { assert Map(a, f)[i] == Map(b, f)[i]; }
  }

  lemma CopyModels(a: seq<Model>, b: seq<Model>, env: Arena, env0: Arena)
    requires StateOf(env, env0) && EnvSettled(env) && Map(a, ShallowModel) == Map(b, ShallowModel)
    requires forall i :: 0 <= i < |a| ==> SoundModel(a[i], env0)
    requires forall i :: 0 <= i < |b| ==> SoundModel(b[i], env0) && CompleteModel(b[i]) && FragmentsSettled(b[i], env0)
    requires !PassEach(a, (m: Model) => PassModel(m, env)).changed
    ensures a == b
  {
    PassEachFacts(a, (m: Model) => PassModel(m, env));
    SameMapped(a, b, ShallowModel);
    CopyEachModel(a, b, env, env0);
  }

  lemma CopyEachModel(a: seq<Model>, b: seq<Model>, env: Arena, env0: Arena)
    requires StateOf(env, env0) && EnvSettled(env) && |a| == |b|
    requires forall i :: 0 <= i < |a| ==>
               && ShallowModel(a[i]) == ShallowModel(b[i]) && SoundModel(a[i], env0) && !PassModel(a[i], env).changed
               && SoundModel(b[i], env0) && CompleteModel(b[i]) && FragmentsSettled(b[i], env0)
    ensures a == b
  {
    forall i | 0 <= i < |a| ensures a[i] == b[i] { CopyModel(a[i], b[i], env, env0); }
  }

  lemma CopyCallable(a: Callable, b: Callable, env: Arena, env0: Arena)
    requires StateOf(env, env0) && EnvSettled(env) && SoundCallable(a, env0) && SoundCallable(b, env0)
    requires ShallowCallable(a) == ShallowCallable(b) && CompleteCallable(b) && !PassCallable(a, env).changed
    ensures a == b
  {
    CopyFields(a.args, b.args, env, env0, NO_SCOPE);
    CopyAnnotations(a.annotations, b.annotations, env, env0, NO_SCOPE);
    if a.result.Some? {
      PassFlags(a.result.value, env.ids);
      SettledFlagsEqual(a.result.value, b.result.value, env.ids);
    }
  }

  lemma CopyCallables(a: seq<Callable>, b: seq<Callable>, env: Arena, env0: Arena)
    requires StateOf(env, env0) && EnvSettled(env) && Map(a, ShallowCallable) == Map(b, ShallowCallable)
    requires forall i :: 0 <= i < |a| ==> SoundCallable(a[i], env0)
    requires forall i :: 0 <= i < |b| ==> SoundCallable(b[i], env0) && CompleteCallable(b[i])
    requires !PassEach(a, (c: Callable) => PassCallable(c, env)).changed
    ensures a == b
  {
    PassEachFacts(a, (c: Callable) => PassCallable(c, env));
    SameMapped(a, b, ShallowCallable);
    CopyEachCallable(a, b, env, env0);
  }

  lemma CopyEachCallable(a: seq<Callable>, b: seq<Callable>, env: Arena, env0: Arena)
    requires StateOf(env, env0) && EnvSettled(env) && |a| == |b|
    requires forall i :: 0 <= i < |a| ==>
               && ShallowCallable(a[i]) == ShallowCallable(b[i]) && SoundCallable(a[i], env0) &&
                  !PassCallable(a[i], env).changed
               && SoundCallable(b[i], env0) && CompleteCallable(b[i])
    ensures a == b
  {
    forall i | 0 <= i < |a| ensures a[i] == b[i] { CopyCallable(a[i], b[i], env, env0); }
  }

  predicate ModuleFragmentsSettled(m: Module, env: Arena) {
    forall i :: 0 <= i < |m.types| ==> FragmentsSettled(m.types[i], env)
  }

  lemma UnchangedModuleFragments(m: Module, env: Arena, env0: Arena)
    requires StateOf(env, env0) && SoundModule(m, env0) && !PassModule(m, env).changed
    ensures ModuleFragmentsSettled(m, env0)
  {
    PassEachFacts(m.types, (t: Model) => PassModel(t, env));
    forall i | 0 <= i < |m.types| ensures FragmentsSettled(m.types[i], env0) {
      assert !PassModel(m.types[i], env).changed;
      UnchangedFragments(m.types[i], env, env0);
    }
  }

  /** Two states of one module: if one is complete, and no pass changes the other, they are
      equal. */
  lemma CopyModule(a: Module, b: Module, env: Arena, env0: Arena)
    requires StateOf(env, env0) && EnvSettled(env) && SoundModule(a, env0) && SoundModule(b, env0)
    requires ShallowModule(a) == ShallowModule(b) && CompleteModule(b) && ModuleFragmentsSettled(b, env0)
    requires !PassModule(a, env).changed
    ensures a == b
  {
    CopyModels(a.types, b.types, env, env0);
    CopyCallables(a.methods, b.methods, env, env0);
    CopyCallables(a.interceptors, b.interceptors, env, env0);
    CopyAnnotations(a.annotations, b.annotations, env, env0, NO_SCOPE);
  }

  // ----- A complete declaration draws the same diagnostics in every environment -----

  lemma SamePassEach<T>(xs: seq<T>, f: T -> Outcome<T>, g: T -> Outcome<T>)
    requires forall i :: 0 <= i < |xs| ==> f(xs[i]) == g(xs[i])
    ensures PassEach(xs, f) == PassEach(xs, g)
  {
    if xs != [] {
      assert forall i :: 0 <= i < |xs[1..]| ==> xs[1..][i] == xs[i + 1];
      SamePassEach(xs[1..], f, g);
    }
  }

  lemma SamePassAnnotation(a: Annotation, e1: Arena, e2: Arena, env0: Arena, sc: Scope)
    requires SoundAnnotation(a, env0, sc) && CompleteAnnotation(a)
    ensures PassAnnotation(a, e1, sc) == PassAnnotation(a, e2, sc)
  {
    var f, g := (e: Expr) => PassExpr(e, e1, sc), (e: Expr) => PassExpr(e, e2, sc);
    forall i | 0 <= i < |a.params| ensures f(a.params[i]) == g(a.params[i]) {
      AllCompleteRoot(a.params[i]);
      CompleteIdle(a.params[i], e1, env0, sc);
      CompleteIdle(a.params[i], e2, env0, sc);
    }
    SamePassEach(a.params, f, g);
  }

  lemma AllCompleteRoot(e: Expr)
    requires AllComplete(e)
    ensures Complete(TypeOf(e))
  {
    if e.Select? { assert SelectionComplete(e.sel); }
  }

  lemma SamePassAnnotations(m: AnnotationMap, e1: Arena, e2: Arena, env0: Arena, sc: Scope)
    requires SoundAnnotations(m, env0, sc) && CompleteAnnotations(m)
    ensures PassAnnotations(m, e1, sc) == PassAnnotations(m, e2, sc)
  {
    var k := FirstUndeclared(m.annotations);
    var f, g := (a: Annotation) => PassAnnotation(a, e1, sc), (a: Annotation) => PassAnnotation(a, e2, sc);
    forall i | 0 <= i < k ensures f(m.annotations[..k][i]) == g(m.annotations[..k][i]) {
      assert m.annotations[..k][i] == m.annotations[i];
      SamePassAnnotation(m.annotations[i], e1, e2, env0, sc);
    }
    SamePassEach(m.annotations[..k], f, g);
  }

  lemma SamePassField(f: Field, e1: Arena, e2: Arena, env0: Arena, sc: Scope)
    requires e1.ids == e2.ids && SoundField(f, env0, sc) && CompleteField(f)
    ensures PassField(f, e1, sc) == PassField(f, e2, sc)
  {
    SamePassAnnotations(f.annotations, e1, e2, env0, sc);
    if f.default.SelectionDefault? {
      CompleteSelectionIdle(f.default.sel, e1, env0, sc);
      CompleteSelectionIdle(f.default.sel, e2, env0, sc);
    }
  }

  lemma SamePassFields(fs: seq<Field>, e1: Arena, e2: Arena, env0: Arena, sc: Scope)
    requires e1.ids == e2.ids && forall i :: 0 <= i < |fs| ==> SoundField(fs[i], env0, sc) && CompleteField(fs[i])
    ensures PassEach(fs, (f: Field) => PassField(f, e1, sc)) == PassEach(fs, (f: Field) => PassField(f, e2, sc))
  {
    forall i | 0 <= i < |fs| ensures PassField(fs[i], e1, sc) == PassField(fs[i], e2, sc) {
      SamePassField(fs[i], e1, e2, env0, sc);
    }
    SamePassEach(fs, (f: Field) => PassField(f, e1, sc), (f: Field) => PassField(f, e2, sc));
  }

  lemma SamePassModel(m: Model, e1: Arena, e2: Arena, env0: Arena)
    requires StateOf(e1, env0) && StateOf(e2, env0) && SoundModel(m, env0) && CompleteModel(m)
    ensures PassModel(m, e1) == PassModel(m, e2)
  {
    SamePassFields(m.fields, e1, e2, env0, ModelScope(m.name));
    SamePassAnnotations(m.annotations, e1, e2, env0, ModelScope(m.name));
    forall i | 0 <= i < |m.fragments| ensures PassFragment(m.fragments[i], e1) == PassFragment(m.fragments[i], e2) {
      SameModelName(m.fragments[i].name, e1, env0);
      SameModelName(m.fragments[i].name, e2, env0);
    }
    SamePassEach(m.fragments, (f: Fragment) => PassFragment(f, e1), (f: Fragment) => PassFragment(f, e2));
  }

  lemma SamePassCallable(c: Callable, e1: Arena, e2: Arena, env0: Arena)
    requires e1.ids == e2.ids && SoundCallable(c, env0) && CompleteCallable(c)
    ensures PassCallable(c, e1) == PassCallable(c, e2)
  {
    SamePassFields(c.args, e1, e2, env0, NO_SCOPE);
    SamePassAnnotations(c.annotations, e1, e2, env0, NO_SCOPE);
  }

  lemma SamePassCallables(cs: seq<Callable>, e1: Arena, e2: Arena, env0: Arena)
    requires e1.ids == e2.ids && forall i :: 0 <= i < |cs| ==> SoundCallable(cs[i], env0) && CompleteCallable(cs[i])
    ensures PassEach(cs, (c: Callable) => PassCallable(c, e1)) == PassEach(cs, (c: Callable) => PassCallable(c, e2))
  {
    forall i | 0 <= i < |cs| ensures PassCallable(cs[i], e1) == PassCallable(cs[i], e2) {
      SamePassCallable(cs[i], e1, e2, env0);
    }
    SamePassEach(cs, (c: Callable) => PassCallable(c, e1), (c: Callable) => PassCallable(c, e2));
  }

  /** A complete module is passed alike in every state of the environment. */
  lemma SamePassModule(m: Module, e1: Arena, e2: Arena, env0: Arena)
    requires StateOf(e1, env0) && StateOf(e2, env0) && SoundModule(m, env0) && CompleteModule(m)
    ensures PassModule(m, e1) == PassModule(m, e2)
  {
    forall i | 0 <= i < |m.types| ensures PassModel(m.types[i], e1) == PassModel(m.types[i], e2) {
      SamePassModel(m.types[i], e1, e2, env0);
    }
    SamePassEach(m.types, (t: Model) => PassModel(t, e1), (t: Model) => PassModel(t, e2));
    SamePassCallables(m.methods, e1, e2, env0);
    SamePassCallables(m.interceptors, e1, e2, env0);
    SamePassAnnotations(m.annotations, e1, e2, env0, NO_SCOPE);
  }
}
