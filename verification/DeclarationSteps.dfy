/** What one pass does to a declaration. */
module DeclarationSteps {
  import opened Sums
  import opened Wrappers
  import opened Ast
  import opened Passes
  import opened OneShot
  import opened EnvironmentLemmas
  import opened ExprSoundness
  import opened ExprProgress
  import opened ExprCompletion
  import opened FieldTypeLemmas
  import opened Declarations

  lemma {:induction false} KeptSingle(a: Expr, b: Expr)
    requires Kept(a, b) && SingleParameter(a)
    ensures SingleParameter(b)
    decreases a, 0
  {
    match a
    case Lit(_) =>
    case Select(s) => KeptSelectionSingle(s, b.sel);
    case Not(x, _) => KeptSingle(x, b.arg);
    case Logical(_, l, r, _) => KeptSingle(l, b.left); KeptSingle(r, b.right);
    case Relational(_, l, r, _) => KeptSingle(l, b.left); KeptSingle(r, b.right);
  }

  lemma {:induction false} KeptSelectionSingle(a: Selection, b: Selection)
    requires KeptSelection(a, b) && SelectionSingleParameter(a)
    ensures SelectionSingleParameter(b)
    decreases a, 0
  {
    if a.Path? {
      KeptSelectionSingle(a.prefix, b.prefix);
      if a.elem.HofCall? { KeptSingle(a.elem.body, b.elem.body); }
    }
  }

  /** The environment a pass runs in, and what every step relies on. */
  ghost predicate Ready(env: Arena, env0: Arena, sc: Scope) {
    StateOf(env, env0) && ScopeOk(sc, env0)
  }

  // ----- One declaration against its successor -----

  /** `b` is a later state of the annotation `a`. */
  ghost predicate AnnotationNext(a: Annotation, b: Annotation, env0: Arena, sc: Scope) {
    && ShallowAnnotation(b) == ShallowAnnotation(a) && KeptAnnotation(a, b)
    && SoundAnnotation(b, env0, sc) && (SingleAnnotation(a) ==> SingleAnnotation(b))
    && CountAnnotation(b) <= CountAnnotation(a)
  }

  ghost predicate AnnotationsNext(a: AnnotationMap, b: AnnotationMap, env0: Arena, sc: Scope) {
    && ShallowAnnotations(b) == ShallowAnnotations(a) && KeptAnnotations(a, b)
    && SoundAnnotations(b, env0, sc) && (SingleAnnotations(a) ==> SingleAnnotations(b))
    && CountAnnotations(b) <= CountAnnotations(a)
  }

  ghost predicate DefaultNext(a: Default, b: Default, env0: Arena, sc: Scope) {
    && ShallowDefault(b) == ShallowDefault(a) && SoundDefault(b, env0, sc)
    && (a.SelectionDefault? ==> b.SelectionDefault? && KeptSelection(a.sel, b.sel))
    && (a.SelectionDefault? && SelectionSingleParameter(a.sel) ==> SelectionSingleParameter(b.sel))
    && CountDefault(b) <= CountDefault(a)
  }

  ghost predicate FieldNext(a: Field, b: Field, env0: Arena, sc: Scope) {
    && ShallowField(b) == ShallowField(a) && KeptField(a, b)
    && SoundField(b, env0, sc) && (SingleField(a) ==> SingleField(b))
    && CountField(b) <= CountField(a)
  }

  ghost predicate FieldsNext(a: seq<Field>, b: seq<Field>, env0: Arena, sc: Scope) {
    && |b| == |a| && Map(b, ShallowField) == Map(a, ShallowField) && KeptFields(a, b)
    && (forall i :: 0 <= i < |b| ==> SoundField(b[i], env0, sc))
    && ((forall i :: 0 <= i < |a| ==> SingleField(a[i])) ==> forall i :: 0 <= i < |b| ==> SingleField(b[i]))
    && Sum(b, CountField) <= Sum(a, CountField)
  }

  ghost predicate FragmentsNext(a: seq<Fragment>, b: seq<Fragment>, env0: Arena) {
    && |b| == |a| && Map(b, ShallowFragment) == Map(a, ShallowFragment)
    && (forall i :: 0 <= i < |a| ==> SoundFragment(b[i], env0) && (a[i].known ==> b[i].known))
    && Sum(b, CountFragment) <= Sum(a, CountFragment)
  }

  ghost predicate ModelNext(a: Model, b: Model, env0: Arena) {
    && ShallowModel(b) == ShallowModel(a) && KeptModel(a, b)
    && SoundModel(b, env0) && (SingleModel(a) ==> SingleModel(b))
    && CountModel(b) <= CountModel(a)
  }

  ghost predicate CallableNext(a: Callable, b: Callable, env0: Arena) {
    && ShallowCallable(b) == ShallowCallable(a) && KeptCallable(a, b)
    && SoundCallable(b, env0) && (SingleCallable(a) ==> SingleCallable(b))
    && CountCallable(b) <= CountCallable(a)
  }

  ghost predicate ModuleNext(a: Module, b: Module, env0: Arena) {
    && ShallowModule(b) == ShallowModule(a) && KeptModule(a, b)
    && SoundModule(b, env0) && (SingleModule(a) ==> SingleModule(b))
    && CountModule(b) <= CountModule(a)
  }

  // ----- Annotations -----

  lemma AnnotationSame(a: Annotation, env0: Arena, sc: Scope)
    requires SoundAnnotation(a, env0, sc)
    ensures AnnotationNext(a, a, env0, sc)
  {
    forall j | 0 <= j < |a.params| ensures Kept(a.params[j], a.params[j]) { KeptRefl(a.params[j]); }
  }

  lemma StepExpr(e: Expr, env: Arena, env0: Arena, sc: Scope)
    requires Ready(env, env0, sc) && Sound(e, env0, sc)
    ensures var r := PassExpr(e, env, sc).node;
            && Sound(r, env0, sc) && ShallowExpr(r) == ShallowExpr(e) && Kept(e, r) && PassAccounted(e, env, sc)
            && (SingleParameter(e) ==> SingleParameter(r))
  {
    PassSound(e, env, env0, sc);
    PassProgress(e, env, env0, sc);
    if SingleParameter(e) { KeptSingle(e, PassExpr(e, env, sc).node); }
  }

  lemma StepAnnotation(a: Annotation, env: Arena, env0: Arena, sc: Scope)
    requires Ready(env, env0, sc) && SoundAnnotation(a, env0, sc)
    ensures var r := PassAnnotation(a, env, sc);
            AnnotationNext(a, r.node, env0, sc) && (r.changed ==> CountAnnotation(r.node) < CountAnnotation(a))
  {
    PassEachFacts(a.params, (e: Expr) => PassExpr(e, env, sc));
    var r := PassAnnotation(a, env, sc);
    forall i | 0 <= i < |a.params|
      ensures r.node.params[i] == PassExpr(a.params[i], env, sc).node
      ensures Sound(r.node.params[i], env0, sc) && ShallowExpr(r.node.params[i]) == ShallowExpr(a.params[i])
      ensures Kept(a.params[i], r.node.params[i]) && PassAccounted(a.params[i], env, sc)
      ensures SingleParameter(a.params[i]) ==> SingleParameter(r.node.params[i])
    {
      StepExpr(a.params[i], env, env0, sc);
    }
    assert ShallowExprs(r.node.params) == ShallowExprs(a.params);
    SumStep(a.params, r.node.params, CountExpr);
  }

  lemma AnnotationsFromEach(a: AnnotationMap, b: AnnotationMap, env0: Arena, sc: Scope)
    requires b == a.(annotations := b.annotations) && |b.annotations| == |a.annotations|
    requires forall i :: 0 <= i < |a.annotations| ==> AnnotationNext(a.annotations[i], b.annotations[i], env0, sc)
    ensures AnnotationsNext(a, b, env0, sc)
    ensures (exists i ::
               0 <= i < |a.annotations| && CountAnnotation(b.annotations[i]) < CountAnnotation(a.annotations[i]))
            ==> CountAnnotations(b) < CountAnnotations(a)
  {
    assert Map(b.annotations, ShallowAnnotation) == Map(a.annotations, ShallowAnnotation);
    SumStep(a.annotations, b.annotations, CountAnnotation);
  }

  lemma AnnotationsPassed(m: AnnotationMap, i: nat, env: Arena, sc: Scope)
    requires i < |m.annotations|
    ensures var r := PassAnnotations(m, env, sc);
            && |r.node.annotations| == |m.annotations|
            && r.node.annotations[i] == if i < FirstUndeclared(m.annotations)
                                        then PassAnnotation(m.annotations[i], env, sc).node else m.annotations[i]
  {
    var k := FirstUndeclared(m.annotations);
    PassEachFacts(m.annotations[..k], (a: Annotation) => PassAnnotation(a, env, sc));
    if i < k { assert m.annotations[..k][i] == m.annotations[i]; }
  }

  /** A reported change comes from a declared annotation. */
  lemma AnnotationsChanged(m: AnnotationMap, env: Arena, sc: Scope) returns (i: nat)
    requires PassAnnotations(m, env, sc).changed
    ensures i < |m.annotations| && i < FirstUndeclared(m.annotations) &&
            PassAnnotation(m.annotations[i], env, sc).changed
  {
    var k := FirstUndeclared(m.annotations);
    PassEachFacts(m.annotations[..k], (a: Annotation) => PassAnnotation(a, env, sc));
    i :| 0 <= i < |m.annotations[..k]| && PassAnnotation(m.annotations[..k][i], env, sc).changed;
    assert m.annotations[..k][i] == m.annotations[i];
  }

  lemma StepAnnotations(m: AnnotationMap, env: Arena, env0: Arena, sc: Scope)
    requires Ready(env, env0, sc) && SoundAnnotations(m, env0, sc)
    ensures var r := PassAnnotations(m, env, sc);
            AnnotationsNext(m, r.node, env0, sc) && (r.changed ==> CountAnnotations(r.node) < CountAnnotations(m))
  {
    var r := PassAnnotations(m, env, sc);
    forall i | 0 <= i < |m.annotations|
      ensures AnnotationNext(m.annotations[i], r.node.annotations[i], env0, sc)
    {
      AnnotationsPassed(m, i, env, sc);
      if i < FirstUndeclared(m.annotations) {
        StepAnnotation(m.annotations[i], env, env0, sc);
      } else {
        AnnotationSame(m.annotations[i], env0, sc);
      }
    }
    AnnotationsFromEach(m, r.node, env0, sc);
    if r.changed {
      var i := AnnotationsChanged(m, env, sc);
      AnnotationsPassed(m, i, env, sc);
      StepAnnotation(m.annotations[i], env, env0, sc);
    }
  }

  // ----- Fields and fragments -----

  lemma StepDefault(d: Default, name: string, env: Arena, env0: Arena, sc: Scope)
    requires Ready(env, env0, sc) && SoundDefault(d, env0, sc)
    ensures var r := PassDefault(d, name, env, sc);
            DefaultNext(d, r.node, env0, sc) && (r.changed ==> CountDefault(r.node) < CountDefault(d))
  {
    if d.SelectionDefault? {
      PassSelectionSound(d.sel, env, env0, sc);
      SelectionProgress(d.sel, env, env0, sc);
      if SelectionSingleParameter(d.sel) { KeptSelectionSingle(d.sel, PassSelection(d.sel, env, sc).node); }
    }
  }

  lemma FieldFromParts(a: Field, b: Field, env0: Arena, sc: Scope)
    requires a.name == b.name && SoundField(a, env0, sc)
    requires ShallowFieldType(b.typ) == ShallowFieldType(a.typ) && KeptFlags(a.typ, b.typ)
    requires FlagsSound(b.typ, env0.ids) && CountFlags(b.typ) <= CountFlags(a.typ)
    requires AnnotationsNext(a.annotations, b.annotations, env0, sc) && DefaultNext(a.default, b.default, env0, sc)
    ensures FieldNext(a, b, env0, sc)
  {
  }

  lemma StepField(f: Field, env: Arena, env0: Arena, sc: Scope)
    requires Ready(env, env0, sc) && SoundField(f, env0, sc)
    ensures var r := PassField(f, env, sc);
            FieldNext(f, r.node, env0, sc) && (r.changed ==> CountField(r.node) < CountField(f))
  {
    PassFlags(f.typ, env.ids);
    StepAnnotations(f.annotations, env, env0, sc);
    StepDefault(f.default, f.name, env, env0, sc);
    FieldFromParts(f, PassField(f, env, sc).node, env0, sc);
  }

  lemma FieldsFromEach(a: seq<Field>, b: seq<Field>, env0: Arena, sc: Scope)
    requires |b| == |a| && forall i :: 0 <= i < |a| ==> FieldNext(a[i], b[i], env0, sc)
    ensures FieldsNext(a, b, env0, sc)
    ensures (exists i :: 0 <= i < |a| && CountField(b[i]) < CountField(a[i])) ==>
              Sum(b, CountField) < Sum(a, CountField)
  {
    assert Map(b, ShallowField) == Map(a, ShallowField);
    SumStep(a, b, CountField);
  }

  lemma StepFields(fs: seq<Field>, env: Arena, env0: Arena, sc: Scope)
    requires Ready(env, env0, sc) && forall i :: 0 <= i < |fs| ==> SoundField(fs[i], env0, sc)
    ensures var r := PassEach(fs, (f: Field) => PassField(f, env, sc));
            FieldsNext(fs, r.node, env0, sc) && (r.changed ==> Sum(r.node, CountField) < Sum(fs, CountField))
  {
    var r := PassEach(fs, (f: Field) => PassField(f, env, sc));
    PassEachFacts(fs, (f: Field) => PassField(f, env, sc));
    forall i | 0 <= i < |fs|
      ensures FieldNext(fs[i], r.node[i], env0, sc)
      ensures PassField(fs[i], env, sc).changed ==> CountField(r.node[i]) < CountField(fs[i])
    {
      StepField(fs[i], env, env0, sc);
    }
    FieldsFromEach(fs, r.node, env0, sc);
  }

  lemma SameModelName(name: string, env: Arena, env0: Arena)
    requires StateOf(env, env0)
    ensures IsModelName(name, env) <==> IsModelName(name, env0)
  {
    if name in env.ids { assert EntryOf(env.values[env.ids[name]], env0.values[env.ids[name]], env0.ids); }
  }

  lemma StepFragments(fs: seq<Fragment>, env: Arena, env0: Arena)
    requires StateOf(env, env0) && forall i :: 0 <= i < |fs| ==> SoundFragment(fs[i], env0)
    ensures var r := PassEach(fs, (f: Fragment) => PassFragment(f, env));
            FragmentsNext(fs, r.node, env0) && (r.changed ==> Sum(r.node, CountFragment) < Sum(fs, CountFragment))
  {
    var r := PassEach(fs, (f: Fragment) => PassFragment(f, env));
    PassEachFacts(fs, (f: Fragment) => PassFragment(f, env));
    forall i | 0 <= i < |fs| ensures r.node[i] == PassFragment(fs[i], env).node && SoundFragment(r.node[i], env0) {
      SameModelName(fs[i].name, env, env0);
    }
    assert Map(r.node, ShallowFragment) == Map(fs, ShallowFragment);
    SumStep(fs, r.node, CountFragment);
  }

  // ----- Models -----

  lemma ModelFromParts(a: Model, b: Model, env0: Arena)
    requires a.name == b.name && a.kind == b.kind && SoundModel(a, env0)
    requires FieldsNext(a.fields, b.fields, env0, ModelScope(a.name))
    requires FragmentsNext(a.fragments, b.fragments, env0)
    requires AnnotationsNext(a.annotations, b.annotations, env0, ModelScope(a.name))
    ensures ModelNext(a, b, env0)
  {
  }

  lemma StepModel(m: Model, env: Arena, env0: Arena)
    requires StateOf(env, env0) && SoundModel(m, env0)
    ensures var r := PassModel(m, env);
            ModelNext(m, r.node, env0) && (r.changed ==> CountModel(r.node) < CountModel(m))
  {
    var sc := ModelScope(m.name);
    StepFields(m.fields, env, env0, sc);
    StepFragments(m.fragments, env, env0);
    StepAnnotations(m.annotations, env, env0, sc);
    ModelFromParts(m, PassModel(m, env).node, env0);
  }

  lemma StepModels(ms: seq<Model>, env: Arena, env0: Arena)
    requires StateOf(env, env0) && forall i :: 0 <= i < |ms| ==> SoundModel(ms[i], env0)
    ensures var r := PassEach(ms, (m: Model) => PassModel(m, env));
            && (forall i :: 0 <= i < |ms| ==> ModelNext(ms[i], r.node[i], env0))
            && Sum(r.node, CountModel) <= Sum(ms, CountModel) &&
               (r.changed ==> Sum(r.node, CountModel) < Sum(ms, CountModel))
  {
    var r := PassEach(ms, (m: Model) => PassModel(m, env));
    PassEachFacts(ms, (m: Model) => PassModel(m, env));
    forall i | 0 <= i < |ms|
      ensures ModelNext(ms[i], r.node[i], env0)
      ensures CountModel(r.node[i]) <= CountModel(ms[i])
      ensures PassModel(ms[i], env).changed ==> CountModel(r.node[i]) < CountModel(ms[i])
    {
      StepModel(ms[i], env, env0);
    }
    SumStep(ms, r.node, CountModel);
  }

  // ----- Methods and interceptors -----

  lemma CallableFromParts(a: Callable, b: Callable, env0: Arena)
    requires a.name == b.name && SoundCallable(a, env0)
    requires FieldsNext(a.args, b.args, env0, NO_SCOPE)
    requires ShallowResult(b.result) == ShallowResult(a.result) && CountResult(b.result) <= CountResult(a.result)
    requires a.result.Some? ==> b.result.Some? && KeptFlags(a.result.value, b.result.value)
    requires b.result.Some? ==> FlagsSound(b.result.value, env0.ids)
    requires AnnotationsNext(a.annotations, b.annotations, env0, NO_SCOPE)
    ensures CallableNext(a, b, env0)
  {
  }

  lemma StepCallable(c: Callable, env: Arena, env0: Arena)
    requires StateOf(env, env0) && SoundCallable(c, env0)
    ensures var r := PassCallable(c, env);
            CallableNext(c, r.node, env0) && (r.changed ==> CountCallable(r.node) < CountCallable(c))
  {
    StepFields(c.args, env, env0, NO_SCOPE);
    StepAnnotations(c.annotations, env, env0, NO_SCOPE);
    if c.result.Some? { PassFlags(c.result.value, env.ids); }
    CallableFromParts(c, PassCallable(c, env).node, env0);
  }

  lemma StepCallables(cs: seq<Callable>, env: Arena, env0: Arena)
    requires StateOf(env, env0) && forall i :: 0 <= i < |cs| ==> SoundCallable(cs[i], env0)
    ensures var r := PassEach(cs, (c: Callable) => PassCallable(c, env));
            && (forall i :: 0 <= i < |cs| ==> CallableNext(cs[i], r.node[i], env0))
            && Sum(r.node, CountCallable) <= Sum(cs, CountCallable)
            && (r.changed ==> Sum(r.node, CountCallable) < Sum(cs, CountCallable))
  {
    var r := PassEach(cs, (c: Callable) => PassCallable(c, env));
    PassEachFacts(cs, (c: Callable) => PassCallable(c, env));
    forall i | 0 <= i < |cs|
      ensures CallableNext(cs[i], r.node[i], env0)
      ensures CountCallable(r.node[i]) <= CountCallable(cs[i])
      ensures PassCallable(cs[i], env).changed ==> CountCallable(r.node[i]) < CountCallable(cs[i])
    {
      StepCallable(cs[i], env, env0);
    }
    SumStep(cs, r.node, CountCallable);
  }

  // ----- Modules -----

  ghost predicate ModelsNext(a: seq<Model>, b: seq<Model>, env0: Arena) {
    && |b| == |a| && Map(b, ShallowModel) == Map(a, ShallowModel)
    && (forall i :: 0 <= i < |a| ==> KeptModel(a[i], b[i]))
    && (forall i :: 0 <= i < |b| ==> SoundModel(b[i], env0))
    && ((forall i :: 0 <= i < |a| ==> SingleModel(a[i])) ==> forall i :: 0 <= i < |b| ==> SingleModel(b[i]))
    && Sum(b, CountModel) <= Sum(a, CountModel)
  }

  ghost predicate CallablesNext(a: seq<Callable>, b: seq<Callable>, env0: Arena) {
    && |b| == |a| && Map(b, ShallowCallable) == Map(a, ShallowCallable)
    && (forall i :: 0 <= i < |a| ==> KeptCallable(a[i], b[i]))
    && (forall i :: 0 <= i < |b| ==> SoundCallable(b[i], env0))
    && ((forall i :: 0 <= i < |a| ==> SingleCallable(a[i])) ==> forall i :: 0 <= i < |b| ==> SingleCallable(b[i]))
    && Sum(b, CountCallable) <= Sum(a, CountCallable)
  }

  lemma ModelsFromEach(a: seq<Model>, b: seq<Model>, env0: Arena)
    requires |b| == |a| && forall i :: 0 <= i < |a| ==> ModelNext(a[i], b[i], env0)
    requires Sum(b, CountModel) <= Sum(a, CountModel)
    ensures ModelsNext(a, b, env0)
  {
  }

  lemma CallablesFromEach(a: seq<Callable>, b: seq<Callable>, env0: Arena)
    requires |b| == |a| && forall i :: 0 <= i < |a| ==> CallableNext(a[i], b[i], env0)
    requires Sum(b, CountCallable) <= Sum(a, CountCallable)
    ensures CallablesNext(a, b, env0)
  {
  }

  ghost predicate PartsNext(a: Module, b: Module, env0: Arena) {
    && b.name == a.name && b.enums == a.enums
    && ModelsNext(a.types, b.types, env0) && CallablesNext(a.methods, b.methods, env0)
    && CallablesNext(a.interceptors, b.interceptors, env0) &&
       AnnotationsNext(a.annotations, b.annotations, env0, NO_SCOPE)
  }

  lemma ModuleShapeFromParts(a: Module, b: Module, env0: Arena)
    requires PartsNext(a, b, env0)
    ensures ShallowModule(b) == ShallowModule(a) && KeptModule(a, b)
  {
  }

  lemma ModuleStateFromParts(a: Module, b: Module, env0: Arena)
    requires PartsNext(a, b, env0)
    ensures SoundModule(b, env0) && (SingleModule(a) ==> SingleModule(b)) && CountModule(b) <= CountModule(a)
  {
  }

  lemma ModuleCount(a: Module, env: Arena, env0: Arena)
    requires StateOf(env, env0) && SoundModule(a, env0)
    ensures PassModule(a, env).changed ==> CountModule(PassModule(a, env).node) < CountModule(a)
  {
    StepModels(a.types, env, env0);
    StepCallables(a.methods, env, env0);
    StepCallables(a.interceptors, env, env0);
    StepAnnotations(a.annotations, env, env0, NO_SCOPE);
  }

  /** A pass over a module keeps its shape and its resolved slots, leaves every resolved slot
      at its one-shot type, and resolves something whenever it reports a change. */
  lemma StepModule(m: Module, env: Arena, env0: Arena)
    requires StateOf(env, env0) && SoundModule(m, env0)
    ensures var r := PassModule(m, env);
            ModuleNext(m, r.node, env0) && (r.changed ==> CountModule(r.node) < CountModule(m))
  {
    ModuleCount(m, env, env0);
    StepModuleParts(m, env, env0);
    ModuleShapeFromParts(m, PassModule(m, env).node, env0);
    ModuleStateFromParts(m, PassModule(m, env).node, env0);
  }

  lemma StepModuleParts(m: Module, env: Arena, env0: Arena)
    requires StateOf(env, env0) && SoundModule(m, env0)
    ensures PartsNext(m, PassModule(m, env).node, env0)
  {
    var n := PassModule(m, env).node;
    StepModels(m.types, env, env0);
    ModelsFromEach(m.types, n.types, env0);
    NextCallables(m.methods, env, env0);
    NextCallables(m.interceptors, env, env0);
    StepAnnotations(m.annotations, env, env0, NO_SCOPE);
  }

  lemma NextCallables(cs: seq<Callable>, env: Arena, env0: Arena)
    requires StateOf(env, env0) && forall i :: 0 <= i < |cs| ==> SoundCallable(cs[i], env0)
    ensures CallablesNext(cs, PassEach(cs, (c: Callable) => PassCallable(c, env)).node, env0)
  {
    StepCallables(cs, env, env0);
    CallablesFromEach(cs, PassEach(cs, (c: Callable) => PassCallable(c, env)).node, env0);
  }
}
