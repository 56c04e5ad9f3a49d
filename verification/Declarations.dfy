/**
 The invariant, the measure and the notion of completeness lifted from expressions and
 field types to annotations, fields, models, methods and modules.
 */
module Declarations {
  import opened Sums
  import opened Wrappers
  import opened Ast
  import opened Passes
  import opened OneShot
  import opened EnvironmentLemmas
  import opened ExprSoundness
  import opened ExprProgress
  import opened ExprCompletion
  import opened FieldTypeLemmas

  // ----- What the parser guarantees (and what the source panics without) -----

  predicate ParsedAnnotation(a: Annotation) {
    forall i :: 0 <= i < |a.params| ==> Parsed(a.params[i])
  }

  predicate ParsedAnnotations(m: AnnotationMap) {
    forall i :: 0 <= i < |m.annotations| ==> ParsedAnnotation(m.annotations[i])
  }

  predicate ParsedField(f: Field) {
    && ParsedAnnotations(f.annotations)
    && (f.default.SelectionDefault? ==> SelectionParsed(f.default.sel))
  }

  predicate ParsedModel(m: Model) {
    (forall i :: 0 <= i < |m.fields| ==> ParsedField(m.fields[i])) && ParsedAnnotations(m.annotations)
  }

  predicate ParsedCallable(c: Callable) {
    && (forall i :: 0 <= i < |c.args| ==> ParsedField(c.args[i]))
    && ParsedAnnotations(c.annotations)
  }

  predicate ParsedModule(m: Module) {
    && (forall i :: 0 <= i < |m.types| ==> ParsedModel(m.types[i]))
    && (forall i :: 0 <= i < |m.methods| ==> ParsedCallable(m.methods[i]))
    && (forall i :: 0 <= i < |m.interceptors| ==> ParsedCallable(m.interceptors[i]))
    && ParsedAnnotations(m.annotations)
  }

  // ----- Calls with at most one parameter -----

  predicate SingleAnnotation(a: Annotation) {
    forall i :: 0 <= i < |a.params| ==> SingleParameter(a.params[i])
  }

  predicate SingleAnnotations(m: AnnotationMap) {
    forall i :: 0 <= i < |m.annotations| ==> SingleAnnotation(m.annotations[i])
  }

  predicate SingleField(f: Field) {
    SingleAnnotations(f.annotations) && (f.default.SelectionDefault? ==> SelectionSingleParameter(f.default.sel))
  }

  predicate SingleModel(m: Model) {
    (forall i :: 0 <= i < |m.fields| ==> SingleField(m.fields[i])) && SingleAnnotations(m.annotations)
  }

  predicate SingleCallable(c: Callable) {
    (forall i :: 0 <= i < |c.args| ==> SingleField(c.args[i])) && SingleAnnotations(c.annotations)
  }

  predicate SingleModule(m: Module) {
    && (forall i :: 0 <= i < |m.types| ==> SingleModel(m.types[i]))
    && (forall i :: 0 <= i < |m.methods| ==> SingleCallable(m.methods[i]))
    && (forall i :: 0 <= i < |m.interceptors| ==> SingleCallable(m.interceptors[i]))
    && SingleAnnotations(m.annotations)
  }

  // ----- The invariant: every resolved slot holds its one-shot type -----

  predicate SoundAnnotation(a: Annotation, env: Arena, sc: Scope) {
    forall i :: 0 <= i < |a.params| ==> Sound(a.params[i], env, sc)
  }

  predicate SoundAnnotations(m: AnnotationMap, env: Arena, sc: Scope) {
    forall i :: 0 <= i < |m.annotations| ==> SoundAnnotation(m.annotations[i], env, sc)
  }

  predicate SoundDefault(d: Default, env: Arena, sc: Scope) {
    d.SelectionDefault? ==> SelectionSound(d.sel, env, sc)
  }

  predicate SoundField(f: Field, env: Arena, sc: Scope) {
    && FlagsSound(f.typ, env.ids)
    && SoundAnnotations(f.annotations, env, sc) && SoundDefault(f.default, env, sc)
  }

  predicate SoundFragment(f: Fragment, env: Arena) {
    f.known ==> IsModelName(f.name, env)
  }

  predicate SoundModel(m: Model, env: Arena) {
    && m.name in env.ids
    && (forall i :: 0 <= i < |m.fields| ==> SoundField(m.fields[i], env, ModelScope(m.name)))
    && (forall i :: 0 <= i < |m.fragments| ==> SoundFragment(m.fragments[i], env))
    && SoundAnnotations(m.annotations, env, ModelScope(m.name))
  }

  predicate SoundCallable(c: Callable, env: Arena) {
    && (forall i :: 0 <= i < |c.args| ==> SoundField(c.args[i], env, NO_SCOPE))
    && (c.result.Some? ==> FlagsSound(c.result.value, env.ids))
    && SoundAnnotations(c.annotations, env, NO_SCOPE)
  }

  predicate SoundModule(m: Module, env: Arena) {
    && (forall i :: 0 <= i < |m.types| ==> SoundModel(m.types[i], env))
    && (forall i :: 0 <= i < |m.methods| ==> SoundCallable(m.methods[i], env))
    && (forall i :: 0 <= i < |m.interceptors| ==> SoundCallable(m.interceptors[i], env))
    && SoundAnnotations(m.annotations, env, NO_SCOPE)
  }

  // ----- The measure: open slots, unset flags and unknown fragments -----

  function CountAnnotation(a: Annotation): nat {
    Sum(a.params, CountExpr)
  }

  function CountAnnotations(m: AnnotationMap): nat {
    Sum(m.annotations, CountAnnotation)
  }

  function CountDefault(d: Default): nat {
    if d.SelectionDefault? then CountSelection(d.sel) else 0
  }

  function CountField(f: Field): nat {
    CountFlags(f.typ) + CountAnnotations(f.annotations) + CountDefault(f.default)
  }

  function CountFragment(f: Fragment): nat {
    if f.known then 0 else 1
  }

  function CountModel(m: Model): nat {
    Sum(m.fields, CountField) + Sum(m.fragments, CountFragment) + CountAnnotations(m.annotations)
  }

  function CountResult(r: Option<FieldType>): nat {
    if r.Some? then CountFlags(r.value) else 0
  }

  function CountCallable(c: Callable): nat {
    Sum(c.args, CountField) + CountResult(c.result) + CountAnnotations(c.annotations)
  }

  function CountModule(m: Module): nat {
    Sum(m.types, CountModel) + Sum(m.methods, CountCallable) + Sum(m.interceptors, CountCallable)
    + CountAnnotations(m.annotations)
  }

  // ----- Resolved slots are final -----

  predicate KeptAnnotation(a: Annotation, b: Annotation) {
    b.name == a.name && |b.params| == |a.params| && forall i :: 0 <= i < |a.params| ==> Kept(a.params[i], b.params[i])
  }

  predicate KeptAnnotations(a: AnnotationMap, b: AnnotationMap) {
    && |b.annotations| == |a.annotations|
    && forall i :: 0 <= i < |a.annotations| ==> KeptAnnotation(a.annotations[i], b.annotations[i])
  }

  predicate KeptField(a: Field, b: Field) {
    && KeptFlags(a.typ, b.typ) && KeptAnnotations(a.annotations, b.annotations)
    && (a.default.SelectionDefault? ==> b.default.SelectionDefault? && KeptSelection(a.default.sel, b.default.sel))
  }

  predicate KeptFields(a: seq<Field>, b: seq<Field>) {
    |b| == |a| && forall i :: 0 <= i < |a| ==> KeptField(a[i], b[i])
  }

  predicate KeptModel(a: Model, b: Model) {
    && KeptFields(a.fields, b.fields) && KeptAnnotations(a.annotations, b.annotations)
    && |b.fragments| == |a.fragments|
    && forall i :: 0 <= i < |a.fragments| ==> (a.fragments[i].known ==> b.fragments[i].known)
  }

  predicate KeptCallable(a: Callable, b: Callable) {
    && KeptFields(a.args, b.args) && KeptAnnotations(a.annotations, b.annotations)
    && (a.result.Some? ==> b.result.Some? && KeptFlags(a.result.value, b.result.value))
  }

  predicate KeptModule(a: Module, b: Module) {
    && |b.types| == |a.types| && (forall i :: 0 <= i < |a.types| ==> KeptModel(a.types[i], b.types[i]))
    && |b.methods| == |a.methods| && (forall i :: 0 <= i < |a.methods| ==> KeptCallable(a.methods[i], b.methods[i]))
    && |b.interceptors| == |a.interceptors|
    && (forall i :: 0 <= i < |a.interceptors| ==> KeptCallable(a.interceptors[i], b.interceptors[i]))
    && KeptAnnotations(a.annotations, b.annotations)
  }

  // ----- Completeness -----

  predicate CompleteAnnotation(a: Annotation) {
    a.declared && forall i :: 0 <= i < |a.params| ==> AllComplete(a.params[i])
  }

  predicate CompleteAnnotations(m: AnnotationMap) {
    forall i :: 0 <= i < |m.annotations| ==> CompleteAnnotation(m.annotations[i])
  }

  predicate CompleteField(f: Field) {
    && FlagsSet(f.typ) && CompleteAnnotations(f.annotations)
    && (f.default.SelectionDefault? ==> SelectionComplete(f.default.sel))
  }

  /** Fragment flags are not part of completeness.  A missing fragment is reported by a pass that selects a field
      through it; but the pass that resolves the selection reports a change, so that its diagnostics are dropped, and
      the next ones pass the selection over.  In the end it is reported only if the selection stays unresolved. */
  predicate CompleteModel(m: Model) {
    (forall i :: 0 <= i < |m.fields| ==> CompleteField(m.fields[i])) && CompleteAnnotations(m.annotations)
  }

  predicate FragmentsSettled(m: Model, env: Arena) {
    forall i :: 0 <= i < |m.fragments| ==> (m.fragments[i].known <==> IsModelName(m.fragments[i].name, env))
  }

  predicate CompleteCallable(c: Callable) {
    && (forall i :: 0 <= i < |c.args| ==> CompleteField(c.args[i]))
    && (c.result.Some? ==> FlagsSet(c.result.value)) && CompleteAnnotations(c.annotations)
  }

  predicate CompleteModule(m: Module) {
    && (forall i :: 0 <= i < |m.types| ==> CompleteModel(m.types[i]))
    && (forall i :: 0 <= i < |m.methods| ==> CompleteCallable(m.methods[i]))
    && (forall i :: 0 <= i < |m.interceptors| ==> CompleteCallable(m.interceptors[i]))
    && CompleteAnnotations(m.annotations)
  }
}
