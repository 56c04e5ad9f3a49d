/** Which diagnostics a program draws, read off its declarations. */
module VerdictRules {
  import opened Wrappers
  import opened Ast
  import opened Passes
  import opened OneShot
  import opened EnvironmentLemmas
  import opened ExprSoundness
  import opened QuietForms
  import opened Faults
  import opened FieldTypeLemmas
  import opened Declarations
  import opened DeclarationSteps
  import opened Parts
  import opened PartPasses
  import opened PartFacts
  import opened Typechecker
  import opened TypecheckerTheorems
  import opened TypingRules
  import opened ReportRules
  import opened ProgramRules

  // ----- The diagnostics of declarations -----

  /** One after the other. */
  ghost function Concat<T>(xs: seq<T>, f: T -> seq<Diagnostic>): seq<Diagnostic> {
    if xs == [] then [] else f(xs[0]) + Concat(xs[1..], f)
  }

  function TypeComplaints(ft: FieldType, env: Arena): seq<Diagnostic>
    decreases ft, 0
  {
    match ft
    case OptionalField(u) => TypeComplaints(u, env)
    case Plain(n, params, _) =>
      (if n == "Set" || n == "Array" || n in env.ids then [] else [UnknownType(n)]) + AllTypeComplaints(params, env)
  }

  function AllTypeComplaints(fts: seq<FieldType>, env: Arena): seq<Diagnostic>
    decreases fts, 1
  {
    if fts == [] then [] else TypeComplaints(fts[0], env) + AllTypeComplaints(fts[1..], env)
  }

  ghost function AnnotationComplaints(a: Annotation, env: Arena, sc: Scope): seq<Diagnostic> {
    (if a.misused then [MisusedAnnotation(a.name)] else []) + Concat(a.params, (e: Expr) => Complaints(e, env, sc))
  }

  ghost function AnnotationsComplaints(m: AnnotationMap, env: Arena, sc: Scope): seq<Diagnostic> {
    Concat(m.duplicates, (n: string) => [DuplicateAnnotation(n)]) +
    Concat(m.annotations, (a: Annotation) => AnnotationComplaints(a, env, sc))
  }

  ghost function DefaultComplaints(d: Default, name: string, env: Arena, sc: Scope): seq<Diagnostic> {
    match d
    case NoDefault => []
    case LiteralDefault(wrong) => if wrong then [BadDefault(name)] else []
    case SelectionDefault(s) => Complaints(Select(s), env, sc)
  }

  ghost function FieldDiagnostics(f: Field, env: Arena, sc: Scope): seq<Diagnostic> {
    TypeComplaints(f.typ, env) + AnnotationsComplaints(f.annotations, env, sc) +
    DefaultComplaints(f.default, f.name, env, sc)
  }

  ghost function FieldsDiagnostics(fs: seq<Field>, env: Arena, sc: Scope): seq<Diagnostic> {
    Concat(fs, (f: Field) => FieldDiagnostics(f, env, sc))
  }

  /** A default of a context's field is reported again. */
  ghost function ModelComplaints(m: Model, env: Arena): seq<Diagnostic> {
    var sc: Scope := map["self" := m.name];
    FieldsDiagnostics(m.fields, env, sc) + DefaultsOutOfPlace(m.fields, m.kind) +
    AnnotationsComplaints(m.annotations, env, sc)
  }

  ghost function DefaultsOutOfPlace(fs: seq<Field>, kind: ModelKind): seq<Diagnostic> {
    if kind == ContextKind then Concat(fs, (f: Field) => if f.default == NoDefault then [] else [BadDefault(f.name)])
    else []
  }

  ghost function CallableComplaints(c: Callable, env: Arena): seq<Diagnostic> {
    (if c.result == None && !SaysWhen(c.annotations) then [MissingInterceptorAnnotation(c.name)] else []) +
    FieldsDiagnostics(c.args, env, map[]) +
    (match c.result case None => [] case Some(ft) => TypeComplaints(ft, env)) +
    AnnotationsComplaints(c.annotations, env, map[])
  }

  ghost function ModuleComplaints(m: Module, env: Arena): seq<Diagnostic> {
    Concat(m.types, (t: Model) => ModelComplaints(t, env)) +
    Concat(m.methods, (c: Callable) => CallableComplaints(c, env)) +
    Concat(m.interceptors, (c: Callable) => CallableComplaints(c, env)) +
    AnnotationsComplaints(m.annotations, env, map[]) +
    (match |m.annotations.annotations|
     case 0 => [NoSubsystemAnnotation(m.name)]
     case 1 => []
     case _ => [ManySubsystemAnnotations(m.name)])
  }

  ghost function ModulesComplaints(ds: seq<Module>, env0: Arena): seq<Diagnostic> {
    Concat(ds, (m: Module) => ModuleComplaints(m, env0))
  }

  function RootComplaint(t: Model, env: Arena): seq<Diagnostic> {
    if IsModelEntry(t.name, env) && !IsContextEntry(env.ids[t.name], env) then [ModelOutsideModule(t.name)] else []
  }

  function NameComplaint(t: Model, env: Arena): seq<Diagnostic> {
    if IsModelEntry(t.name, env) then [] else [NotAModel(t.name)]
  }

  ghost function ProgramComplaints(sys: AstSystem, env: Arena): seq<Diagnostic> {
    Concat(sys.types, (t: Model) => RootComplaint(t, env)) +
    Concat(sys.types, (t: Model) => NameComplaint(t, env)) +
    Concat(sys.modules, (m: Module) => Concat(m.types, (t: Model) => NameComplaint(t, env))) +
    ModulesComplaints(sys.modules, env)
  }

  // ----- What a pass in a final state draws -----

  /** No plain field is selected from a set, and no fault is possible. */
  predicate Fine(u: Use, env0: Arena) {
    SetFieldFree(u.expr, env0, u.scope) && !Faulty(u.expr, env0, u.scope, Possible)
  }

  ghost predicate FineModule(m: Module, env0: Arena) {
    PartFacts.OfModule(m, (u: Use) => Fine(u, env0), (t: FieldType) => true, (f: Fragment) => true)
  }

  ghost predicate Settling(env: Arena, env0: Arena, sc: Scope) {
    StateOf(env, env0) && EnvSettled(env) && ScopeOk(sc, env0)
  }

  lemma {:induction false} EachReported<T>(xs: seq<T>, ys: seq<T>, pass: T -> Outcome<T>, f: T -> seq<Diagnostic>)
    requires |xs| == |ys| && forall i :: 0 <= i < |xs| ==> pass(xs[i]).errors == f(ys[i])
    ensures PassEach(xs, pass).errors == Concat(ys, f)
  {
    if xs != [] {
      assert forall i :: 0 <= i < |xs[1..]| ==> xs[1..][i] == xs[i + 1] && ys[1..][i] == ys[i + 1];
      EachReported(xs[1..], ys[1..], pass, f);
    }
  }

  lemma EachQuiet<T>(xs: seq<T>, pass: T -> Outcome<T>, i: nat)
    requires i < |xs| && !PassEach(xs, pass).changed
    ensures !pass(xs[i]).changed
  {
    PassEachFacts(xs, pass);
  }

  lemma MapSame<T, U>(xs: seq<T>, ys: seq<T>, f: T -> U)
    requires Map(xs, f) == Map(ys, f)
    ensures |xs| == |ys| && forall i :: 0 <= i < |xs| ==> f(xs[i]) == f(ys[i])
  {
    assert |xs| == |Map(xs, f)| == |Map(ys, f)| == |ys|;
    forall i | 0 <= i < |xs| ensures f(xs[i]) == f(ys[i]) { assert Map(xs, f)[i] == Map(ys, f)[i]; }
  }

  lemma {:induction false} TypeReported(ft: FieldType, d: FieldType, env: Arena, env0: Arena)
    requires env.ids == env0.ids && FlagsSound(ft, env0.ids) && ShallowFieldType(ft) == ShallowFieldType(d)
    ensures PassFieldType(ft, env.ids).errors == TypeComplaints(d, env0)
    decreases d, 0
  {
    match ft
    case OptionalField(u) => TypeReported(u, d.inner, env, env0);
    case Plain(n, params, ok) =>
      assert ShallowFieldTypes(params) == ShallowFieldTypes(d.params);
      SameShallow(params, d.params);
      AllTypesReported(params, d.params, env, env0);
  }

  lemma SameShallow(a: seq<FieldType>, b: seq<FieldType>)
    requires ShallowFieldTypes(a) == ShallowFieldTypes(b)
    ensures |a| == |b| && forall i :: 0 <= i < |a| ==> ShallowFieldType(a[i]) == ShallowFieldType(b[i])
  {
    assert |ShallowFieldTypes(a)| == |a| && |ShallowFieldTypes(b)| == |b|;
    forall i | 0 <= i < |a| ensures ShallowFieldType(a[i]) == ShallowFieldType(b[i]) {
      assert ShallowFieldTypes(a)[i] == ShallowFieldTypes(b)[i];
    }
  }

  lemma {:induction false} AllTypesReported(fts: seq<FieldType>, ds: seq<FieldType>, env: Arena, env0: Arena)
    requires env.ids == env0.ids && |fts| == |ds| && forall i :: 0 <= i < |fts| ==> FlagsSound(fts[i], env0.ids)
    requires forall i :: 0 <= i < |fts| ==> ShallowFieldType(fts[i]) == ShallowFieldType(ds[i])
    ensures PassFieldTypes(fts, env.ids).errors == AllTypeComplaints(ds, env0)
    decreases ds, 1
  {
    if fts != [] {
      TypeReported(fts[0], ds[0], env, env0);
      AllTypesReported(fts[1..], ds[1..], env, env0);
    }
  }

  lemma ExprReported(e: Expr, p: Expr, env: Arena, env0: Arena, sc: Scope)
    requires Settling(env, env0, sc) && Sound(e, env0, sc) && !PassExpr(e, env, sc).changed
    requires ShallowExpr(e) == ShallowExpr(p) && Parsed(p) && Fine(Use(p, sc, true, true), env0)
    ensures PassExpr(e, env, sc).errors == Complaints(p, env0, sc)
  {
    Reported(e, p, env, env0, sc);
  }

  ghost predicate FineParams(a: Annotation, env0: Arena, sc: Scope) {
    ParsedAnnotation(a) && forall j :: 0 <= j < |a.params| ==> Fine(Use(a.params[j], sc, true, true), env0)
  }

  lemma AnnotationReported(a: Annotation, d: Annotation, env: Arena, env0: Arena, sc: Scope)
    requires Settling(env, env0, sc) && SoundAnnotation(a, env0, sc) && !PassAnnotation(a, env, sc).changed
    requires ShallowAnnotation(a) == ShallowAnnotation(d) && FineParams(d, env0, sc)
    ensures PassAnnotation(a, env, sc).errors == AnnotationComplaints(d, env0, sc)
  {
    var pass, f := (e: Expr) => PassExpr(e, env, sc), (e: Expr) => Complaints(e, env0, sc);
    assert a.name == d.name && a.misused == d.misused && ShallowExprs(a.params) == ShallowExprs(d.params);
    assert |a.params| == |ShallowExprs(a.params)| == |d.params|;
    PassEachFacts(a.params, pass);
    forall i | 0 <= i < |a.params| ensures pass(a.params[i]).errors == f(d.params[i]) {
      assert ShallowExpr(a.params[i]) == ShallowExprs(a.params)[i] == ShallowExpr(d.params[i]);
      assert !pass(a.params[i]).changed;
      ExprReported(a.params[i], d.params[i], env, env0, sc);
    }
    EachReported(a.params, d.params, pass, f);
  }

  ghost predicate FineAnnotations(m: AnnotationMap, env0: Arena, sc: Scope) {
    DeclaredAnnotations(m) && forall i :: 0 <= i < |m.annotations| ==> FineParams(m.annotations[i], env0, sc)
  }

  lemma FineAnnotationsAre(m: AnnotationMap, env0: Arena, sc: Scope)
    requires DeclaredAnnotations(m) && ParsedAnnotations(m) && OfAnnotations(m, sc, (u: Use) => Fine(u, env0))
    ensures FineAnnotations(m, env0, sc)
  {
    var ofUse := (u: Use) => Fine(u, env0);
    forall i | 0 <= i < |m.annotations| ensures FineParams(m.annotations[i], env0, sc) {
      var a := m.annotations[i];
      assert OfParams(a.params, sc, i < FirstUndeclared(m.annotations),
                      FirstUndeclared(m.annotations) == |m.annotations|, ofUse);
      assert ParsedAnnotation(a);
      forall j | 0 <= j < |a.params| ensures Fine(Use(a.params[j], sc, true, true), env0) {
        assert ofUse(Use(a.params[j], sc, i < FirstUndeclared(m.annotations),
                         FirstUndeclared(m.annotations) == |m.annotations|));
      }
    }
  }

  lemma {:induction false} DuplicatesReported(names: seq<string>)
    ensures DuplicateErrors(names) == Concat(names, (n: string) => [DuplicateAnnotation(n)])
  {
    if names != [] {
      DuplicatesReported(names[1..]);
      assert DuplicateErrors(names) == [DuplicateAnnotation(names[0])] + DuplicateErrors(names[1..]);
    }
  }

  lemma AnnotationsReported(m: AnnotationMap, d: AnnotationMap, env: Arena, env0: Arena, sc: Scope)
    requires Settling(env, env0, sc) && SoundAnnotations(m, env0, sc) && !PassAnnotations(m, env, sc).changed
    requires ShallowAnnotations(m) == ShallowAnnotations(d) && FineAnnotations(d, env0, sc)
    ensures PassAnnotations(m, env, sc).errors == AnnotationsComplaints(d, env0, sc)
  {
    var pass, f := (a: Annotation) => PassAnnotation(a, env, sc), (a: Annotation) => AnnotationComplaints(a, env0, sc);
    var as_, ds := m.annotations, d.annotations;
    assert m.duplicates == d.duplicates && Map(as_, ShallowAnnotation) == Map(ds, ShallowAnnotation);
    DuplicatesReported(m.duplicates);
    assert |as_| == |Map(as_, ShallowAnnotation)| == |ds|;
    forall i | 0 <= i < |as_| ensures ShallowAnnotation(as_[i]) == ShallowAnnotation(ds[i]) && as_[i].declared {
      assert ShallowAnnotation(as_[i]) == Map(as_, ShallowAnnotation)[i] == ShallowAnnotation(ds[i]);
      assert ds[i].declared;
    }
    assert FirstUndeclared(as_) == |as_| && as_[..|as_|] == as_;
    PassEachFacts(as_, pass);
    forall i | 0 <= i < |as_| ensures pass(as_[i]).errors == f(ds[i]) {
      assert !pass(as_[i]).changed && SoundAnnotation(as_[i], env0, sc) && FineParams(ds[i], env0, sc);
      AnnotationReported(as_[i], ds[i], env, env0, sc);
    }
    EachReported(as_, ds, pass, f);
  }

  ghost predicate FineField(f: Field, env0: Arena, sc: Scope) {
    FineAnnotations(f.annotations, env0, sc) &&
    (f.default.SelectionDefault? ==>
       SelectionParsed(f.default.sel) && Fine(Use(Select(f.default.sel), sc, true, true), env0))
  }

  lemma FieldReported(f: Field, d: Field, env: Arena, env0: Arena, sc: Scope)
    requires Settling(env, env0, sc) && SoundField(f, env0, sc) && !PassField(f, env, sc).changed
    requires ShallowField(f) == ShallowField(d) && FineField(d, env0, sc)
    ensures PassField(f, env, sc).errors == FieldDiagnostics(d, env0, sc)
  {
    assert ShallowFieldType(f.typ) == ShallowFieldType(d.typ) && f.name == d.name &&
           ShallowAnnotations(f.annotations) == ShallowAnnotations(d.annotations) &&
           ShallowDefault(f.default) == ShallowDefault(d.default);
    TypeReported(f.typ, d.typ, env, env0);
    AnnotationsReported(f.annotations, d.annotations, env, env0, sc);
    DefaultReported(f.default, d.default, f.name, env, env0, sc);
  }

  lemma DefaultReported(a: Default, d: Default, name: string, env: Arena, env0: Arena, sc: Scope)
    requires Settling(env, env0, sc) && SoundDefault(a, env0, sc) && !PassDefault(a, name, env, sc).changed
    requires ShallowDefault(a) == ShallowDefault(d)
    requires d.SelectionDefault? ==> SelectionParsed(d.sel) && Fine(Use(Select(d.sel), sc, true, true), env0)
    ensures PassDefault(a, name, env, sc).errors == DefaultComplaints(d, name, env0, sc)
  {
    if a.SelectionDefault? { ExprReported(Select(a.sel), Select(d.sel), env, env0, sc); }
  }

  ghost predicate FineFields(fs: seq<Field>, env0: Arena, sc: Scope) {
    forall i :: 0 <= i < |fs| ==> FineField(fs[i], env0, sc)
  }

  predicate SoundFields(fs: seq<Field>, env0: Arena, sc: Scope) {
    forall i :: 0 <= i < |fs| ==> SoundField(fs[i], env0, sc)
  }

  lemma FieldsReported(fs: seq<Field>, ds: seq<Field>, env: Arena, env0: Arena, sc: Scope)
    requires Settling(env, env0, sc) && SoundFields(fs, env0, sc) && Map(fs, ShallowField) == Map(ds, ShallowField)
    requires !PassEach(fs, (f: Field) => PassField(f, env, sc)).changed && FineFields(ds, env0, sc)
    ensures PassEach(fs, (f: Field) => PassField(f, env, sc)).errors == FieldsDiagnostics(ds, env0, sc)
  {
    var pass, f := (f: Field) => PassField(f, env, sc), (f: Field) => FieldDiagnostics(f, env0, sc);
    assert |fs| == |Map(fs, ShallowField)| == |ds|;
    PassEachFacts(fs, pass);
    forall i | 0 <= i < |fs| ensures pass(fs[i]).errors == f(ds[i]) {
      assert ShallowField(fs[i]) == Map(fs, ShallowField)[i] == ShallowField(ds[i]);
      assert !pass(fs[i]).changed && SoundField(fs[i], env0, sc) && FineField(ds[i], env0, sc);
      FieldReported(fs[i], ds[i], env, env0, sc);
    }
    EachReported(fs, ds, pass, f);
  }

  lemma FineFieldsAre(fs: seq<Field>, env0: Arena, sc: Scope)
    requires forall i :: 0 <= i < |fs| ==> ParsedField(fs[i])
    requires DeclaredFields(fs) && OfFields(fs, sc, (u: Use) => Fine(u, env0), (t: FieldType) => true)
    ensures FineFields(fs, env0, sc)
  {
    forall i | 0 <= i < |fs| ensures FineField(fs[i], env0, sc) {
      assert OfField(fs[i], sc, (u: Use) => Fine(u, env0), (t: FieldType) => true);
      FineAnnotationsAre(fs[i].annotations, env0, sc);
    }
  }

  /** The default of a field is there before and after a pass. */
  lemma {:induction false} ContextReported(fs: seq<Field>, ds: seq<Field>, kind: ModelKind)
    requires |fs| == |ds| && forall i :: 0 <= i < |fs| ==>
               fs[i].name == ds[i].name && (fs[i].default.NoDefault? <==> ds[i].default.NoDefault?)
    ensures ContextDefaultErrors(kind, fs) == DefaultsOutOfPlace(ds, kind)
  {
    if fs != [] {
      forall i | 0 <= i < |fs[1..]|
        ensures fs[1..][i].name == ds[1..][i].name
        ensures fs[1..][i].default.NoDefault? <==> ds[1..][i].default.NoDefault?
      {
        assert fs[1..][i] == fs[i + 1] && ds[1..][i] == ds[i + 1];
      }
      ContextReported(fs[1..], ds[1..], kind);
    }
  }

  lemma PassedDefaults(fs: seq<Field>, ds: seq<Field>, env: Arena, sc: Scope, kind: ModelKind)
    requires Map(fs, ShallowField) == Map(ds, ShallowField)
    ensures ContextDefaultErrors(kind, PassEach(fs, (f: Field) => PassField(f, env, sc)).node) ==
            DefaultsOutOfPlace(ds, kind)
  {
    var pass := (f: Field) => PassField(f, env, sc);
    var r := PassEach(fs, pass).node;
    assert |fs| == |Map(fs, ShallowField)| == |ds|;
    PassEachFacts(fs, pass);
    forall i | 0 <= i < |r|
      ensures r[i].name == ds[i].name && (r[i].default.NoDefault? <==> ds[i].default.NoDefault?)
    {
      assert ShallowField(fs[i]) == Map(fs, ShallowField)[i] == ShallowField(ds[i]);
      assert r[i] == pass(fs[i]).node;
      assert ShallowDefault(fs[i].default) == ShallowDefault(ds[i].default);
    }
    ContextReported(r, ds, kind);
  }

  ghost predicate FineModel(m: Model, env0: Arena) {
    FineFields(m.fields, env0, ModelScope(m.name)) && FineAnnotations(m.annotations, env0, ModelScope(m.name))
  }

  lemma {:induction false} FragmentsSilent(fs: seq<Fragment>, env: Arena)
    ensures PassEach(fs, (f: Fragment) => PassFragment(f, env)).errors == []
  {
    PassEachFacts(fs, (f: Fragment) => PassFragment(f, env));
  }

  lemma ModelReported(m: Model, d: Model, env: Arena, env0: Arena)
    requires StateOf(env, env0) && EnvSettled(env) && SoundModel(m, env0) && !PassModel(m, env).changed
    requires ShallowModel(m) == ShallowModel(d) && FineModel(d, env0)
    ensures PassModel(m, env).errors == ModelComplaints(d, env0)
  {
    var sc := ModelScope(m.name);
    QuietModelParts(m, env);
    assert m.name == d.name && m.kind == d.kind && Map(m.fields, ShallowField) == Map(d.fields, ShallowField) &&
           ShallowAnnotations(m.annotations) == ShallowAnnotations(d.annotations);
    ModelPartsReported(m, d, env, env0);
    ModelSum(m, d, env, env0);
  }

  lemma QuietModelParts(m: Model, env: Arena)
    requires !PassModel(m, env).changed
    ensures var sc := ModelScope(m.name);
            !PassEach(m.fields, (f: Field) => PassField(f, env, sc)).changed &&
            !PassAnnotations(m.annotations, env, sc).changed
  {
  }

  ghost predicate ModelDraws(m: Model, d: Model, env: Arena, env0: Arena) {
    var sc := ModelScope(m.name);
    var rf := PassEach(m.fields, (f: Field) => PassField(f, env, sc));
    && rf.errors == FieldsDiagnostics(d.fields, env0, sc)
    && PassEach(m.fragments, (f: Fragment) => PassFragment(f, env)).errors == []
    && PassAnnotations(m.annotations, env, sc).errors == AnnotationsComplaints(d.annotations, env0, sc)
    && ContextDefaultErrors(m.kind, rf.node) == DefaultsOutOfPlace(d.fields, m.kind)
  }

  lemma ModelSum(m: Model, d: Model, env: Arena, env0: Arena)
    requires ModelDraws(m, d, env, env0) && m.name == d.name && m.kind == d.kind
    ensures PassModel(m, env).errors == ModelComplaints(d, env0)
  {
  }

  lemma ModelPartsReported(m: Model, d: Model, env: Arena, env0: Arena)
    requires StateOf(env, env0) && EnvSettled(env) && SoundModel(m, env0) && FineModel(d, env0) && m.name == d.name
    requires Map(m.fields, ShallowField) == Map(d.fields, ShallowField) &&
             ShallowAnnotations(m.annotations) == ShallowAnnotations(d.annotations)
    requires !PassEach(m.fields, (f: Field) => PassField(f, env, ModelScope(m.name))).changed
    requires !PassAnnotations(m.annotations, env, ModelScope(m.name)).changed
    ensures ModelDraws(m, d, env, env0)
  {
    var sc := ModelScope(m.name);
    FieldsReported(m.fields, d.fields, env, env0, sc);
    PassedDefaults(m.fields, d.fields, env, sc, m.kind);
    FragmentsSilent(m.fragments, env);
    AnnotationsReported(m.annotations, d.annotations, env, env0, sc);
  }

  ghost predicate FineCallable(c: Callable, env0: Arena) {
    FineFields(c.args, env0, NO_SCOPE) && FineAnnotations(c.annotations, env0, NO_SCOPE)
  }

  lemma SaysWhenSame(m: AnnotationMap, d: AnnotationMap)
    requires ShallowAnnotations(m) == ShallowAnnotations(d)
    ensures HasInterceptorAnnotation(m) <==> SaysWhen(d)
  {
    var as_, ds := m.annotations, d.annotations;
    assert |as_| == |Map(as_, ShallowAnnotation)| == |Map(ds, ShallowAnnotation)| == |ds|;
    forall i | 0 <= i < |as_| ensures as_[i].name == ds[i].name {
      assert ShallowAnnotation(as_[i]) == Map(as_, ShallowAnnotation)[i] == Map(ds, ShallowAnnotation)[i];
    }
  }

  lemma CallableReported(c: Callable, d: Callable, env: Arena, env0: Arena)
    requires StateOf(env, env0) && EnvSettled(env) && SoundCallable(c, env0) && !PassCallable(c, env).changed
    requires ShallowCallable(c) == ShallowCallable(d) && FineCallable(d, env0)
    ensures PassCallable(c, env).errors == CallableComplaints(d, env0)
  {
    assert c.name == d.name && Map(c.args, ShallowField) == Map(d.args, ShallowField) &&
           ShallowResult(c.result) == ShallowResult(d.result) &&
           ShallowAnnotations(c.annotations) == ShallowAnnotations(d.annotations);
    FieldsReported(c.args, d.args, env, env0, NO_SCOPE);
    AnnotationsReported(c.annotations, d.annotations, env, env0, NO_SCOPE);
    SaysWhenSame(c.annotations, d.annotations);
    if c.result.Some? { TypeReported(c.result.value, d.result.value, env, env0); }
  }

  ghost predicate ModelsReady(ms: seq<Model>, ds: seq<Model>, env: Arena, env0: Arena) {
    && Map(ms, ShallowModel) == Map(ds, ShallowModel)
    && (forall i :: 0 <= i < |ms| ==> SoundModel(ms[i], env0)) && forall i :: 0 <= i < |ds| ==> FineModel(ds[i], env0)
  }

  lemma ModelItem(ms: seq<Model>, ds: seq<Model>, env: Arena, env0: Arena, i: nat)
    requires StateOf(env, env0) && EnvSettled(env) && ModelsReady(ms, ds, env, env0) && i < |ms|
    requires !PassModel(ms[i], env).changed
    ensures i < |ds| && PassModel(ms[i], env).errors == ModelComplaints(ds[i], env0)
  {
    MapSame(ms, ds, ShallowModel);
    ModelReported(ms[i], ds[i], env, env0);
  }

  lemma ModelsReported(ms: seq<Model>, ds: seq<Model>, env: Arena, env0: Arena)
    requires StateOf(env, env0) && EnvSettled(env) && ModelsReady(ms, ds, env, env0)
    requires !PassEach(ms, (t: Model) => PassModel(t, env)).changed
    ensures PassEach(ms, (t: Model) => PassModel(t, env)).errors == Concat(ds, (t: Model) => ModelComplaints(t, env0))
  {
    var pass, f := (t: Model) => PassModel(t, env), (t: Model) => ModelComplaints(t, env0);
    MapSame(ms, ds, ShallowModel);
    forall i | 0 <= i < |ms| ensures pass(ms[i]).errors == f(ds[i]) {
      EachQuiet(ms, pass, i);
      ModelItem(ms, ds, env, env0, i);
    }
    EachReported(ms, ds, pass, f);
  }

  ghost predicate CallablesReady(cs: seq<Callable>, ds: seq<Callable>, env: Arena, env0: Arena) {
    && Map(cs, ShallowCallable) == Map(ds, ShallowCallable)
    && (forall i :: 0 <= i < |cs| ==> SoundCallable(cs[i], env0))
    && forall i :: 0 <= i < |ds| ==> FineCallable(ds[i], env0)
  }

  lemma CallableItem(cs: seq<Callable>, ds: seq<Callable>, env: Arena, env0: Arena, i: nat)
    requires StateOf(env, env0) && EnvSettled(env) && CallablesReady(cs, ds, env, env0) && i < |cs|
    requires !PassCallable(cs[i], env).changed
    ensures i < |ds| && PassCallable(cs[i], env).errors == CallableComplaints(ds[i], env0)
  {
    MapSame(cs, ds, ShallowCallable);
    CallableReported(cs[i], ds[i], env, env0);
  }

  lemma CallablesReported(cs: seq<Callable>, ds: seq<Callable>, env: Arena, env0: Arena)
    requires StateOf(env, env0) && EnvSettled(env) && CallablesReady(cs, ds, env, env0)
    requires !PassEach(cs, (c: Callable) => PassCallable(c, env)).changed
    ensures PassEach(cs, (c: Callable) => PassCallable(c, env)).errors ==
            Concat(ds, (c: Callable) => CallableComplaints(c, env0))
  {
    var pass, f := (c: Callable) => PassCallable(c, env), (c: Callable) => CallableComplaints(c, env0);
    MapSame(cs, ds, ShallowCallable);
    forall i | 0 <= i < |cs| ensures pass(cs[i]).errors == f(ds[i]) {
      EachQuiet(cs, pass, i);
      CallableItem(cs, ds, env, env0, i);
    }
    EachReported(cs, ds, pass, f);
  }

  ghost predicate FineParts(m: Module, env0: Arena) {
    && (forall i :: 0 <= i < |m.types| ==> FineModel(m.types[i], env0))
    && (forall i :: 0 <= i < |m.methods| ==> FineCallable(m.methods[i], env0))
    && (forall i :: 0 <= i < |m.interceptors| ==> FineCallable(m.interceptors[i], env0))
    && FineAnnotations(m.annotations, env0, NO_SCOPE)
  }

  lemma FinePartsAre(m: Module, env0: Arena)
    requires ParsedModule(m) && DeclaredModule(m) && FineModule(m, env0)
    ensures FineParts(m, env0)
  {
    var ofUse := (u: Use) => Fine(u, env0);
    forall i | 0 <= i < |m.types| ensures FineModel(m.types[i], env0) {
      assert OfModel(m.types[i], ofUse, (t: FieldType) => true, (f: Fragment) => true);
      assert DeclaredModel(m.types[i]) && ParsedModel(m.types[i]);
      FineFieldsAre(m.types[i].fields, env0, ModelScope(m.types[i].name));
      FineAnnotationsAre(m.types[i].annotations, env0, ModelScope(m.types[i].name));
    }
    FineCallablesAre(m.methods, env0);
    FineCallablesAre(m.interceptors, env0);
    FineAnnotationsAre(m.annotations, env0, NO_SCOPE);
  }

  lemma FineCallablesAre(cs: seq<Callable>, env0: Arena)
    requires forall i :: 0 <= i < |cs| ==>
               ParsedCallable(cs[i]) && DeclaredCallable(cs[i]) &&
               OfCallable(cs[i], (u: Use) => Fine(u, env0), (t: FieldType) => true)
    ensures forall i :: 0 <= i < |cs| ==> FineCallable(cs[i], env0)
  {
    forall i | 0 <= i < |cs| ensures FineCallable(cs[i], env0) {
      FineFieldsAre(cs[i].args, env0, NO_SCOPE);
      FineAnnotationsAre(cs[i].annotations, env0, NO_SCOPE);
    }
  }

  lemma ModuleReady(m: Module, d: Module, env: Arena, env0: Arena)
    requires SoundModule(m, env0) && ShallowModule(m) == ShallowModule(d) && FineParts(d, env0)
    ensures ModelsReady(m.types, d.types, env, env0) && CallablesReady(m.methods, d.methods, env, env0) &&
            CallablesReady(m.interceptors, d.interceptors, env, env0)
    ensures m.name == d.name && ShallowAnnotations(m.annotations) == ShallowAnnotations(d.annotations) &&
            SoundAnnotations(m.annotations, env0, NO_SCOPE) && FineAnnotations(d.annotations, env0, NO_SCOPE)
  {
  }

  lemma QuietParts(m: Module, env: Arena)
    requires !PassModule(m, env).changed
    ensures !PassEach(m.types, (t: Model) => PassModel(t, env)).changed
    ensures !PassEach(m.methods, (c: Callable) => PassCallable(c, env)).changed
    ensures !PassEach(m.interceptors, (c: Callable) => PassCallable(c, env)).changed
    ensures !PassAnnotations(m.annotations, env, NO_SCOPE).changed
  {
  }

  lemma ModuleReported(m: Module, d: Module, env: Arena, env0: Arena)
    requires StateOf(env, env0) && EnvSettled(env) && SoundModule(m, env0) && !PassModule(m, env).changed
    requires ShallowModule(m) == ShallowModule(d) && FineParts(d, env0)
    ensures PassModule(m, env).errors == ModuleComplaints(d, env0)
  {
    ModuleReady(m, d, env, env0);
    QuietParts(m, env);
    DeclaredPartsReported(m, d, env, env0);
    PartsSum(m, d, env, env0);
  }

  /** The parts of a module draw what they draw by the rules. */
  ghost predicate PartsDraw(m: Module, d: Module, env: Arena, env0: Arena) {
    && PassEach(m.types, (t: Model) => PassModel(t, env)).errors ==
            Concat(d.types, (t: Model) => ModelComplaints(t, env0))
    && PassEach(m.methods, (c: Callable) => PassCallable(c, env)).errors ==
            Concat(d.methods, (c: Callable) => CallableComplaints(c, env0))
    && PassEach(m.interceptors, (c: Callable) => PassCallable(c, env)).errors ==
            Concat(d.interceptors, (c: Callable) => CallableComplaints(c, env0))
    && PassAnnotations(m.annotations, env, NO_SCOPE).errors ==
            AnnotationsComplaints(d.annotations, env0, NO_SCOPE)
    && |PassAnnotations(m.annotations, env, NO_SCOPE).node.annotations| == |d.annotations.annotations|
  }

  lemma PartsSum(m: Module, d: Module, env: Arena, env0: Arena)
    requires PartsDraw(m, d, env, env0) && m.name == d.name
    ensures PassModule(m, env).errors == ModuleComplaints(d, env0)
  {
  }

  lemma DeclaredPartsReported(m: Module, d: Module, env: Arena, env0: Arena)
    requires StateOf(env, env0) && EnvSettled(env)
    requires ModelsReady(m.types, d.types, env, env0) && CallablesReady(m.methods, d.methods, env, env0) &&
             CallablesReady(m.interceptors, d.interceptors, env, env0)
    requires ShallowAnnotations(m.annotations) == ShallowAnnotations(d.annotations) &&
             SoundAnnotations(m.annotations, env0, NO_SCOPE) && FineAnnotations(d.annotations, env0, NO_SCOPE)
    requires !PassEach(m.types, (t: Model) => PassModel(t, env)).changed
    requires !PassEach(m.methods, (c: Callable) => PassCallable(c, env)).changed
    requires !PassEach(m.interceptors, (c: Callable) => PassCallable(c, env)).changed
    requires !PassAnnotations(m.annotations, env, NO_SCOPE).changed
    ensures PartsDraw(m, d, env, env0)
  {
    ModelsReported(m.types, d.types, env, env0);
    CallablesReported(m.methods, d.methods, env, env0);
    CallablesReported(m.interceptors, d.interceptors, env, env0);
    AnnotationsReported(m.annotations, d.annotations, env, env0, NO_SCOPE);
    SameAnnotationCount(m.annotations, d.annotations, env);
  }

  lemma SameAnnotationCount(m: AnnotationMap, d: AnnotationMap, env: Arena)
    requires ShallowAnnotations(m) == ShallowAnnotations(d)
    ensures |PassAnnotations(m, env, NO_SCOPE).node.annotations| == |d.annotations|
  {
    assert |m.annotations| == |Map(m.annotations, ShallowAnnotation)| == |d.annotations|;
  }

  // ----- Programs -----

  lemma {:induction false} ConcatAppend<T>(a: seq<T>, b: seq<T>, f: T -> seq<Diagnostic>)
    ensures Concat(a + b, f) == Concat(a, f) + Concat(b, f)
  {
    if a == [] {
      assert a + b == b;
    } else {
      assert (a + b)[1..] == a[1..] + b;
      ConcatAppend(a[1..], b, f);
    }
  }

  lemma {:induction false} ConcatLast<T>(xs: seq<T>, f: T -> seq<Diagnostic>)
    requires xs != []
    ensures Concat(xs, f) == Concat(xs[..|xs| - 1], f) + f(xs[|xs| - 1])
  {
    var n := |xs| - 1;
    ConcatAppend(xs[..n], [xs[n]], f);
    assert xs == xs[..n] + [xs[n]];
    assert Concat([xs[n]], f) == f(xs[n]) + [];
  }

  lemma {:induction false} RootsReported(roots: seq<Model>, env: Arena, env0: Arena)
    requires StateOf(env, env0)
    ensures RootErrors(roots, env) == Concat(roots, (t: Model) => RootComplaint(t, env0))
  {
    if roots != [] {
      var n := |roots| - 1;
      RootsReported(roots[..n], env, env0);
      ConcatLast(roots, (t: Model) => RootComplaint(t, env0));
      if roots[n].name in env0.ids {
        assert EntryOf(env.values[env.ids[roots[n].name]], env0.values[env.ids[roots[n].name]], env0.ids);
      }
    }
  }

  lemma {:induction false} NamesReported(all: seq<Model>, env: Arena, env0: Arena)
    requires StateOf(env, env0)
    ensures NonModelErrors(all, env) == Concat(all, (t: Model) => NameComplaint(t, env0))
  {
    if all != [] {
      var n := |all| - 1;
      NamesReported(all[..n], env, env0);
      ConcatLast(all, (t: Model) => NameComplaint(t, env0));
      SameModelName(all[n].name, env, env0);
    }
  }

  lemma {:induction false} ModuleNamesReported(ms: seq<Module>, f: Model -> seq<Diagnostic>)
    ensures Concat(ModuleTypes(ms), f) == Concat(ms, (m: Module) => Concat(m.types, f))
  {
    if ms != [] {
      var n := |ms| - 1;
      ModuleNamesReported(ms[..n], f);
      ConcatLast(ms, (m: Module) => Concat(m.types, f));
      ConcatAppend(ModuleTypes(ms[..n]), ms[n].types, f);
    }
  }

  /** All annotations of modules are declared, no plain field of a set is selected in a module, and no expression of a
      module has a possible fault. */
  ghost predicate FineProgram(sys: AstSystem, env0: Arena) {
    forall j :: 0 <= j < |sys.modules| ==> DeclaredModule(sys.modules[j]) && FineModule(sys.modules[j], env0)
  }

  ghost predicate Draws(m: Module, d: Module, env: Arena, env0: Arena) {
    PassModule(m, env).errors == ModuleComplaints(d, env0)
  }

  lemma FinalModuleReported(sys: AstSystem, st: State, j: nat)
    requires Final(sys, st) && FineProgram(sys, InitialTypes(sys)) && j < |st.modules|
    ensures j < |sys.modules| && Draws(st.modules[j], sys.modules[j], st.types, InitialTypes(sys))
  {
    FinalSettled(sys, st);
    InvStateOf(st, InitialState(sys));
    FinalModule(sys, st, j);
    FinePartsAre(sys.modules[j], InitialTypes(sys));
    ModuleReported(st.modules[j], sys.modules[j], st.types, InitialTypes(sys));
  }

  lemma LastErrors(ms: seq<Module>, env: Arena)
    requires ms != []
    ensures ModuleErrors(ms, env) == ModuleErrors(ms[..|ms| - 1], env) + PassModule(ms[|ms| - 1], env).errors
  {
  }

  lemma LastComplaints(ds: seq<Module>, env0: Arena)
    requires ds != []
    ensures ModulesComplaints(ds, env0) ==
            ModulesComplaints(ds[..|ds| - 1], env0) + ModuleComplaints(ds[|ds| - 1], env0)
  {
    ConcatLast(ds, (m: Module) => ModuleComplaints(m, env0));
  }

  lemma {:induction false} AllDraw(ms: seq<Module>, ds: seq<Module>, env: Arena, env0: Arena)
    requires |ms| == |ds| && forall j :: 0 <= j < |ms| ==> Draws(ms[j], ds[j], env, env0)
    ensures ModuleErrors(ms, env) == ModulesComplaints(ds, env0)
  {
    if ms != [] {
      var n := |ms| - 1;
      AllDraw(ms[..n], ds[..n], env, env0);
      LastErrors(ms, env);
      LastComplaints(ds, env0);
      assert Draws(ms[n], ds[n], env, env0);
    }
  }

  lemma ModulesReported(sys: AstSystem, st: State)
    requires Final(sys, st) && FineProgram(sys, InitialTypes(sys))
    ensures ModuleErrors(st.modules, st.types) == ModulesComplaints(sys.modules, InitialTypes(sys))
  {
    SameModuleCount(sys, st);
    forall j | 0 <= j < |st.modules| ensures Draws(st.modules[j], sys.modules[j], st.types, InitialTypes(sys)) {
      FinalModuleReported(sys, st, j);
    }
    AllDraw(st.modules, sys.modules, st.types, InitialTypes(sys));
  }

  lemma SameModuleCount(sys: AstSystem, st: State)
    requires Final(sys, st)
    ensures |st.modules| == |sys.modules|
  {
    assert |st.modules| == |InitialState(sys).modules|;
  }

  /** Whatever the order of the passes, a program ends with the diagnostics that its declarations draw by the rules. */
  lemma VerdictExactly(sys: AstSystem, st: State)
    requires Final(sys, st) && FineProgram(sys, InitialTypes(sys))
    ensures Verdict(sys, st) == ProgramComplaints(sys, InitialTypes(sys))
  {
    var env0 := InitialTypes(sys);
    InvStateOf(st, InitialState(sys));
    RootsReported(sys.types, st.types, env0);
    TypesReported(sys, st.types, env0);
    ModulesReported(sys, st);
    FourParts(RootErrors(sys.types, st.types), Concat(sys.types, (t: Model) => NameComplaint(t, env0)),
              Concat(sys.modules, (m: Module) => Concat(m.types, (t: Model) => NameComplaint(t, env0))),
              ModuleErrors(st.modules, st.types));
  }

  lemma FourParts(a: seq<Diagnostic>, b: seq<Diagnostic>, c: seq<Diagnostic>, d: seq<Diagnostic>)
    ensures a + (b + c) + d == a + b + c + d
  {
  }

  lemma TypesReported(sys: AstSystem, env: Arena, env0: Arena)
    requires StateOf(env, env0)
    ensures NonModelErrors(AllTypes(sys), env) ==
            Concat(sys.types, (t: Model) => NameComplaint(t, env0)) +
            Concat(sys.modules, (m: Module) => Concat(m.types, (t: Model) => NameComplaint(t, env0)))
  {
    NamesReported(AllTypes(sys), env, env0);
    ConcatAppend(sys.types, ModuleTypes(sys.modules), (t: Model) => NameComplaint(t, env0));
    ModuleNamesReported(sys.modules, (t: Model) => NameComplaint(t, env0));
  }
}
