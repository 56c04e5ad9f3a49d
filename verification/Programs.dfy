/** Small programs, and what `build` starts with for them. */
module Programs {
  import opened Wrappers
  import opened Ast
  import opened Passes
  import opened OneShot
  import opened Declarations
  import opened Typechecker
  import opened TypecheckerTheorems
  import opened Parts
  import opened Rounds
  import opened PanicRuns

  /** The first entry under a name is the one that is found. */
  lemma {:induction false} FirstIsFound(es: seq<Entry>, k: nat)
    requires k < |es| && forall i :: 0 <= i < k ==> EntryName(es[i]) != EntryName(es[k])
    ensures var env, n := AddAll(es), EntryName(es[k]);
            n in env.ids && env.ids[n] < |env.values| && env.values[env.ids[n]] == es[k]
  {
    var front := es[..|es| - 1];
    AddAllValid(front);
    AddAllHolds(front);
    if k < |es| - 1 { FirstIsFound(front, k); }
  }

  predicate Predefined(name: string) {
    exists i :: 0 <= i < |PREDEFINED| && EntryName(PREDEFINED[i]) == name
  }

  /** Names of declared types are new. */
  predicate NewNames(ts: seq<Model>) {
    && (forall k :: 0 <= k < |ts| ==> !Predefined(ts[k].name))
    && (forall i, k :: 0 <= i < k < |ts| ==> ts[i].name != ts[k].name)
  }

  /** Modules that declare no types. */
  predicate Bodies(modules: seq<Module>) {
    forall j :: 0 <= j < |modules| ==> modules[j].types == [] && modules[j].enums == []
  }

  lemma {:induction false} NoModuleTypes(ms: seq<Module>)
    requires Bodies(ms)
    ensures ModuleTypes(ms) == [] && EnumEntries(ms) == []
  {
    if ms != [] { NoModuleTypes(ms[..|ms| - 1]); }
  }

  lemma InitialEntriesAre(sys: AstSystem)
    requires Bodies(sys.modules)
    ensures AllTypes(sys) == sys.types && InitialEntries(sys) == PREDEFINED + TypeEntries(sys.types)
  {
    NoModuleTypes(sys.modules);
    assert sys.types + [] == sys.types && PREDEFINED + [] == PREDEFINED;
  }

  /** A declared context is found under its name. */
  lemma ContextFound(sys: AstSystem, k: nat)
    requires Bodies(sys.modules) && NewNames(sys.types) && k < |sys.types|
    ensures var env, n := InitialTypes(sys), sys.types[k].name;
            n in env.ids && env.ids[n] < |env.values| &&
            env.values[env.ids[n]] == ModelEntry(ShallowModel(sys.types[k]))
  {
    InitialEntriesAre(sys);
    var es, at := PREDEFINED + TypeEntries(sys.types), |PREDEFINED| + k;
    assert es[at] == ModelEntry(ShallowModel(sys.types[k]));
    forall i | 0 <= i < at ensures EntryName(es[i]) != EntryName(es[at]) {
      if i < |PREDEFINED| {
        assert es[i] == PREDEFINED[i];
      } else {
        assert es[i] == ModelEntry(ShallowModel(sys.types[i - |PREDEFINED|]));
      }
    }
    FirstIsFound(es, at);
  }

  lemma {:induction false} NamesFrom(es: seq<Entry>, name: string)
    requires name in AddAll(es).ids
    ensures exists i :: 0 <= i < |es| && EntryName(es[i]) == name
  {
    if name in AddAll(es[..|es| - 1]).ids {
      NamesFrom(es[..|es| - 1], name);
      var i :| 0 <= i < |es| - 1 && EntryName(es[..|es| - 1][i]) == name;
      assert EntryName(es[i]) == name;
    }
  }

  /** Known names are predefined or declared. */
  lemma KnownNames(sys: AstSystem, name: string)
    requires Bodies(sys.modules) && name in InitialTypes(sys).ids
    ensures Predefined(name) || exists k :: 0 <= k < |sys.types| && sys.types[k].name == name
  {
    InitialEntriesAre(sys);
    var es := PREDEFINED + TypeEntries(sys.types);
    NamesFrom(es, name);
    var i :| 0 <= i < |es| && EntryName(es[i]) == name;
    if i < |PREDEFINED| {
      assert es[i] == PREDEFINED[i];
    } else {
      assert es[i] == ModelEntry(ShallowModel(sys.types[i - |PREDEFINED|]));
      assert sys.types[i - |PREDEFINED|].name == name;
    }
  }

  /** A model entry is a declared context. */
  lemma ModelsFrom(sys: AstSystem, i: nat)
    requires Bodies(sys.modules) && i < |InitialTypes(sys).values| && InitialTypes(sys).values[i].ModelEntry?
    ensures exists k :: 0 <= k < |sys.types| && InitialTypes(sys).values[i] == ModelEntry(ShallowModel(sys.types[k]))
  {
    InitialEntriesAre(sys);
    InitialEntry(sys, i);
    var t :| t in AllTypes(sys) && InitialTypes(sys).values[i] == ModelEntry(ShallowModel(t));
    var k :| 0 <= k < |sys.types| && sys.types[k] == t;
    assert InitialTypes(sys).values[i] == ModelEntry(ShallowModel(sys.types[k]));
  }

  /** `Int` and `Operation` are predefined. */
  lemma PredefinedFound(sys: AstSystem)
    ensures var env := InitialTypes(sys);
            && "Int" in env.ids && env.ids["Int"] < |env.values| && env.values[env.ids["Int"]] == PrimitiveEntry("Int")
            && "Operation" in env.ids && env.ids["Operation"] < |env.values|
            && env.values[env.ids["Operation"]] == InjectedEntry("Operation")
  {
    IntIsFirst();
    PredefinedIsFound(sys, 1);
    OperationIsFirst();
    PredefinedIsFound(sys, 15);
  }

  lemma IntIsFirst()
    ensures PREDEFINED[1] == PrimitiveEntry("Int") && FirstOfItsName(1)
  {
  }

  lemma OperationIsFirst()
    ensures PREDEFINED[15] == InjectedEntry("Operation") && FirstOfItsName(15)
  {
  }

  predicate FirstOfItsName(k: nat)
    requires k < |PREDEFINED|
  {
    forall i :: 0 <= i < k ==> EntryName(PREDEFINED[i]) != EntryName(PREDEFINED[k])
  }

  lemma {:induction false} PredefinedIsFound(sys: AstSystem, k: nat)
    requires k < |PREDEFINED| && FirstOfItsName(k)
    ensures var env, n := InitialTypes(sys), EntryName(PREDEFINED[k]);
            n in env.ids && env.ids[n] < |env.values| && env.values[env.ids[n]] == PREDEFINED[k]
  {
    var es := InitialEntries(sys);
    forall i | 0 <= i <= k ensures es[i] == PREDEFINED[i] {}
    FirstIsFound(es, k);
  }

  // ----- A context with one annotation -----

  const NONE := AnnotationMap([], [])

  function Access(e: Expr): AnnotationMap {
    AnnotationMap([Annotation("access", true, false, [e])], [])
  }

  lemma AccessParts(e: Expr, sc: Scope)
    ensures AnnotationsParts(Access(e), sc) == Parts([Use(e, sc, true, true)], [], [])
  {
    var as_ := Access(e).annotations;
    assert as_[1..] == [] && FirstUndeclared(as_) == 1 && as_[..1] == as_;
    var f := (a: Annotation) => AnnotationParts(a, sc, true, true);
    assert f(as_[0]) == Parts([Use(e, sc, true, true)], [], []);
    var none: seq<Annotation> := [];
    assert Gathered(none, f) == NO_PARTS && AnnotationListParts(none, sc, false, false) == NO_PARTS;
    assert AnnotationListParts(as_, sc, true, true) == f(as_[0]);
  }

  /** A context with one field, whose annotation uses one expression. */
  function Context(name: string, field: string, typ: FieldType, e: Expr): Model {
    Model(name, ContextKind, [Field(field, typ, NONE, NoDefault)], [], Access(e))
  }

  lemma {:induction false} ContextParts(name: string, field: string, typ: FieldType, e: Expr)
    ensures ModelParts(Context(name, field, typ, e)) == Parts([Use(e, ModelScope(name), true, true)], [typ], [])
  {
    var m, sc := Context(name, field, typ, e), ModelScope(name);
    AccessParts(e, sc);
    var f := (x: Field) => FieldParts(x, sc);
    var none: seq<Field> := [];
    assert NONE.annotations[..0] == [] && NONE.annotations[0..] == [];
    assert AnnotationsParts(NONE, sc) == NO_PARTS;
    assert f(m.fields[0]) == Parts([], [typ], []);
    assert m.fields[1..] == none && Gathered(none, f) == NO_PARTS;
    assert FieldsParts(m.fields, sc) == Parts([], [typ], []);
  }

  /** One context, and nothing else. */
  function OneContext(field: string, typ: FieldType, e: Expr): AstSystem {
    AstSystem([Context("C", field, typ, e)], [])
  }

  predicate Untyped(typ: FieldType, e: Expr) {
    typ == ShallowFieldType(typ) && Fresh(e) && Parsed(e)
  }

  /** It starts with the context as it was parsed. */
  lemma {:induction false} ContextStarts(field: string, typ: FieldType, e: Expr) returns (id: nat)
    requires Untyped(typ, e)
    ensures var env := InitialTypes(OneContext(field, typ, e));
            "C" in env.ids && env.ids["C"] == id && id < |env.values| &&
            env.values[id] == ModelEntry(Context("C", field, typ, e))
  {
    ContextParsed(field, typ, e);
    ContextFound(OneContext(field, typ, e), 0);
    id := InitialTypes(OneContext(field, typ, e)).ids["C"];
  }

  /** And passes it. */
  lemma {:induction false} ContextPassed(field: string, typ: FieldType, e: Expr, id: nat)
    requires Untyped(typ, e)
    requires var env := InitialTypes(OneContext(field, typ, e));
             id < |env.values| && env.values[id] == ModelEntry(Context("C", field, typ, e))
    ensures var sys := OneContext(field, typ, e);
            && ParsedSystem(sys) && OfType(id) in IterationSteps(sys)
            && StepParts(InitialState(sys), OfType(id)) == Parts([Use(e, ModelScope("C"), true, true)], [typ], [])
  {
    var sys := OneContext(field, typ, e);
    ContextParsed(field, typ, e);
    ContextParts("C", field, typ, e);
    InitialInv(sys);
    EntriesVisited(sys, InitialState(sys), id);
  }

  lemma {:induction false} ContextParsed(field: string, typ: FieldType, e: Expr)
    requires Untyped(typ, e)
    ensures var c := Context("C", field, typ, e); c == ShallowModel(c) && ParsedModel(c) && NewNames([c])
  {
    assert ShallowExprs([e]) == [ShallowExpr(e)];
  }
}
