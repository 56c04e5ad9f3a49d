/** Programs that make `build` panic. */
module PanicExamples {
  import opened Wrappers
  import opened Ast
  import opened Passes
  import opened OneShot
  import opened FieldTypeLemmas
  import opened Declarations
  import opened Parts
  import opened Typechecker
  import opened TypecheckerTheorems
  import opened Acceptance
  import opened Rounds
  import opened Faults
  import opened PanicRuns
  import opened PanicOutcomes
  import opened Programs
  import opened Build

  const SELF: Selection := Single(Identifier("self", Defer), Defer)

  function Dot(p: Selection, field: string): Selection {
    Path(p, Identifier(field, Defer), Defer)
  }

  /** A parsed, valid program over which `build` panics. */
  ghost predicate Panicking(sys: AstSystem) {
    ParsedSystem(sys) && ValidSystem(sys) && CertainProgram(sys)
  }

  lemma {:induction false} FaultPanics(field: string, typ: FieldType, e: Expr)
    requires Untyped(typ, e)
    requires Faulty(e, InitialTypes(OneContext(field, typ, e)), ModelScope("C"), Certain(false, false))
    ensures Panicking(OneContext(field, typ, e))
  {
    var sys := OneContext(field, typ, e);
    var id := ContextStarts(field, typ, e);
    ContextPassed(field, typ, e, id);
    var p := StepParts(InitialState(sys), OfType(id));
    assert UseCertain(p.uses[0], InitialTypes(sys), false);
    assert StepCertain(sys, OfType(id));
  }

  lemma {:induction false} SelfIsContext(field: string, typ: FieldType, e: Expr)
    requires Untyped(typ, e)
    ensures var env := InitialTypes(OneContext(field, typ, e));
            var target := Target0(SELF, env, ModelScope("C"));
            target.OnComposite? && FindField(target.id, field, env) == Some(Field(field, typ, NONE, NoDefault))
  {
    var env := InitialTypes(OneContext(field, typ, e));
    var id := ContextStarts(field, typ, e);
    assert InferSelection(SELF, env, ModelScope("C")) == Reference(id) && Deref(Reference(id), env) == Composite(id);
    var m := env.values[id].model;
    assert m.fields + FragmentFields(m.fragments, env) == m.fields;
  }

  // ----- A bare type -----

  const INT_TYPE := Plain("Int", [], false)

  const BARE: Expr := Select(Dot(SELF, "items"))

  /** `context C { items: Set }`, annotated with `self.items`. */
  lemma BareExample()
    ensures Panicking(OneContext("items", Plain("Set", [], false), BARE))
  {
    SelfIsContext("items", Plain("Set", [], false), BARE);
    FaultPanics("items", Plain("Set", [], false), BARE);
  }

  // ----- A deferred slot -----

  const CALLED: Selection := Path(SELF, NormalCall("contains", [Lit(StringLiteral)], Defer), Defer)

  const CALL_SELECTED: Expr := Select(Dot(CALLED, "y"))

  /** `self.contains("x").y`: the call on a composite leaves its slot deferred, and the selection from it prints it. */
  lemma DeferredExample()
    ensures Panicking(OneContext("d", INT_TYPE, CALL_SELECTED))
  {
    var env, sc := InitialTypes(OneContext("d", INT_TYPE, CALL_SELECTED)), ModelScope("C");
    assert ShallowExprs([Lit(StringLiteral)]) == [Lit(StringLiteral)];
    assert Untyped(INT_TYPE, CALL_SELECTED);
    SelfIsContext("d", INT_TYPE, CALL_SELECTED);
    assert Deferred(CALLED, env, sc, false);
    assert InferSelection(CALLED, env, sc) == Error;
    FaultPanics("d", INT_TYPE, CALL_SELECTED);
  }

  // ----- An injected type -----

  const OPERATION := Plain("Operation", [], false)

  const COMPARED: Expr := Relational(Eq, Select(Dot(SELF, "op")), Lit(StringLiteral), Defer)

  lemma {:induction false} OperationSelected()
    ensures var env := InitialTypes(OneContext("op", OPERATION, COMPARED));
            Deref(InferSelection(Dot(SELF, "op"), env, ModelScope("C")), env) == Injected("Operation")
  {
    var env, sc := InitialTypes(OneContext("op", OPERATION, COMPARED)), ModelScope("C");
    SelfIsContext("op", OPERATION, COMPARED);
    PredefinedFound(OneContext("op", OPERATION, COMPARED));
    InferPath(Dot(SELF, "op"), env, sc);
    assert Declared(OPERATION, env) == Reference(env.ids["Operation"]);
  }

  lemma {:induction false} ComparedFaulty()
    ensures Faulty(COMPARED, InitialTypes(OneContext("op", OPERATION, COMPARED)), ModelScope("C"),
                   Certain(false, false))
  {
    OperationSelected();
    assert MismatchOffends(COMPARED, Injected("Operation"), STRING);
  }

  /** `self.op == "x"` of a field `op: Operation`: the mismatch prints the injected type.  Such a program is well typed,
      since it has no modules, and meets every other condition of acceptance. */
  lemma InjectedExample()
    ensures var sys := OneContext("op", OPERATION, COMPARED);
            Panicking(sys) && KnownSystem(sys) && SingleSystem(sys) && WellTyped(sys)
  {
    ComparedFaulty();
    PredefinedFound(OneContext("op", OPERATION, COMPARED));
    FaultPanics("op", OPERATION, COMPARED);
    AcceptableContext("op", OPERATION, COMPARED);
  }

  // ----- A bare identifier -----

  const SELF_COMPARED: Expr := Relational(Eq, Select(SELF), Lit(StringLiteral), Defer)

  lemma {:induction false} SelfComparedFaulty()
    ensures Faulty(SELF_COMPARED, InitialTypes(OneContext("d", INT_TYPE, SELF_COMPARED)), ModelScope("C"),
                   Certain(false, false))
  {
    var env := InitialTypes(OneContext("d", INT_TYPE, SELF_COMPARED));
    var id := ContextStarts("d", INT_TYPE, SELF_COMPARED);
    assert Infer(Select(SELF), env, ModelScope("C")) == Reference(id) && Deref(Reference(id), env) == Composite(id);
    assert MismatchOffends(SELF_COMPARED, Composite(id), STRING);
  }

  /** `self == "x"`: the mismatch takes the span of `self`, which has none.  This program, too, is well typed and meets
      every other condition of acceptance. */
  lemma SpanExample()
    ensures var sys := OneContext("d", INT_TYPE, SELF_COMPARED);
            Panicking(sys) && KnownSystem(sys) && SingleSystem(sys) && WellTyped(sys)
  {
    SelfComparedFaulty();
    PredefinedFound(OneContext("d", INT_TYPE, SELF_COMPARED));
    FaultPanics("d", INT_TYPE, SELF_COMPARED);
    AcceptableContext("d", INT_TYPE, SELF_COMPARED);
  }

  lemma {:induction false} AcceptableContext(field: string, typ: FieldType, e: Expr)
    requires Untyped(typ, e) && WellFormedType(typ) && NamesKnown(typ, InitialTypes(OneContext(field, typ, e)).ids)
    ensures var sys := OneContext(field, typ, e); KnownSystem(sys) && SingleSystem(sys) && WellTyped(sys)
  {
    InitialEntriesAre(OneContext(field, typ, e));
    ContextErrors(field, typ, e);
  }

  /** A context is a model, and may stand outside a module. */
  lemma {:induction false} ContextErrors(field: string, typ: FieldType, e: Expr)
    requires Untyped(typ, e)
    ensures var sys := OneContext(field, typ, e);
            RootErrors(sys.types, InitialTypes(sys)) == [] && NonModelErrors(sys.types, InitialTypes(sys)) == []
  {
    var id := ContextStarts(field, typ, e);
    assert OneContext(field, typ, e).types[..0] == [];
  }
}
