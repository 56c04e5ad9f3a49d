/** Expressions without faults: no bare or injected fields, nothing selected from a call, bare identifiers in place. */
module FaultFree {
  import opened Wrappers
  import opened Ast
  import opened Passes
  import opened OneShot
  import opened EnvironmentLemmas
  import opened ExprSoundness
  import opened QuietForms
  import opened Faults

  // ----- Types that can be printed -----

  /** A type of the arena that is not an injected one, also inside others. */
  predicate InArena(t: Type, env: Arena) {
    match t
    case Reference(i) => i < |env.values| && !env.values[i].InjectedEntry?
    case OptionalType(u) => InArena(u, env)
    case SetType(u) => InArena(u, env)
    case ArrayType(u) => InArena(u, env)
    case _ => false
  }

  predicate Presentable(t: Type, env: Arena) {
    InArena(t, env) || t.Primitive? || t.Enumeration? || t.NullType?
  }

  lemma {:induction false} ArenaPrints(t: Type, env: Arena)
    requires InArena(t, env)
    ensures !Unprintable(Deref(t, env))
  {
    match t
    case OptionalType(u) => ArenaPrints(u, env);
    case SetType(u) => ArenaPrints(u, env);
    case ArrayType(u) => ArenaPrints(u, env);
    case Reference(_) =>
  }

  /** A field type that is neither bare nor of an injected type. */
  predicate PlainType(ft: FieldType, env: Arena) {
    !Bare(ft) && (Complete(Declared(ft, env)) ==> InArena(Declared(ft, env), env))
  }

  ghost predicate PlainFields(env: Arena) {
    forall i, j :: 0 <= i < |env.values| && env.values[i].ModelEntry? && 0 <= j < |env.values[i].model.fields| ==>
      PlainType(env.values[i].model.fields[j].typ, env)
  }

  lemma PlainField(c: nat, name: string, env: Arena)
    requires PlainFields(env) && FindField(c, name, env).Some?
    ensures PlainType(FindField(c, name, env).value.typ, env)
  {
    FindFieldFrom(c, name, env);
  }

  /** Names in scope are names of types that can be printed. */
  ghost predicate PlainScope(sc: Scope, env: Arena) {
    forall x :: x in sc ==>
      sc[x] in env.ids && env.ids[sc[x]] < |env.values| && !env.values[env.ids[sc[x]]].InjectedEntry?
  }

  lemma {:induction false} ElementName(t: Type, env: Arena)
    requires InArena(t, env) && env.Valid()
    ensures var n := UnderlyingName(Deref(t, env), env);
            n.Some? && n.value in env.ids && !env.values[env.ids[n.value]].InjectedEntry?
  {
    match t
    case OptionalType(u) => ElementName(u, env);
    case SetType(u) => ElementName(u, env);
    case ArrayType(u) => ElementName(u, env);
    case Reference(i) => assert EntryName(env.values[i]) in env.ids;
  }

  /** What one can select from is in the arena. */
  lemma TargetInArena(t: Type, env: Arena)
    requires Presentable(t, env) && env.Valid()
    ensures var target := TargetOf(Deref(t, env));
            target.OnOptional? || target.OnSet? || target.OnArray? ==>
              !Unprintable(target.of) && forall param, sc :: PlainScope(sc, env) ==>
                                           PlainBody(param, target.of, env, sc)
  {
    if t.OptionalType? { ArenaPrints(t.inner, env); ElementName(t.inner, env); }
    if t.SetType? { ArenaPrints(t.elem, env); ElementName(t.elem, env); }
    if t.ArrayType? { ArenaPrints(t.elem, env); ElementName(t.elem, env); }
  }

  ghost predicate PlainBody(param: string, of: Type, env: Arena, sc: Scope) {
    var inner := BodyScope(param, Some(of), env, sc);
    inner.Some? && PlainScope(inner.value, env)
  }

  // ----- One-shot types can be printed -----

  lemma {:induction false} InferPresentable(e: Expr, env: Arena, sc: Scope)
    requires env.Valid() && PlainFields(env) && PlainScope(sc, env) && Complete(Infer(e, env, sc))
    ensures Presentable(Infer(e, env, sc), env)
    decreases e, 0
  {
    if e.Select? { InferSelectionPresentable(e.sel, env, sc); }
  }

  lemma {:induction false} InferSelectionPresentable(s: Selection, env: Arena, sc: Scope)
    requires env.Valid() && PlainFields(env) && PlainScope(sc, env) && Complete(InferSelection(s, env, sc))
    ensures Presentable(InferSelection(s, env, sc), env)
    decreases s, 0
  {
    match s
    case Single(el, _) => IdentifierPresentable(el.name, env, sc);
    case Path(p, el, _) =>
      var target := Target0(p, env, sc);
      InferPath(s, env, sc);
      SelectionInferredOrError(p, env, sc);
      InferSelectionPresentable(p, env, sc);
      TargetInArena(InferSelection(p, env, sc), env);
      if PassesElement(target, el) {
        assert PlainBody(if el.HofCall? then el.param else "", target.of, env, sc);
        InferElementPresentable(el, target.of, env, sc);
      } else {
        PlainField(target.id, el.name, env);
      }
  }

  lemma IdentifierPresentable(name: string, env: Arena, sc: Scope)
    requires PlainScope(sc, env) && Complete(TypeOfIdentifier(name, env, sc))
    ensures Presentable(TypeOfIdentifier(name, env, sc), env)
  {
  }

  lemma {:induction false} InferElementPresentable(el: Element, of: Type, env: Arena, sc: Scope)
    requires env.Valid() && PlainFields(env) && PlainScope(sc, env) && Complete(InferElement(el, env, sc, of))
    requires el.HofCall? ==> PlainBody(el.param, of, env, sc)
    ensures Presentable(InferElement(el, env, sc, of), env)
    decreases el, 0
  {
    match el
    case Identifier(n, _) => IdentifierPresentable(n, env, sc);
    case HofCall(_, param, body, _) => InferPresentable(body, env, BodyScope(param, Some(of), env, sc).value);
    case NormalCall(_, _, _) =>
  }

  lemma PresentablePrints(t: Type, env: Arena)
    requires Presentable(t, env)
    ensures !Unprintable(Deref(t, env))
  {
    if InArena(t, env) { ArenaPrints(t, env); }
  }

  lemma InferPrints(e: Expr, env: Arena, sc: Scope)
    requires env.Valid() && PlainFields(env) && PlainScope(sc, env)
    ensures var t := Deref(Infer(e, env, sc), env); Complete(t) ==> !Unprintable(t)
  {
    DerefComplete(Infer(e, env, sc), env);
    if Complete(Infer(e, env, sc)) {
      InferPresentable(e, env, sc);
      PresentablePrints(Infer(e, env, sc), env);
    }
  }

  // ----- Nothing selected from a call -----

  /** The selection ends in a call, or in the body of a higher-order call that does. */
  predicate EndsInCall(s: Selection)
    decreases s
  {
    s.Path? && (s.elem.NormalCall? || (s.elem.HofCall? && s.elem.body.Select? && EndsInCall(s.elem.body.sel)))
  }

  /** Nothing is selected from a call. */
  predicate CallsLast(e: Expr)
    decreases e, 0
  {
    match e
    case Lit(_) => true
    case Select(s) => SelectionCallsLast(s)
    case Not(x, _) => CallsLast(x)
    case Logical(_, l, r, _) => CallsLast(l) && CallsLast(r)
    case Relational(_, l, r, _) => CallsLast(l) && CallsLast(r)
  }

  predicate SelectionCallsLast(s: Selection)
    decreases s, 0
  {
    match s
    case Single(_, _) => true
    case Path(p, el, _) => SelectionCallsLast(p) && !EndsInCall(p) && (el.HofCall? ==> CallsLast(el.body))
  }

  lemma {:induction false} DeferredEndsInCall(s: Selection, env: Arena, sc: Scope, loose: bool)
    requires Deferred(s, env, sc, loose)
    ensures EndsInCall(s)
    decreases s, 0
  {
    var target := Target0(s.prefix, env, sc);
    if PassesElement(target, s.elem) && s.elem.HofCall? {
      DeferredEndsInCall(s.elem.body.sel, env, BodyScope(s.elem.param, Some(target.of), env, sc).value, loose);
    }
  }

  // ----- Bare identifiers in place -----

  predicate BareIdentifier(e: Expr) {
    e.Select? && e.sel.Single?
  }

  /** A bare identifier is no operand of a logical operator, is compared only with what it matches, and is selected
      from only if it leads to a composite. */
  predicate IdentifiersPlaced(e: Expr, env: Arena, sc: Scope)
    decreases e, 0
  {
    match e
    case Lit(_) => true
    case Select(s) => SelectionPlaced(s, env, sc)
    case Not(x, _) => IdentifiersPlaced(x, env, sc) && !BareIdentifier(x)
    case Logical(_, l, r, _) =>
      IdentifiersPlaced(l, env, sc) && IdentifiersPlaced(r, env, sc) && !BareIdentifier(l) && !BareIdentifier(r)
    case Relational(op, l, r, _) =>
      && IdentifiersPlaced(l, env, sc) && IdentifiersPlaced(r, env, sc)
      && (Spanless(e) ==> OperandsMatch(op, Deref(Infer(l, env, sc), env), Deref(Infer(r, env, sc), env)))
  }

  predicate SelectionPlaced(s: Selection, env: Arena, sc: Scope)
    decreases s, 0
  {
    match s
    case Single(_, _) => true
    case Path(p, el, _) =>
      var target := Target0(p, env, sc);
      && SelectionPlaced(p, env, sc)
      && (p.Single? && Complete(InferSelection(p, env, sc)) ==> target.OnComposite?)
      && (PassesElement(target, el) ==> BodyPlaced(el, target.of, env, sc))
  }

  predicate BodyPlaced(el: Element, of: Type, env: Arena, sc: Scope)
    decreases el, 0
  {
    el.HofCall? ==>
      var inner := BodyScope(el.param, Some(of), env, sc);
      inner.Some? ==> IdentifiersPlaced(el.body, env, inner.value)
  }

  /** An operand that is no bare identifier has a span, or is a comparison, which is a boolean if it has a type. */
  lemma PlacedOperand(e: Expr, env: Arena, sc: Scope)
    requires env.Valid() && PlainFields(env) && PlainScope(sc, env) && !BareIdentifier(e)
    ensures !OperandOffends(e, Deref(Infer(e, env, sc), env))
  {
    InferPrints(e, env, sc);
  }

  lemma {:induction false} FaultFreeExpr(e: Expr, env: Arena, sc: Scope, m: Mode)
    requires env.Valid() && PlainFields(env) && PlainScope(sc, env) && Parsed(e)
    requires CallsLast(e) && IdentifiersPlaced(e, env, sc)
    ensures !Faulty(e, env, sc, m)
    decreases e, 0
  {
    match e
    case Lit(_) =>
    case Select(s) => FaultFreeSelection(s, env, sc, m);
    case Not(x, _) => FaultFreeExpr(x, env, sc, m); PlacedOperand(x, env, sc);
    case Logical(_, l, r, _) =>
      FaultFreeExpr(l, env, sc, m);
      FaultFreeExpr(r, env, sc, m);
      PlacedOperand(l, env, sc);
      PlacedOperand(r, env, sc);
    case Relational(_, l, r, _) =>
      FaultFreeExpr(l, env, sc, m);
      FaultFreeExpr(r, env, sc, m);
      InferPrints(l, env, sc);
      InferPrints(r, env, sc);
  }

  lemma {:induction false} FaultFreeSelection(s: Selection, env: Arena, sc: Scope, m: Mode)
    requires env.Valid() && PlainFields(env) && PlainScope(sc, env) && SelectionParsed(s)
    requires SelectionCallsLast(s) && SelectionPlaced(s, env, sc)
    ensures !SelectionFaulty(s, env, sc, m)
    decreases s, 0
  {
    if s.Path? {
      var target := Target0(s.prefix, env, sc);
      FaultFreeSelection(s.prefix, env, sc, Under(m, target, s.elem));
      SelectionInferredOrError(s.prefix, env, sc);
      if Deferred(s.prefix, env, sc, Loose(m)) { DeferredEndsInCall(s.prefix, env, sc, Loose(m)); }
      InferPrints(Select(s.prefix), env, sc);
      if target.OnComposite? && s.elem.Identifier? && FindField(target.id, s.elem.name, env).Some? {
        PlainField(target.id, s.elem.name, env);
      }
      if !target.OnNothing? {
        InferSelectionPresentable(s.prefix, env, sc);
        TargetInArena(InferSelection(s.prefix, env, sc), env);
        if PassesElement(target, s.elem) { FaultFreeElement(s.elem, target.of, env, sc, m); }
      }
    }
  }

  lemma {:induction false} FaultFreeElement(el: Element, of: Type, env: Arena, sc: Scope, m: Mode)
    requires env.Valid() && PlainFields(env) && PlainScope(sc, env) && !Unprintable(of) && ElementParsed(el)
    requires forall param :: PlainBody(param, of, env, sc)
    requires el.HofCall? ==> CallsLast(el.body) && BodyPlaced(el, of, env, sc)
    ensures !ElementFaulty(el, of, env, sc, m)
    decreases el, 0
  {
    match el
    case Identifier(_, _) =>
    case HofCall(_, param, body, _) =>
      assert PlainBody(param, of, env, sc);
      FaultFreeExpr(body, env, BodyScope(param, Some(of), env, sc).value, m);
    case NormalCall(_, params, _) =>
      if |params| == 1 { LiteralPrints(params[0], env, sc); }
  }

  lemma LiteralPrints(e: Expr, env: Arena, sc: Scope)
    requires e.Lit?
    ensures !Unprintable(Infer(e, env, sc))
  {
  }
}
