/**
 Expressions over which a pass panics, read off the declarations.

 A pass panics where it converts a field type that is a bare `Set` or `Array`, and where a
 diagnostic prints a type that cannot be printed (one of the injected types, or a slot that
 has been left deferred) or points at the span of a bare identifier, which has none.
 */
module Faults {
  import opened Wrappers
  import opened Ast
  import opened Passes
  import opened OneShot
  import opened EnvironmentLemmas
  import opened ExprSoundness
  import opened QuietForms

  /** `Type::fmt` fails. */
  predicate Unprintable(t: Type) {
    match t
    case Injected(_) => true
    case Defer => true
    case Error => true
    case OptionalType(u) => Unprintable(u)
    case SetType(u) => Unprintable(u)
    case ArrayType(u) => Unprintable(u)
    case _ => false
  }

  /** `AstAccessExpr::span` fails: a bare identifier has no span, and a comparison has those of its operands. */
  predicate Spanless(e: Expr) {
    match e
    case Select(s) => s.Single?
    case Relational(_, l, r, _) => Spanless(l) || Spanless(r)
    case _ => false
  }

  /** A resolved operand that is not a boolean is reported; its diagnostic prints the type and takes the span. */
  predicate OperandOffends(e: Expr, t: Type) {
    Complete(t) && t != BOOLEAN && (Unprintable(t) || Spanless(e))
  }

  /** And so is a resolved prefix that nothing can be selected from. */
  predicate PrefixOffends(p: Selection, t: Type) {
    Complete(t) && (Unprintable(t) || p.Single?)
  }

  // ----- Bare types -----

  /** `Set` or `Array` without a parameter, also inside others. */
  predicate Bare(ft: FieldType) {
    match ft
    case OptionalField(u) => Bare(u)
    case Plain(n, params, _) => (n == "Set" || n == "Array") && (|params| == 0 || Bare(params[0]))
  }

  predicate BareField(c: nat, name: string, env: Arena) {
    FindField(c, name, env).Some? && Bare(FindField(c, name, env).value.typ)
  }

  lemma {:induction false} BareUntyped(ft: FieldType, env: Arena)
    requires Bare(ft)
    ensures Incomplete(Declared(ft, env)) && !WellFormedType(ft)
  {
    match ft
    case OptionalField(u) => BareUntyped(u, env);
    case Plain(n, params, _) => if |params| > 0 { BareUntyped(params[0], env); }
  }

  lemma {:induction false} BareShape(a: FieldType, b: FieldType)
    requires ShallowFieldType(a) == ShallowFieldType(b)
    ensures Bare(a) <==> Bare(b)
  {
    match a
    case OptionalField(u) => BareShape(u, b.inner);
    case Plain(n, params, _) =>
      assert |params| == |ShallowFieldTypes(params)| == |b.params|;
      if |params| > 0 {
        assert ShallowFieldType(params[0]) == ShallowFieldTypes(params)[0] == ShallowFieldType(b.params[0]);
        BareShape(params[0], b.params[0]);
      }
  }

  // ----- Faults -----

  /**
   How surely a fault is met.  A `Possible` one is met in some states only.  A `Certain` one is met by every pass in a
   settled environment.  A call on a composite leaves its slot deferred only if the composite was known when the
   call was first passed: always if the environment was settled by then (`loose`), or if the composite is
   a single identifier.  The prefix of a plain field on a set is `hidden`: it may never settle.
   */
  datatype Mode = Possible | Certain(loose: bool, hidden: bool)

  predicate Loose(m: Mode) {
    m.Possible? || m.loose
  }

  predicate Hidden(m: Mode) {
    m.Certain? && m.hidden
  }

  function Under(m: Mode, target: Target, el: Element): Mode {
    if m.Certain? && target.OnSet? && el.Identifier? then Certain(m.loose, true) else m
  }

  function Target0(p: Selection, env: Arena, sc: Scope): Target {
    TargetOf(Deref(InferSelection(p, env, sc), env))
  }

  predicate LongContains(el: Element) {
    el.NormalCall? && el.name == "contains" && |el.params| > 1
  }

  /** The selection has no type, and its slot stays deferred. */
  predicate Deferred(s: Selection, env: Arena, sc: Scope, loose: bool)
    decreases s, 0
  {
    match s
    case Single(_, _) => false
    case Path(p, el, _) =>
      var target := Target0(p, env, sc);
      if PassesElement(target, el) then LongContains(el) || BodyDeferred(el, target.of, env, sc, loose)
      else target.OnComposite? && el.NormalCall? && (loose || p.Single?)
  }

  predicate BodyDeferred(el: Element, of: Type, env: Arena, sc: Scope, loose: bool)
    decreases el, 0
  {
    el.HofCall? && el.body.Select? &&
    var inner := BodyScope(el.param, Some(of), env, sc);
    inner.Some? && Deferred(el.body.sel, env, inner.value, loose)
  }

  predicate Faulty(e: Expr, env: Arena, sc: Scope, m: Mode)
    decreases e, 0
  {
    match e
    case Lit(_) => false
    case Select(s) => SelectionFaulty(s, env, sc, m)
    case Not(x, _) => Faulty(x, env, sc, m) || OperandOffends(x, Deref(Infer(x, env, sc), env))
    case Logical(_, l, r, _) =>
      || Faulty(l, env, sc, m) || OperandOffends(l, Deref(Infer(l, env, sc), env))
      || (!Hidden(m) && (Faulty(r, env, sc, m) || OperandOffends(r, Deref(Infer(r, env, sc), env))))
    case Relational(_, l, r, _) =>
      || Faulty(l, env, sc, m)
      || (!Hidden(m) &&
          (Faulty(r, env, sc, m) || MismatchOffends(e, Deref(Infer(l, env, sc), env), Deref(Infer(r, env, sc), env))))
  }

  /** Operands of a comparison that do not match: both types are printed, and both spans taken. */
  predicate MismatchOffends(e: Expr, l: Type, r: Type)
    requires e.Relational?
  {
    Complete(l) && Complete(r) && !OperandsMatch(e.rop, l, r) && (Unprintable(l) || Unprintable(r) || Spanless(e))
  }

  predicate SelectionFaulty(s: Selection, env: Arena, sc: Scope, m: Mode)
    decreases s, 0
  {
    match s
    case Single(_, _) => false
    case Path(p, el, _) =>
      var target := Target0(p, env, sc);
      || SelectionFaulty(p, env, sc, Under(m, target, el))
      || (PassesElement(target, el) && ElementFaulty(el, target.of, env, sc, m))
      || (target.OnComposite? && el.Identifier? && BareField(target.id, el.name, env))
      || (target.OnSet? && el.Identifier? && Unprintable(target.of))
      || (target.OnNothing? &&
          (PrefixOffends(p, Deref(InferSelection(p, env, sc), env)) || Deferred(p, env, sc, Loose(m))))
  }

  predicate ElementFaulty(el: Element, of: Type, env: Arena, sc: Scope, m: Mode)
    decreases el, 0
  {
    match el
    case Identifier(_, _) => false
    case HofCall(_, param, body, _) =>
      var inner := BodyScope(param, Some(of), env, sc);
      inner.Some? && Faulty(body, env, inner.value, m)
    case NormalCall(n, params, _) => n == "contains" && |params| == 1 && CallOffends(of, Infer(params[0], env, sc))
  }

  /** A parameter of `contains` that does not match the elements: both types are printed. */
  predicate CallOffends(of: Type, param: Type) {
    !IdenticalMatch(of, param) && (Unprintable(of) || Unprintable(param))
  }

  // ----- What is faulty has no type -----

  /** The one-shot type of a selection, by what it selects from. */
  lemma InferPath(s: Selection, env: Arena, sc: Scope)
    requires s.Path?
    ensures var target := Target0(s.prefix, env, sc);
            && (PassesElement(target, s.elem) ==>
                InferSelection(s, env, sc) == InferElement(s.elem, env, sc, target.of))
            && (!PassesElement(target, s.elem) && !(target.OnComposite? && s.elem.Identifier?) ==>
                InferSelection(s, env, sc) == Error)
  {
  }

  lemma InferCall(el: Element, env: Arena, sc: Scope, of: Type)
    requires el.NormalCall?
    ensures !(el.name == "contains" && |el.params| == 1) ==> InferElement(el, env, sc, of) == Error
    ensures el.name == "contains" && |el.params| == 1 && !IdenticalMatch(of, Infer(el.params[0], env, sc)) ==>
              InferElement(el, env, sc, of) == Error
  {
  }

  lemma {:induction false} DeferredUntyped(s: Selection, env: Arena, sc: Scope, loose: bool)
    requires Deferred(s, env, sc, loose)
    ensures Incomplete(InferSelection(s, env, sc))
    decreases s, 0
  {
    var target := Target0(s.prefix, env, sc);
    InferPath(s, env, sc);
    if PassesElement(target, s.elem) {
      if s.elem.HofCall? {
        var inner := BodyScope(s.elem.param, Some(target.of), env, sc).value;
        DeferredUntyped(s.elem.body.sel, env, inner, loose);
        assert InferElement(s.elem, env, sc, target.of) == Infer(s.elem.body, env, inner);
      } else {
        InferCall(s.elem, env, sc, target.of);
      }
    }
  }

  lemma {:induction false} FaultyUntyped(e: Expr, env: Arena, sc: Scope, m: Mode)
    requires Faulty(e, env, sc, m)
    ensures Incomplete(Infer(e, env, sc))
    decreases e, 0
  {
    match e
    case Select(s) => FaultySelectionUntyped(s, env, sc, m);
    case Not(x, _) =>
      if Faulty(x, env, sc, m) { FaultyUntyped(x, env, sc, m); UntypedDeref(Infer(x, env, sc), env); }
    case Logical(_, l, r, _) =>
      if Faulty(l, env, sc, m) { FaultyUntyped(l, env, sc, m); UntypedDeref(Infer(l, env, sc), env); }
      if Faulty(r, env, sc, m) { FaultyUntyped(r, env, sc, m); UntypedDeref(Infer(r, env, sc), env); }
    case Relational(op, l, r, _) =>
      if Faulty(l, env, sc, m) { FaultyUntyped(l, env, sc, m); UntypedDeref(Infer(l, env, sc), env); }
      if Faulty(r, env, sc, m) { FaultyUntyped(r, env, sc, m); UntypedDeref(Infer(r, env, sc), env); }
  }

  lemma UntypedDeref(t: Type, env: Arena)
    requires Incomplete(t)
    ensures Incomplete(Deref(t, env))
  {
    DerefComplete(t, env);
  }

  lemma {:induction false} FaultySelectionUntyped(s: Selection, env: Arena, sc: Scope, m: Mode)
    requires SelectionFaulty(s, env, sc, m)
    ensures Incomplete(InferSelection(s, env, sc))
    decreases s, 0
  {
    var target := Target0(s.prefix, env, sc);
    InferPath(s, env, sc);
    if SelectionFaulty(s.prefix, env, sc, Under(m, target, s.elem)) {
      FaultySelectionUntyped(s.prefix, env, sc, Under(m, target, s.elem));
      SelectionInferredOrError(s.prefix, env, sc);
    } else if PassesElement(target, s.elem) {
      if s.elem.HofCall? {
        var inner := BodyScope(s.elem.param, Some(target.of), env, sc).value;
        FaultyUntyped(s.elem.body, env, inner, m);
        assert InferElement(s.elem, env, sc, target.of) == Infer(s.elem.body, env, inner);
      } else {
        InferCall(s.elem, env, sc, target.of);
      }
    } else if target.OnComposite? && s.elem.Identifier? {
      BareUntyped(FindField(target.id, s.elem.name, env).value.typ, env);
    }
  }

  // ----- The shape decides -----

  lemma {:induction false} SameDeferred(a: Selection, b: Selection, env: Arena, sc: Scope, loose: bool)
    requires ShallowSelection(a) == ShallowSelection(b) && Deferred(a, env, sc, loose)
    ensures Deferred(b, env, sc, loose)
    decreases a, 0
  {
    SameInferSelection(a.prefix, b.prefix, env, sc);
    SameElements(a.elem, b.elem);
    var target := Target0(a.prefix, env, sc);
    if PassesElement(target, a.elem) && a.elem.HofCall? {
      SameDeferred(a.elem.body.sel, b.elem.body.sel, env, BodyScope(a.elem.param, Some(target.of), env, sc).value,
                   loose);
    }
  }

  lemma SameElements(a: Element, b: Element)
    requires ShallowElement(a) == ShallowElement(b)
    ensures a.NormalCall? ==> b.NormalCall? && a.name == b.name && |a.params| == |b.params|
    ensures a.NormalCall? ==> forall i :: 0 <= i < |a.params| ==> ShallowExpr(a.params[i]) == ShallowExpr(b.params[i])
    ensures forall target :: PassesElement(target, a) == PassesElement(target, b)
  {
    if a.NormalCall? {
      assert |a.params| == |ShallowExprs(a.params)| == |b.params|;
      forall i | 0 <= i < |a.params| ensures ShallowExpr(a.params[i]) == ShallowExpr(b.params[i]) {
        assert ShallowExpr(a.params[i]) == ShallowExprs(a.params)[i] == ShallowExpr(b.params[i]);
      }
    }
  }

  lemma {:induction false} SameSpanless(a: Expr, b: Expr)
    requires ShallowExpr(a) == ShallowExpr(b)
    ensures Spanless(a) == Spanless(b)
  {
    if a.Relational? {
      SameSpanless(a.left, b.left);
      SameSpanless(a.right, b.right);
    }
  }

  lemma {:induction false} SameFaulty(a: Expr, b: Expr, env: Arena, sc: Scope, m: Mode)
    requires ShallowExpr(a) == ShallowExpr(b) && Faulty(a, env, sc, m)
    ensures Faulty(b, env, sc, m)
    decreases a, 0
  {
    match a
    case Select(s) => SameSelectionFaulty(s, b.sel, env, sc, m);
    case Not(x, _) =>
      SameInfer(x, b.arg, env, sc);
      SameSpanless(x, b.arg);
      if Faulty(x, env, sc, m) { SameFaulty(x, b.arg, env, sc, m); }
    case Logical(_, l, r, _) =>
      SameInfer(l, b.left, env, sc);
      SameInfer(r, b.right, env, sc);
      SameSpanless(l, b.left);
      SameSpanless(r, b.right);
      if Faulty(l, env, sc, m) { SameFaulty(l, b.left, env, sc, m); }
      if Faulty(r, env, sc, m) { SameFaulty(r, b.right, env, sc, m); }
    case Relational(_, l, r, _) =>
      SameInfer(l, b.left, env, sc);
      SameInfer(r, b.right, env, sc);
      SameSpanless(a, b);
      if Faulty(l, env, sc, m) { SameFaulty(l, b.left, env, sc, m); }
      if Faulty(r, env, sc, m) { SameFaulty(r, b.right, env, sc, m); }
  }

  lemma {:induction false} SameSelectionFaulty(a: Selection, b: Selection, env: Arena, sc: Scope, m: Mode)
    requires ShallowSelection(a) == ShallowSelection(b) && SelectionFaulty(a, env, sc, m)
    ensures SelectionFaulty(b, env, sc, m)
    decreases a, 0
  {
    SameInferSelection(a.prefix, b.prefix, env, sc);
    SameElements(a.elem, b.elem);
    var target := Target0(a.prefix, env, sc);
    if SelectionFaulty(a.prefix, env, sc, Under(m, target, a.elem)) {
      SameSelectionFaulty(a.prefix, b.prefix, env, sc, Under(m, target, a.elem));
    } else if PassesElement(target, a.elem) {
      SameElementFaulty(a.elem, b.elem, target.of, env, sc, m);
    } else if target.OnNothing? && Deferred(a.prefix, env, sc, Loose(m)) {
      SameDeferred(a.prefix, b.prefix, env, sc, Loose(m));
    }
  }

  lemma {:induction false} SameElementFaulty(a: Element, b: Element, of: Type, env: Arena, sc: Scope, m: Mode)
    requires ShallowElement(a) == ShallowElement(b) && ElementFaulty(a, of, env, sc, m)
    ensures ElementFaulty(b, of, env, sc, m)
    decreases a, 0
  {
    SameElements(a, b);
    match a
    case HofCall(_, param, body, _) => SameFaulty(body, b.body, env, BodyScope(param, Some(of), env, sc).value, m);
    case NormalCall(_, params, _) => SameInfer(params[0], b.params[0], env, sc);
  }

  // ----- Certain faults are possible, and when they are the only ones -----

  /** Every call on a composite is one on a single identifier. */
  predicate DirectCalls(s: Selection, env: Arena, sc: Scope)
    decreases s, 0
  {
    match s
    case Single(_, _) => true
    case Path(p, el, _) =>
      var target := Target0(p, env, sc);
      && DirectCalls(p, env, sc)
      && (target.OnComposite? && el.NormalCall? ==> p.Single?)
      && (PassesElement(target, el) ==> BodyDirectCalls(el, target.of, env, sc))
  }

  predicate BodyDirectCalls(el: Element, of: Type, env: Arena, sc: Scope)
    decreases el, 0
  {
    el.HofCall? ==>
      var inner := BodyScope(el.param, Some(of), env, sc);
      inner.Some? ==> ExprDirectCalls(el.body, env, inner.value)
  }

  predicate ExprDirectCalls(e: Expr, env: Arena, sc: Scope)
    decreases e, 0
  {
    match e
    case Lit(_) => true
    case Select(s) => DirectCalls(s, env, sc)
    case Not(x, _) => ExprDirectCalls(x, env, sc)
    case Logical(_, l, r, _) => ExprDirectCalls(l, env, sc) && ExprDirectCalls(r, env, sc)
    case Relational(_, l, r, _) => ExprDirectCalls(l, env, sc) && ExprDirectCalls(r, env, sc)
  }

  lemma {:induction false} DeferredLoosely(s: Selection, env: Arena, sc: Scope)
    ensures Deferred(s, env, sc, false) ==> Deferred(s, env, sc, true)
    ensures DirectCalls(s, env, sc) ==> Deferred(s, env, sc, true) == Deferred(s, env, sc, false)
    decreases s, 0
  {
    if s.Path? {
      var target := Target0(s.prefix, env, sc);
      if PassesElement(target, s.elem) { BodyDeferredLoosely(s.elem, target.of, env, sc); }
    }
  }

  lemma {:induction false} BodyDeferredLoosely(el: Element, of: Type, env: Arena, sc: Scope)
    ensures BodyDeferred(el, of, env, sc, false) ==> BodyDeferred(el, of, env, sc, true)
    ensures BodyDirectCalls(el, of, env, sc) ==>
              BodyDeferred(el, of, env, sc, true) == BodyDeferred(el, of, env, sc, false)
    decreases el, 0
  {
    if el.HofCall? && el.body.Select? && BodyScope(el.param, Some(of), env, sc).Some? {
      var inner := BodyScope(el.param, Some(of), env, sc).value;
      DeferredLoosely(el.body.sel, env, inner);
      assert ExprDirectCalls(el.body, env, inner) == DirectCalls(el.body.sel, env, inner);
    }
  }

  lemma {:induction false} CertainPossible(e: Expr, env: Arena, sc: Scope, m: Mode)
    requires Faulty(e, env, sc, m)
    ensures Faulty(e, env, sc, Possible)
    decreases e, 0
  {
    match e
    case Select(s) => CertainSelectionPossible(s, env, sc, m);
    case Not(x, _) => if Faulty(x, env, sc, m) { CertainPossible(x, env, sc, m); }
    case Logical(_, l, r, _) =>
      if Faulty(l, env, sc, m) { CertainPossible(l, env, sc, m); }
      if Faulty(r, env, sc, m) { CertainPossible(r, env, sc, m); }
    case Relational(_, l, r, _) =>
      if Faulty(l, env, sc, m) { CertainPossible(l, env, sc, m); }
      if Faulty(r, env, sc, m) { CertainPossible(r, env, sc, m); }
  }

  lemma {:induction false} CertainSelectionPossible(s: Selection, env: Arena, sc: Scope, m: Mode)
    requires SelectionFaulty(s, env, sc, m)
    ensures SelectionFaulty(s, env, sc, Possible)
    decreases s, 0
  {
    var target := Target0(s.prefix, env, sc);
    DeferredLoosely(s.prefix, env, sc);
    if SelectionFaulty(s.prefix, env, sc, Under(m, target, s.elem)) {
      CertainSelectionPossible(s.prefix, env, sc, Under(m, target, s.elem));
    } else if PassesElement(target, s.elem) && s.elem.HofCall? {
      CertainPossible(s.elem.body, env, BodyScope(s.elem.param, Some(target.of), env, sc).value, m);
    }
  }

  /** Without plain fields on sets, and without calls on fields unless the environment is settled by then, every
      fault is certain. */
  lemma {:induction false} PossibleCertain(e: Expr, env: Arena, sc: Scope, loose: bool)
    requires SetFieldFree(e, env, sc) && (loose || ExprDirectCalls(e, env, sc)) && Faulty(e, env, sc, Possible)
    ensures Faulty(e, env, sc, Certain(loose, false))
    decreases e, 0
  {
    match e
    case Select(s) => PossibleSelectionCertain(s, env, sc, loose);
    case Not(x, _) => if Faulty(x, env, sc, Possible) { PossibleCertain(x, env, sc, loose); }
    case Logical(_, l, r, _) =>
      if Faulty(l, env, sc, Possible) { PossibleCertain(l, env, sc, loose); }
      if Faulty(r, env, sc, Possible) { PossibleCertain(r, env, sc, loose); }
    case Relational(_, l, r, _) =>
      if Faulty(l, env, sc, Possible) { PossibleCertain(l, env, sc, loose); }
      if Faulty(r, env, sc, Possible) { PossibleCertain(r, env, sc, loose); }
  }

  lemma {:induction false} PossibleSelectionCertain(s: Selection, env: Arena, sc: Scope, loose: bool)
    requires SelectionSetFieldFree(s, env, sc) && (loose || DirectCalls(s, env, sc)) &&
             SelectionFaulty(s, env, sc, Possible)
    ensures SelectionFaulty(s, env, sc, Certain(loose, false))
    decreases s, 0
  {
    var target := Target0(s.prefix, env, sc);
    DeferredLoosely(s.prefix, env, sc);
    if SelectionFaulty(s.prefix, env, sc, Possible) {
      PossibleSelectionCertain(s.prefix, env, sc, loose);
    } else if PassesElement(target, s.elem) && s.elem.HofCall? {
      PossibleCertain(s.elem.body, env, BodyScope(s.elem.param, Some(target.of), env, sc).value, loose);
    }
  }
}
