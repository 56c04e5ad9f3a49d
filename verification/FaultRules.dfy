/** What makes a pass panic, by the typing rules. */
module FaultRules {
  import opened Wrappers
  import opened Ast
  import opened Passes
  import opened OneShot
  import opened EnvironmentLemmas
  import opened ExprSoundness
  import opened QuietForms
  import opened Faults
  import opened TypingRules

  // ----- The rules -----

  /** A type that involves an injected one cannot be shown. */
  predicate Unshown(t: Type) {
    match t
    case Injected(_) => true
    case OptionalType(u) => Unshown(u)
    case SetType(u) => Unshown(u)
    case ArrayType(u) => Unshown(u)
    case _ => false
  }

  predicate NoSpan(e: Expr) {
    match e
    case Select(Single(_, _)) => true
    case Relational(_, l, r, _) => NoSpan(l) || NoSpan(r)
    case _ => false
  }

  /** `Set` or `Array` without a parameter, or of such, or an optional of such. */
  predicate LacksParameter(ft: FieldType) {
    match ft
    case OptionalField(u) => LacksParameter(u)
    case Plain(n, params, _) => n in {"Set", "Array"} && (params == [] || LacksParameter(params[0]))
  }

  /** A typed operand that is not a boolean, and cannot be reported. */
  ghost predicate BadOperand(e: Expr, env: Arena, sc: Scope) {
    exists t :: Value(t) && Typed(e, env, sc, t) && t != A_BOOLEAN && (Unshown(t) || NoSpan(e))
  }

  ghost predicate BadComparison(e: Expr, env: Arena, sc: Scope)
    requires e.Relational?
  {
    exists a, b :: Value(a) && Value(b) && Typed(e.left, env, sc, a) && Typed(e.right, env, sc, b) &&
                   !Comparable(e.rop, a, b) && (Unshown(a) || Unshown(b) || NoSpan(e))
  }

  ghost predicate Wrong(e: Expr, env: Arena, sc: Scope)
    decreases e, 0
  {
    match e
    case Lit(_) => false
    case Select(s) => WrongSelection(s, env, sc)
    case Not(x, _) => Wrong(x, env, sc) || BadOperand(x, env, sc)
    case Logical(_, l, r, _) =>
      Wrong(l, env, sc) || Wrong(r, env, sc) || BadOperand(l, env, sc) || BadOperand(r, env, sc)
    case Relational(_, l, r, _) => Wrong(l, env, sc) || Wrong(r, env, sc) || BadComparison(e, env, sc)
  }

  ghost predicate WrongSelection(s: Selection, env: Arena, sc: Scope)
    decreases s, 1
  {
    s.Path? &&
    (|| WrongSelection(s.prefix, env, sc)
     || HangsOpen(s.prefix, env, sc)
     || exists u :: Value(u) && SelectionTyped(s.prefix, env, sc, u) && WrongFrom(s, u, env, sc))
  }

  /** The selection from a value of type `u`. */
  ghost predicate WrongFrom(s: Selection, u: Type, env: Arena, sc: Scope)
    requires s.Path?
    decreases s, 0
  {
    match u
    case Composite(c) => s.elem.Identifier? && FieldLacksParameter(c, s.elem.name, env)
    case OptionalType(Composite(c)) => s.elem.Identifier? && FieldLacksParameter(c, s.elem.name, env)
    case OptionalType(v) => WrongElement(s.elem, v, env, sc)
    case SetType(v) => if s.elem.Identifier? then Unshown(v) else WrongElement(s.elem, v, env, sc)
    case ArrayType(v) => s.elem.NormalCall? && WrongElement(s.elem, v, env, sc)
    case _ => Unshown(u) || s.prefix.Single?
  }

  ghost predicate FieldLacksParameter(c: nat, name: string, env: Arena) {
    exists f :: HasField(c, name, env, f) && LacksParameter(f.typ)
  }

  /** A call on elements of type `v`. */
  ghost predicate WrongElement(el: Element, v: Type, env: Arena, sc: Scope)
    decreases el, 1
  {
    match el
    case Identifier(_, _) => false
    case HofCall(_, param, body, _) => exists n :: InnermostName(v, env, n) && WrongBody(el, n, env, sc)
    case NormalCall(n, params, _) => n == "contains" && |params| == 1 && BadParameter(params[0], v, env, sc)
  }

  ghost predicate WrongBody(el: Element, n: string, env: Arena, sc: Scope)
    requires el.HofCall?
    decreases el, 0
  {
    Wrong(el.body, env, sc[el.param := n])
  }

  ghost predicate BadParameter(p: Expr, v: Type, env: Arena, sc: Scope) {
    exists a :: Value(a) && Typed(p, env, sc, a) && !Alike(v, a) && (Unshown(v) || Unshown(a))
  }

  /** The slot of the selection stays open: a call on a composite, a `contains` with several parameters, or a
      higher-order call whose body is such a selection. */
  ghost predicate HangsOpen(s: Selection, env: Arena, sc: Scope)
    decreases s, 1
  {
    s.Path? && exists u :: Value(u) && SelectionTyped(s.prefix, env, sc, u) && HangsFrom(s, u, env, sc)
  }

  ghost predicate HangsFrom(s: Selection, u: Type, env: Arena, sc: Scope)
    requires s.Path?
    decreases s, 0
  {
    match u
    case Composite(_) => s.elem.NormalCall?
    case OptionalType(Composite(_)) => s.elem.NormalCall?
    case OptionalType(v) => ManyParameters(s.elem) || BodyHangs(s.elem, v, env, sc)
    case SetType(v) => ManyParameters(s.elem) || BodyHangs(s.elem, v, env, sc)
    case ArrayType(_) => ManyParameters(s.elem)
    case _ => false
  }

  predicate ManyParameters(el: Element) {
    el.NormalCall? && el.name == "contains" && |el.params| > 1
  }

  ghost predicate BodyHangs(el: Element, v: Type, env: Arena, sc: Scope)
    decreases el, 1
  {
    el.HofCall? && el.body.Select? && exists n :: InnermostName(v, env, n) && HangsBody(el, n, env, sc)
  }

  ghost predicate HangsBody(el: Element, n: string, env: Arena, sc: Scope)
    requires el.HofCall? && el.body.Select?
    decreases el, 0
  {
    HangsOpen(el.body.sel, env, sc[el.param := n])
  }

  // ----- They are the possible faults -----

  lemma {:induction false} UnshownExactly(t: Type)
    requires Value(t)
    ensures Unshown(t) <==> Unprintable(t)
  {
    match t
    case OptionalType(u) => UnshownExactly(u);
    case SetType(u) => UnshownExactly(u);
    case ArrayType(u) => UnshownExactly(u);
    case _ =>
  }

  lemma {:induction false} NoSpanExactly(e: Expr)
    ensures NoSpan(e) <==> Spanless(e)
  {
    if e.Relational? {
      NoSpanExactly(e.left);
      NoSpanExactly(e.right);
    }
  }

  lemma {:induction false} LacksExactly(ft: FieldType)
    ensures LacksParameter(ft) <==> Bare(ft)
  {
    match ft
    case OptionalField(u) => LacksExactly(u);
    case Plain(_, params, _) => if params != [] { LacksExactly(params[0]); }
  }

  lemma FieldLacksExactly(c: nat, name: string, env: Arena)
    ensures FieldLacksParameter(c, name, env) <==> BareField(c, name, env)
  {
    if f :| HasField(c, name, env, f) && LacksParameter(f.typ) {
      HasFieldMeans(c, name, env, f);
      LacksExactly(f.typ);
    }
    if FindField(c, name, env).Some? {
      var f := FindField(c, name, env).value;
      HasFieldMeans(c, name, env, f);
      LacksExactly(f.typ);
    }
  }

  /** The value type of a typed expression, and the only one. */
  lemma OnlyType(e: Expr, env: Arena, sc: Scope) returns (t: Type)
    requires env.Valid() && ScopeOk(sc, env) && Parsed(e)
    ensures t == Deref(Infer(e, env, sc), env)
    ensures Complete(t) <==> Complete(Infer(e, env, sc))
    ensures Complete(t) ==> Value(t)
    ensures forall u :: Typed(e, env, sc, u) <==> Complete(t) && u == t
  {
    t := Deref(Infer(e, env, sc), env);
    DerefComplete(Infer(e, env, sc), env);
    if Complete(Infer(e, env, sc)) {
      InferredComplete(e, env, sc, t);
      DerefValue(Infer(e, env, sc), env);
    }
    forall u ensures Typed(e, env, sc, u) <==> Complete(t) && u == t { TypedExactly(e, env, sc, u); }
  }

  lemma OnlySelected(p: Selection, env: Arena, sc: Scope) returns (t: Type)
    requires env.Valid() && ScopeOk(sc, env) && SelectionParsed(p)
    ensures t == Deref(InferSelection(p, env, sc), env)
    ensures Complete(t) <==> Complete(InferSelection(p, env, sc))
    ensures Complete(t) ==> Value(t)
    ensures forall u :: SelectionTyped(p, env, sc, u) <==> Complete(t) && u == t
  {
    t := OnlyType(Select(p), env, sc);
    forall u ensures SelectionTyped(p, env, sc, u) <==> Complete(t) && u == t { SelectionTypedExactly(p, env, sc, u); }
  }

  lemma BadOperandExactly(e: Expr, env: Arena, sc: Scope)
    requires env.Valid() && ScopeOk(sc, env) && Parsed(e)
    ensures BadOperand(e, env, sc) <==> OperandOffends(e, Deref(Infer(e, env, sc), env))
  {
    var t := OnlyType(e, env, sc);
    NoSpanExactly(e);
    if Complete(t) { UnshownExactly(t); }
  }

  lemma BadComparisonExactly(e: Expr, env: Arena, sc: Scope)
    requires env.Valid() && ScopeOk(sc, env) && Parsed(e) && e.Relational?
    ensures BadComparison(e, env, sc) <==>
            MismatchOffends(e, Deref(Infer(e.left, env, sc), env), Deref(Infer(e.right, env, sc), env))
  {
    var a := OnlyType(e.left, env, sc);
    var b := OnlyType(e.right, env, sc);
    NoSpanExactly(e);
    ComparableMeans(e.rop, a, b);
    if Complete(a) { UnshownExactly(a); }
    if Complete(b) { UnshownExactly(b); }
  }

  /** An expression is wrong by the rules exactly if it has a possible fault. */
  lemma {:induction false} WrongExactly(e: Expr, env: Arena, sc: Scope)
    requires env.Valid() && ScopeOk(sc, env) && Parsed(e)
    ensures Wrong(e, env, sc) <==> Faulty(e, env, sc, Possible)
    decreases e, 0
  {
    match e
    case Lit(_) =>
    case Select(s) => WrongSelectionExactly(s, env, sc);
    case Not(x, _) => WrongExactly(x, env, sc); BadOperandExactly(x, env, sc);
    case Logical(_, l, r, _) =>
      WrongExactly(l, env, sc);
      WrongExactly(r, env, sc);
      BadOperandExactly(l, env, sc);
      BadOperandExactly(r, env, sc);
    case Relational(_, l, r, _) =>
      WrongExactly(l, env, sc);
      WrongExactly(r, env, sc);
      BadComparisonExactly(e, env, sc);
  }

  lemma {:induction false} HangsExactly(s: Selection, env: Arena, sc: Scope)
    requires env.Valid() && ScopeOk(sc, env) && SelectionParsed(s)
    ensures HangsOpen(s, env, sc) <==> Deferred(s, env, sc, true)
    decreases s, 1
  {
    if s.Path? {
      var u := OnlySelected(s.prefix, env, sc);
      SelectionInferredOrError(s.prefix, env, sc);
      if Complete(u) { HangsFromExactly(s, u, env, sc); }
    }
  }

  lemma {:induction false} HangsFromExactly(s: Selection, u: Type, env: Arena, sc: Scope)
    requires env.Valid() && ScopeOk(sc, env) && SelectionParsed(s) && s.Path?
    requires u == Deref(InferSelection(s.prefix, env, sc), env) && Complete(u) &&
             Complete(InferSelection(s.prefix, env, sc))
    ensures HangsFrom(s, u, env, sc) <==> Deferred(s, env, sc, true)
    decreases s, 0
  {
    var target := TargetOf(u);
    if (target.OnOptional? || target.OnSet?) && s.elem.HofCall? {
      var n := OneName(s.prefix, env, sc);
      assert ElementParsed(s.elem) && Parsed(s.elem.body);
      if s.elem.body.Select? { HangsExactly(s.elem.body.sel, env, sc[s.elem.param := n]); }
      assert BodyHangs(s.elem, target.of, env, sc) <==> s.elem.body.Select? && HangsBody(s.elem, n, env, sc);
    }
  }

  /** The parameter of a higher-order call has one type name. */
  lemma OneName(p: Selection, env: Arena, sc: Scope) returns (n: string)
    requires env.Valid() && ScopeOk(sc, env) && Complete(InferSelection(p, env, sc))
    requires var target := Target0(p, env, sc); target.OnOptional? || target.OnSet? || target.OnArray?
    ensures var target := Target0(p, env, sc);
            && (forall m :: InnermostName(target.of, env, m) <==> m == n)
            && (forall param :: BodyScope(param, Some(target.of), env, sc) == Some(sc[param := n]))
            && n in env.ids
  {
    var of := Target0(p, env, sc).of;
    TargetHasName(p, env, sc);
    DerefTwice(InferSelection(p, env, sc), env);
    n := UnderlyingName(of, env).value;
    forall m ensures InnermostName(of, env, m) <==> m == n { InnermostMeans(of, env, m); }
  }

  lemma {:induction false} WrongSelectionExactly(s: Selection, env: Arena, sc: Scope)
    requires env.Valid() && ScopeOk(sc, env) && SelectionParsed(s)
    ensures WrongSelection(s, env, sc) <==> SelectionFaulty(s, env, sc, Possible)
    decreases s, 1
  {
    if s.Path? {
      WrongSelectionExactly(s.prefix, env, sc);
      HangsExactly(s.prefix, env, sc);
      var u := OnlySelected(s.prefix, env, sc);
      if Complete(u) {
        WrongFromExactly(s, u, env, sc);
        if Deferred(s.prefix, env, sc, true) { DeferredUntyped(s.prefix, env, sc, true); }
      } else {
        SelectionInferredOrError(s.prefix, env, sc);
      }
    }
  }

  /** The fault of the selection itself. */
  predicate FaultHere(s: Selection, env: Arena, sc: Scope)
    requires s.Path?
  {
    var u := Deref(InferSelection(s.prefix, env, sc), env);
    var target := TargetOf(u);
    || (PassesElement(target, s.elem) && ElementFaulty(s.elem, target.of, env, sc, Possible))
    || (target.OnComposite? && s.elem.Identifier? && BareField(target.id, s.elem.name, env))
    || (target.OnSet? && s.elem.Identifier? && Unprintable(target.of))
    || (target.OnNothing? && PrefixOffends(s.prefix, u))
  }

  lemma {:induction false} WrongFromExactly(s: Selection, u: Type, env: Arena, sc: Scope)
    requires env.Valid() && ScopeOk(sc, env) && SelectionParsed(s) && s.Path?
    requires u == Deref(InferSelection(s.prefix, env, sc), env) && Complete(u) &&
             Complete(InferSelection(s.prefix, env, sc))
    requires Value(u)
    ensures WrongFrom(s, u, env, sc) <==> FaultHere(s, env, sc)
    decreases s, 0
  {
    var target := TargetOf(u);
    match target
    case OnComposite(c) => if s.elem.Identifier? { FieldLacksExactly(c, s.elem.name, env); }
    case OnNothing => UnshownExactly(u);
    case _ =>
      UnshownExactly(target.of);
      if PassesElement(target, s.elem) { WrongElementExactly(s, env, sc); }
  }

  lemma {:induction false} WrongElementExactly(s: Selection, env: Arena, sc: Scope)
    requires env.Valid() && ScopeOk(sc, env) && SelectionParsed(s) && s.Path? &&
             Complete(InferSelection(s.prefix, env, sc))
    requires PassesElement(Target0(s.prefix, env, sc), s.elem) && Value(Target0(s.prefix, env, sc).of)
    ensures WrongElement(s.elem, Target0(s.prefix, env, sc).of, env, sc) <==>
            ElementFaulty(s.elem, Target0(s.prefix, env, sc).of, env, sc, Possible)
    decreases s, -1
  {
    var of := Target0(s.prefix, env, sc).of;
    match s.elem
    case Identifier(_, _) =>
    case HofCall(_, param, body, _) =>
      var n := OneName(s.prefix, env, sc);
      WrongExactly(body, env, sc[param := n]);
      assert WrongElement(s.elem, of, env, sc) <==> WrongBody(s.elem, n, env, sc);
    case NormalCall(_, params, _) => BadParameterExactly(s.elem, of, env, sc);
  }

  lemma {:induction false} BadParameterExactly(el: Element, of: Type, env: Arena, sc: Scope)
    requires env.Valid() && ScopeOk(sc, env) && el.NormalCall? && ElementParsed(el) && Value(of)
    ensures WrongElement(el, of, env, sc) <==> ElementFaulty(el, of, env, sc, Possible)
  {
    if |el.params| == 1 { LiteralBad(el.params[0], of, env, sc); }
  }

  lemma LiteralBad(p: Expr, of: Type, env: Arena, sc: Scope)
    requires p.Lit? && Value(of)
    ensures BadParameter(p, of, env, sc) <==> CallOffends(of, Infer(p, env, sc))
  {
    var a := Infer(p, env, sc);
    LiteralTyped(p, env, sc);
    AlikeMeans(of, a);
    UnshownExactly(of);
    UnshownExactly(a);
  }
}
