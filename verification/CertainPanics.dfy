/** Over which expressions every pass panics, once the environment is settled. */
module CertainPanics {
  import opened Wrappers
  import opened Ast
  import opened Passes
  import opened OneShot
  import opened EnvironmentLemmas
  import opened ExprSoundness
  import opened ExprProgress
  import opened ExprCompletion
  import opened QuietForms
  import opened Faults
  import opened Deferrals
  import opened Panics

  /** What is known of an expression that a pass meets: unless it is hidden, the pass changes nothing. */
  ghost predicate Met(e: Expr, env: Arena, env0: Arena, sc: Scope, m: Mode) {
    && m.Certain? && StateOf(env, env0) && EnvSettled(env) && ScopeOk(sc, env0) && Sound(e, env0, sc)
    && Defers(e, env0, sc, m.loose) && (!m.hidden ==> !PassExpr(e, env, sc).changed)
  }

  ghost predicate SelectionMet(s: Selection, env: Arena, env0: Arena, sc: Scope, m: Mode) {
    && m.Certain? && StateOf(env, env0) && EnvSettled(env) && ScopeOk(sc, env0) && SelectionSound(s, env0, sc)
    && SelectionDefers(s, env0, sc, m.loose) && (!m.hidden ==> !PassSelection(s, env, sc).changed)
  }

  // ----- A deferred slot -----

  lemma {:induction false} StaysDeferred(s: Selection, env: Arena, env0: Arena, sc: Scope, loose: bool)
    requires StateOf(env, env0) && EnvSettled(env) && ScopeOk(sc, env0) && SelectionSound(s, env0, sc)
    requires SelectionDefers(s, env0, sc, loose) && Deferred(s, env0, sc, loose)
    ensures PassSelection(s, env, sc).node.typ.Defer?
    decreases s, 1
  {
    var target := Target0(s.prefix, env0, sc);
    DeferredUntyped(s, env0, sc, loose);
    SelectionSoundAgrees(s, env0, sc);
    TargetResolved(s.prefix, env, env0, sc);
    if PassesElement(target, s.elem) {
      PassedPrefix(s, env, env0, sc);
      ElementMadeReady(s, PassSelection(s.prefix, env, sc).node, env, env0, sc);
      ElementOutcome(s, env, sc);
      ElementStaysDeferred(s.elem, target.of, env, env0, sc, loose);
    } else {
      PassSlotDefers(s, env, env0, sc, loose);
    }
  }

  lemma {:induction false} ElementStaysDeferred(el: Element, of: Type, env: Arena, env0: Arena, sc: Scope, loose: bool)
    requires StateOf(env, env0) && EnvSettled(env) && ScopeOk(sc, env0) && HasName(of, env0) &&
             ElementReady(el, of, env0, sc)
    requires ElementDefers(el, of, env0, sc, loose) && (LongContains(el) || BodyDeferred(el, of, env0, sc, loose))
    ensures PassElement(el, env, sc, Some(of)).node.typ.Defer?
    decreases el, 0
  {
    if el.NormalCall? {
      LiteralParams(el.params, env, sc);
    } else {
      SameBodyScope(el.param, of, env, env0, sc);
      BodyScopeOk(el.param, of, env0, sc);
      StaysDeferred(el.body.sel, env, env0, BodyScope(el.param, Some(of), env0, sc).value, loose);
    }
  }

  // ----- Operands -----

  /** A typed operand that is not a boolean of an operator is known after the pass; others need the pass to change
      nothing. */
  lemma OperandKnown(e: Expr, env: Arena, env0: Arena, sc: Scope)
    requires StateOf(env, env0) && EnvSettled(env) && ScopeOk(sc, env0) && Sound(e, env0, sc)
    requires Complete(Deref(Infer(e, env0, sc), env0)) &&
             (Infer(e, env0, sc) == BOOLEAN ==> !PassExpr(e, env, sc).changed)
    ensures Operand(PassExpr(e, env, sc).node, env) == Deref(Infer(e, env0, sc), env0)
  {
    DerefComplete(Infer(e, env0, sc), env0);
    SameDeref(Infer(e, env0, sc), env, env0);
    if Infer(e, env0, sc) != BOOLEAN {
      DirectlyResolved(e, env, env0, sc);
    } else {
      QuietExact(e, env, env0, sc);
      SoundAgrees(e, env0, sc);
      CompleteIdle(e, env, env0, sc);
    }
  }

  lemma FaultyOpen(e: Expr, env0: Arena, sc: Scope, m: Mode)
    requires Sound(e, env0, sc) && Faulty(e, env0, sc, m)
    ensures Incomplete(TypeOf(e))
  {
    FaultyUntyped(e, env0, sc, m);
    SoundAgrees(e, env0, sc);
  }

  // ----- Every pass panics -----

  lemma {:induction false} FaultyPanics(e: Expr, env: Arena, env0: Arena, sc: Scope, m: Mode)
    requires Met(e, env, env0, sc, m) && Faulty(e, env0, sc, m)
    ensures ExprPanics(e, env, sc)
    decreases e, 0
  {
    FaultyOpen(e, env0, sc, m);
    match e
    case Select(s) => FaultySelectionPanics(s, env, env0, sc, m);
    case Not(x, _) =>
      if Faulty(x, env0, sc, m) { FaultyPanics(x, env, env0, sc, m); } else { OperandKnown(x, env, env0, sc); }
    case Logical(_, l, r, _) =>
      if Faulty(l, env0, sc, m) { FaultyPanics(l, env, env0, sc, m); }
      else if OperandOffends(l, Deref(Infer(l, env0, sc), env0)) { OperandKnown(l, env, env0, sc); }
      else if Faulty(r, env0, sc, m) { FaultyPanics(r, env, env0, sc, m); }
      else { OperandKnown(r, env, env0, sc); }
    case Relational(_, l, r, _) =>
      if Faulty(l, env0, sc, m) { FaultyPanics(l, env, env0, sc, m); }
      else if Faulty(r, env0, sc, m) { FaultyPanics(r, env, env0, sc, m); }
      else { OperandKnown(l, env, env0, sc); OperandKnown(r, env, env0, sc); }
  }

  lemma {:induction false} FaultySelectionPanics(s: Selection, env: Arena, env0: Arena, sc: Scope, m: Mode)
    requires SelectionMet(s, env, env0, sc, m) && SelectionFaulty(s, env0, sc, m)
    ensures SelectionPanics(s, env, sc)
    decreases s, 2
  {
    var target := Target0(s.prefix, env0, sc);
    var n := Under(m, target, s.elem);
    if !n.hidden { QuietPrefix(s, env, env0, sc); }
    if SelectionFaulty(s.prefix, env0, sc, n) {
      FaultySelectionPanics(s.prefix, env, env0, sc, n);
    } else {
      FaultyOpen(Select(s), env0, sc, m);
      if target.OnNothing? {
        UnselectablePanics(s, env, env0, sc, m);
      } else {
        FaultyHerePanics(s, env, env0, sc, m);
      }
    }
  }

  lemma {:induction false} UnselectablePanics(s: Selection, env: Arena, env0: Arena, sc: Scope, m: Mode)
    requires SelectionMet(s, env, env0, sc, m) && s.Path? && Incomplete(s.typ) && Target0(s.prefix, env0, sc).OnNothing?
    requires PrefixOffends(s.prefix, Deref(InferSelection(s.prefix, env0, sc), env0)) ||
             Deferred(s.prefix, env0, sc, m.loose)
    ensures SelectionPanics(s, env, sc)
  {
    if Deferred(s.prefix, env0, sc, m.loose) {
      StaysDeferred(s.prefix, env, env0, sc, m.loose);
    } else {
      var t := InferSelection(s.prefix, env0, sc);
      DerefComplete(t, env0);
      SelectionDirectlyResolved(s.prefix, env, env0, sc);
      SameDeref(t, env, env0);
      NoError(t);
    }
  }

  lemma {:induction false} NoError(t: Type)
    requires Complete(t)
    ensures !IsError(t)
  {
    match t
    case OptionalType(u) => NoError(u);
    case SetType(u) => NoError(u);
    case ArrayType(u) => NoError(u);
    case _ =>
  }

  lemma {:induction false} FaultyHerePanics(s: Selection, env: Arena, env0: Arena, sc: Scope, m: Mode)
    requires SelectionMet(s, env, env0, sc, m) && s.Path? && Incomplete(s.typ) && SelectionFaulty(s, env0, sc, m)
    requires var target := Target0(s.prefix, env0, sc);
             !target.OnNothing? && !SelectionFaulty(s.prefix, env0, sc, Under(m, target, s.elem))
    ensures SelectionPanics(s, env, sc)
    decreases s, 1
  {
    var target := Target0(s.prefix, env0, sc);
    TargetResolved(s.prefix, env, env0, sc);
    if target.OnComposite? && s.elem.Identifier? {
      FieldPanicsBare(target.id, s.elem.name, env, env0);
    } else if PassesElement(target, s.elem) {
      PassedPrefix(s, env, env0, sc);
      ElementMadeReady(s, PassSelection(s.prefix, env, sc).node, env, env0, sc);
      if s.elem.HofCall? && !m.hidden { QuietCall(s, env, env0, sc); }
      FaultyElementPanics(s.elem, target.of, env, env0, sc, m);
    }
  }

  /** The body of a call under a prefix that is not passed over is left alone, too. */
  lemma QuietCall(s: Selection, env: Arena, env0: Arena, sc: Scope)
    requires s.Path? && s.elem.HofCall? && ScopeOk(sc, env0) && QuietSelection(s, env, env0, sc)
    requires PassesElement(Target0(s.prefix, env0, sc), s.elem)
    ensures var inner := BodyScope(s.elem.param, Some(Target0(s.prefix, env0, sc).of), env, sc);
            inner.Some? && !PassExpr(s.elem.body, env, inner.value).changed
  {
    QuietPrefix(s, env, env0, sc);
    SelectionInferredOrError(s.prefix, env0, sc);
    QuietExact(Select(s.prefix), env, env0, sc);
    SelectionSoundAgrees(s.prefix, env0, sc);
    QuietBody(s, env, env0, sc);
    SameBodyScope(s.elem.param, Target0(s.prefix, env0, sc).of, env, env0, sc);
  }

  lemma {:induction false} FaultyElementPanics(el: Element, of: Type, env: Arena, env0: Arena, sc: Scope, m: Mode)
    requires m.Certain? && StateOf(env, env0) && EnvSettled(env) && ScopeOk(sc, env0)
    requires HasName(of, env0) && ElementReady(el, of, env0, sc) && ElementDefers(el, of, env0, sc, m.loose)
    requires el.HofCall? && !m.hidden ==>
               var inner := BodyScope(el.param, Some(of), env, sc);
               inner.Some? && !PassExpr(el.body, env, inner.value).changed
    requires ElementFaulty(el, of, env0, sc, m)
    ensures ElementPanics(el, of, env, sc)
    decreases el, 0
  {
    match el
    case HofCall(_, param, body, _) =>
      SameBodyScope(param, of, env, env0, sc);
      BodyScopeOk(param, of, env0, sc);
      FaultyPanics(body, env, env0, BodyScope(param, Some(of), env0, sc).value, m);
    case NormalCall(_, params, _) =>
      LiteralParams(params, env, sc);
      assert Infer(params[0], env0, sc) == TypeOf(params[0]);
  }
}
