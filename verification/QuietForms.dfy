/**
 The forms an expression can end in.

 Once every flag of the environment is settled, an expression on which a pass reports no
 change is resolved exactly when it has a one-shot type.  What is resolved inside one that
 has none is determined too, up to the marker of an unresolved slot, unless a plain field is
 selected on a set: that branch hides whether its prefix has been resolved.
 */
module QuietForms {
  import opened Wrappers
  import opened Ast
  import opened Passes
  import opened OneShot
  import opened EnvironmentLemmas
  import opened ExprSoundness
  import opened ExprProgress
  import opened ExprCompletion

  // ----- An expression has a one-shot type exactly when all its nodes have -----

  lemma {:induction false} InferredOrError(e: Expr, env: Arena, sc: Scope)
    ensures Complete(Infer(e, env, sc)) || Infer(e, env, sc) == Error
    decreases e, 0
  {
    if e.Select? { SelectionInferredOrError(e.sel, env, sc); }
  }

  lemma {:induction false} SelectionInferredOrError(s: Selection, env: Arena, sc: Scope)
    ensures Complete(InferSelection(s, env, sc)) || InferSelection(s, env, sc) == Error
    decreases s, 0
  {
    if s.Path? && s.elem.HofCall? {
      var of := TargetOf(Deref(InferSelection(s.prefix, env, sc), env));
      if PassesElement(of, s.elem) && BodyScope(s.elem.param, Some(of.of), env, sc).Some? {
        InferredOrError(s.elem.body, env, BodyScope(s.elem.param, Some(of.of), env, sc).value);
      }
    }
  }

  lemma {:induction false} InferredTypable(e: Expr, env: Arena, sc: Scope)
    ensures Typable(e, env, sc) <==> Complete(Infer(e, env, sc))
    decreases e, 0
  {
    match e
    case Lit(_) =>
    case Select(s) => SelectionInferredTypable(s, env, sc);
    case Not(x, _) => InferredTypable(x, env, sc); InferredOrError(x, env, sc);
    case Logical(_, l, r, _) =>
      InferredTypable(l, env, sc); InferredOrError(l, env, sc);
      InferredTypable(r, env, sc); InferredOrError(r, env, sc);
    case Relational(_, l, r, _) =>
      InferredTypable(l, env, sc); InferredOrError(l, env, sc);
      InferredTypable(r, env, sc); InferredOrError(r, env, sc);
  }

  lemma {:induction false} SelectionInferredTypable(s: Selection, env: Arena, sc: Scope)
    ensures SelectionTypable(s, env, sc) <==> Complete(InferSelection(s, env, sc))
    decreases s, 0
  {
    if s.Path? {
      SelectionInferredTypable(s.prefix, env, sc);
      SelectionInferredOrError(s.prefix, env, sc);
      var target := TargetOf(Deref(InferSelection(s.prefix, env, sc), env));
      if s.elem.HofCall? && PassesElement(target, s.elem) && BodyScope(s.elem.param, Some(target.of), env, sc).Some? {
        InferredTypable(s.elem.body, env, BodyScope(s.elem.param, Some(target.of), env, sc).value);
      }
    }
  }

  /** An expression that a pass leaves alone is resolved, in every node, exactly when it has a one-shot type. */
  lemma QuietExact(e: Expr, env: Arena, env0: Arena, sc: Scope)
    requires StateOf(env, env0) && ScopeOk(sc, env0) && Sound(e, env0, sc) && EnvSettled(env)
    requires !PassExpr(e, env, sc).changed
    ensures AllComplete(e) <==> Complete(Infer(e, env0, sc))
    ensures Complete(TypeOf(e)) <==> Complete(Infer(e, env0, sc))
  {
    InferredTypable(e, env0, sc);
    if Typable(e, env0, sc) { SettledComplete(e, env, env0, sc); }
    if Complete(TypeOf(e)) { RootComplete(e, env0, sc); TypableRoot(e, env0, sc); }
    if AllComplete(e) { CompleteRoot(e); }
  }

  lemma TypableRoot(e: Expr, env: Arena, sc: Scope)
    requires Typable(e, env, sc)
    ensures Complete(Infer(e, env, sc))
  {
    if e.Select? { assert SelectionTypable(e.sel, env, sc); }
  }

  lemma CompleteRoot(e: Expr)
    requires AllComplete(e)
    ensures Complete(TypeOf(e))
  {
    if e.Select? { assert SelectionComplete(e.sel); }
  }

  // ----- Plain fields on sets -----

  /** No pass ever selects a plain field on a set, by the one-shot types. */
  predicate SetFieldFree(e: Expr, env: Arena, sc: Scope)
    decreases e, 0
  {
    match e
    case Lit(_) => true
    case Select(s) => SelectionSetFieldFree(s, env, sc)
    case Not(x, _) => SetFieldFree(x, env, sc)
    case Logical(_, l, r, _) => SetFieldFree(l, env, sc) && SetFieldFree(r, env, sc)
    case Relational(_, l, r, _) => SetFieldFree(l, env, sc) && SetFieldFree(r, env, sc)
  }

  predicate SelectionSetFieldFree(s: Selection, env: Arena, sc: Scope)
    decreases s, 0
  {
    match s
    case Single(_, _) => true
    case Path(p, el, _) =>
      var target := TargetOf(Deref(InferSelection(p, env, sc), env));
      && SelectionSetFieldFree(p, env, sc)
      && !(target.OnSet? && el.Identifier?)
      && (el.HofCall? && PassesElement(target, el) ==> BodySetFieldFree(el, target.of, env, sc))
  }

  predicate BodySetFieldFree(el: Element, of: Type, env: Arena, sc: Scope)
    requires el.HofCall?
    decreases el, 0
  {
    var inner := BodyScope(el.param, Some(of), env, sc);
    inner.Some? ==> SetFieldFree(el.body, env, inner.value)
  }

  // ----- Up to the marker of unresolved slots -----

  /** Deferred and erroneous slots alike. */
  function BlankType(t: Type): Type {
    if Complete(t) then t else Defer
  }

  function Blank(e: Expr): Expr
    decreases e, 0
  {
    match e
    case Lit(_) => e
    case Select(s) => Select(BlankSelection(s))
    case Not(x, t) => Not(Blank(x), BlankType(t))
    case Logical(op, l, r, t) => Logical(op, Blank(l), Blank(r), BlankType(t))
    case Relational(op, l, r, t) => Relational(op, Blank(l), Blank(r), BlankType(t))
  }

  function BlankSelection(s: Selection): Selection
    decreases s, 0
  {
    match s
    case Single(el, t) => Single(BlankElement(el), BlankType(t))
    case Path(p, el, t) => Path(BlankSelection(p), BlankElement(el), BlankType(t))
  }

  function BlankElement(el: Element): Element
    decreases el, 0
  {
    match el
    case Identifier(n, t) => Identifier(n, BlankType(t))
    case HofCall(n, p, body, t) => HofCall(n, p, Blank(body), BlankType(t))
    case NormalCall(n, params, t) => NormalCall(n, params, BlankType(t))
  }

  /** Two forms that a pass leaves alone, in whatever settled states of the environment. */
  ghost predicate Quiet(e: Expr, env: Arena, env0: Arena, sc: Scope) {
    StateOf(env, env0) && EnvSettled(env) && Sound(e, env0, sc) && !PassExpr(e, env, sc).changed
  }

  ghost predicate QuietSelection(s: Selection, env: Arena, env0: Arena, sc: Scope) {
    StateOf(env, env0) && EnvSettled(env) && SelectionSound(s, env0, sc) && !PassSelection(s, env, sc).changed
  }

  lemma QuietRoots(x: Expr, y: Expr, e1: Arena, e2: Arena, env0: Arena, sc: Scope)
    requires ScopeOk(sc, env0) && Quiet(x, e1, env0, sc) && Quiet(y, e2, env0, sc) && ShallowExpr(x) == ShallowExpr(y)
    ensures BlankType(TypeOf(x)) == BlankType(TypeOf(y)) && (Complete(TypeOf(x)) <==> Complete(TypeOf(y)))
  {
    QuietExact(x, e1, env0, sc);
    QuietExact(y, e2, env0, sc);
    SameInfer(x, y, env0, sc);
    SoundAgrees(x, env0, sc);
    SoundAgrees(y, env0, sc);
  }

  /** Without plain fields on sets, all forms that a pass leaves alone are the same. */
  lemma {:induction false} QuietUnique(x: Expr, y: Expr, e1: Arena, e2: Arena, env0: Arena, sc: Scope)
    requires ScopeOk(sc, env0) && Quiet(x, e1, env0, sc) && Quiet(y, e2, env0, sc) && ShallowExpr(x) == ShallowExpr(y)
    requires SetFieldFree(x, env0, sc)
    ensures Blank(x) == Blank(y)
    decreases x, 0
  {
    QuietRoots(x, y, e1, e2, env0, sc);
    match x
    case Lit(_) =>
    case Select(s) => QuietSelectionUnique(s, y.sel, e1, e2, env0, sc);
    case Not(a, _) => QuietUnique(a, y.arg, e1, e2, env0, sc);
    case Logical(_, l, r, _) =>
      QuietUnique(l, y.left, e1, e2, env0, sc);
      QuietUnique(r, y.right, e1, e2, env0, sc);
    case Relational(_, l, r, _) =>
      QuietUnique(l, y.left, e1, e2, env0, sc);
      QuietUnique(r, y.right, e1, e2, env0, sc);
  }

  /** The prefix of a quiet selection is quiet, unless a plain field is selected on a set. */
  lemma QuietPrefix(s: Selection, env: Arena, env0: Arena, sc: Scope)
    requires s.Path? && ScopeOk(sc, env0) && QuietSelection(s, env, env0, sc)
    requires var target := TargetOf(Deref(InferSelection(s.prefix, env0, sc), env0));
             !(target.OnSet? && s.elem.Identifier?)
    ensures QuietSelection(s.prefix, env, env0, sc)
  {
    var rp := PassSelection(s.prefix, env, sc);
    if rp.changed && Incomplete(s.typ) {
      PassSelectionSound(s.prefix, env, env0, sc);
      PrefixAfterPass(s.prefix, rp.node, env, env0, sc);
    }
  }

  lemma {:induction false} QuietSelectionUnique(x: Selection, y: Selection, e1: Arena, e2: Arena, env0: Arena,
                                                sc: Scope)
    requires ScopeOk(sc, env0) && QuietSelection(x, e1, env0, sc) && QuietSelection(y, e2, env0, sc)
    requires ShallowSelection(x) == ShallowSelection(y) && SelectionSetFieldFree(x, env0, sc)
    ensures BlankSelection(x) == BlankSelection(y)
    decreases x, 2
  {
    QuietRoots(Select(x), Select(y), e1, e2, env0, sc);
    if x.Path? {
      SameInferSelection(x.prefix, y.prefix, env0, sc);
      QuietPrefix(x, e1, env0, sc);
      QuietPrefix(y, e2, env0, sc);
      QuietSelectionUnique(x.prefix, y.prefix, e1, e2, env0, sc);
      QuietElementUnique(x, y, e1, e2, env0, sc);
    }
  }

  /** The body of a tried higher-order call is quiet. */
  lemma QuietBody(s: Selection, env: Arena, env0: Arena, sc: Scope)
    requires s.Path? && s.elem.HofCall? && ScopeOk(sc, env0) && QuietSelection(s, env, env0, sc) &&
             Complete(s.prefix.typ)
    requires PassesElement(TargetOf(Deref(s.prefix.typ, env0)), s.elem)
    ensures var of := TargetOf(Deref(s.prefix.typ, env0)).of;
            && BodyScope(s.elem.param, Some(of), env0, sc).Some?
            && ScopeOk(BodyScope(s.elem.param, Some(of), env0, sc).value, env0)
            && Quiet(s.elem.body, env, env0, BodyScope(s.elem.param, Some(of), env0, sc).value)
  {
    var of := TargetOf(Deref(s.prefix.typ, env0)).of;
    assert ElementSound(s.elem, s.typ, s.prefix.typ, env0, sc);
    SelectionSoundAgrees(s.prefix, env0, sc);
    TargetHasName(s.prefix, env0, sc);
    BodyScopeOk(s.elem.param, of, env0, sc);
    SameBodyScope(s.elem.param, of, env, env0, sc);
    SameDeref(s.prefix.typ, env, env0);
    var inner := BodyScope(s.elem.param, Some(of), env0, sc).value;
    if Complete(s.typ) {
      CompleteIdle(s.elem.body, env, env0, inner);
    } else {
      CompleteSelectionIdle(s.prefix, env, env0, sc);
      ElementOutcome(s, env, sc);
      assert PassElement(s.elem, env, sc, Some(of)).changed == PassExpr(s.elem.body, env, inner).changed;
    }
  }

  lemma {:induction false} QuietElementUnique(x: Selection, y: Selection, e1: Arena, e2: Arena, env0: Arena, sc: Scope)
    requires x.Path? && y.Path? && ScopeOk(sc, env0) && QuietSelection(x, e1, env0, sc) &&
             QuietSelection(y, e2, env0, sc)
    requires ShallowSelection(x) == ShallowSelection(y) && SelectionSetFieldFree(x, env0, sc)
    requires BlankType(x.typ) == BlankType(y.typ) && BlankSelection(x.prefix) == BlankSelection(y.prefix)
    ensures BlankElement(x.elem) == BlankElement(y.elem)
    decreases x, 1
  {
    SamePrefixType(x, y);
    ElementSlot(x, env0, sc);
    ElementSlot(y, env0, sc);
    match x.elem
    case Identifier(n, t) =>
    case NormalCall(n, params, t) => SameLiterals(params, y.elem.params);
    case HofCall(n, p, body, t) => if Tried(x, env0) { QuietBodyUnique(x, y, e1, e2, env0, sc); }
  }

  /** The element has been passed under a resolved prefix. */
  predicate Tried(s: Selection, env0: Arena)
    requires s.Path?
  {
    Complete(s.prefix.typ) && PassesElement(TargetOf(Deref(s.prefix.typ, env0)), s.elem)
  }

  lemma ElementSlot(s: Selection, env0: Arena, sc: Scope)
    requires s.Path? && SelectionSound(s, env0, sc)
    ensures if Tried(s, env0) then s.elem.typ == s.typ
              else Incomplete(s.elem.typ) && (s.elem.HofCall? ==> Fresh(s.elem.body))
    ensures s.elem.NormalCall? ==> forall i :: 0 <= i < |s.elem.params| ==> s.elem.params[i].Lit?
  {
    assert ElementSound(s.elem, s.typ, s.prefix.typ, env0, sc);
  }

  lemma {:induction false} QuietBodyUnique(x: Selection, y: Selection, e1: Arena, e2: Arena, env0: Arena, sc: Scope)
    requires x.Path? && y.Path? && ScopeOk(sc, env0) && QuietSelection(x, e1, env0, sc) &&
             QuietSelection(y, e2, env0, sc)
    requires ShallowSelection(x) == ShallowSelection(y) && SelectionSetFieldFree(x, env0, sc)
    requires x.elem.HofCall? && y.elem.HofCall? && Complete(x.prefix.typ) && x.prefix.typ == y.prefix.typ
    requires PassesElement(TargetOf(Deref(x.prefix.typ, env0)), x.elem)
    ensures Blank(x.elem.body) == Blank(y.elem.body)
    decreases x, 0
  {
    var target := TargetOf(Deref(x.prefix.typ, env0));
    SelectionSoundAgrees(x.prefix, env0, sc);
    QuietBody(x, e1, env0, sc);
    QuietBody(y, e2, env0, sc);
    QuietUnique(x.elem.body, y.elem.body, e1, e2, env0, BodyScope(x.elem.param, Some(target.of), env0, sc).value);
  }

  lemma SamePrefixType(x: Selection, y: Selection)
    requires x.Path? && y.Path? && BlankSelection(x.prefix) == BlankSelection(y.prefix)
    ensures Complete(x.prefix.typ) <==> Complete(y.prefix.typ)
    ensures Complete(x.prefix.typ) ==> x.prefix.typ == y.prefix.typ
  {
    assert BlankType(x.prefix.typ) == BlankSelection(x.prefix).typ == BlankSelection(y.prefix).typ ==
           BlankType(y.prefix.typ);
  }
}
