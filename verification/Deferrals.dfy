/**
 Slots that stay deferred.

 Once the environment is settled, one pass resolves every selection with a type that is not
 computed by an operator.  A call on a composite that was known when the call was first passed
 therefore never has its slot set to the error type.
 */
module Deferrals {
  import opened Wrappers
  import opened Ast
  import opened Passes
  import opened OneShot
  import opened EnvironmentLemmas
  import opened ExprSoundness
  import opened ExprProgress
  import opened ExprCompletion
  import opened QuietForms
  import opened Faults

  // ----- One pass is enough -----

  /** The prefix of a selection after a pass. */
  lemma PassedPrefix(s: Selection, env: Arena, env0: Arena, sc: Scope)
    requires s.Path? && StateOf(env, env0) && ScopeOk(sc, env0) && SelectionSound(s, env0, sc)
    ensures PrefixOk(s.prefix, PassSelection(s.prefix, env, sc).node, env, env0, sc)
  {
    PassSelectionSound(s.prefix, env, env0, sc);
    PrefixAfterPass(s.prefix, PassSelection(s.prefix, env, sc).node, env, env0, sc);
  }

  lemma {:induction false} DirectlyResolved(e: Expr, env: Arena, env0: Arena, sc: Scope)
    requires StateOf(env, env0) && EnvSettled(env) && ScopeOk(sc, env0) && Sound(e, env0, sc)
    requires Complete(Infer(e, env0, sc)) && Infer(e, env0, sc) != BOOLEAN
    ensures TypeOf(PassExpr(e, env, sc).node) == Infer(e, env0, sc)
    decreases e, 0
  {
    if e.Select? { SelectionDirectlyResolved(e.sel, env, env0, sc); }
  }

  lemma {:induction false} SelectionDirectlyResolved(s: Selection, env: Arena, env0: Arena, sc: Scope)
    requires StateOf(env, env0) && EnvSettled(env) && ScopeOk(sc, env0) && SelectionSound(s, env0, sc)
    requires Complete(InferSelection(s, env0, sc)) && InferSelection(s, env0, sc) != BOOLEAN
    ensures PassSelection(s, env, sc).node.typ == InferSelection(s, env0, sc)
    decreases s, 2
  {
    if Complete(s.typ) {
      SelectionSoundAgrees(s, env0, sc);
      CompleteSelectionIdle(s, env, env0, sc);
    } else if s.Single? {
      SameResolution(s.elem.name, env, env0, sc);
    } else {
      InferPath(s, env0, sc);
      TargetResolved(s.prefix, env, env0, sc);
      PathDirectlyResolved(s, env, env0, sc);
    }
  }

  /** What one can select from is known after one pass. */
  lemma {:induction false} TargetResolved(p: Selection, env: Arena, env0: Arena, sc: Scope)
    requires StateOf(env, env0) && EnvSettled(env) && ScopeOk(sc, env0) && SelectionSound(p, env0, sc)
    requires !Target0(p, env0, sc).OnNothing?
    ensures var r := PassSelection(p, env, sc).node;
            && r.typ == InferSelection(p, env0, sc) && Complete(r.typ)
            && TargetOf(Deref(r.typ, env)) == Target0(p, env0, sc)
    decreases p, 3
  {
    SelectionInferredOrError(p, env0, sc);
    SelectionDirectlyResolved(p, env, env0, sc);
    SameDeref(InferSelection(p, env0, sc), env, env0);
  }

  lemma {:induction false} PathDirectlyResolved(s: Selection, env: Arena, env0: Arena, sc: Scope)
    requires StateOf(env, env0) && EnvSettled(env) && ScopeOk(sc, env0) && SelectionSound(s, env0, sc)
    requires s.Path? && Incomplete(s.typ) && Complete(InferSelection(s, env0, sc)) &&
             InferSelection(s, env0, sc) != BOOLEAN
    requires var r := PassSelection(s.prefix, env, sc).node;
             && r.typ == InferSelection(s.prefix, env0, sc) && Complete(r.typ)
             && TargetOf(Deref(r.typ, env)) == Target0(s.prefix, env0, sc)
    ensures PassSelection(s, env, sc).node.typ == InferSelection(s, env0, sc)
    decreases s, 1
  {
    var target := Target0(s.prefix, env0, sc);
    InferPath(s, env0, sc);
    if PassesElement(target, s.elem) {
      PassedPrefix(s, env, env0, sc);
      ElementMadeReady(s, PassSelection(s.prefix, env, sc).node, env, env0, sc);
      ElementOutcome(s, env, sc);
      ElementDirectlyResolved(s.elem, target.of, env, env0, sc);
    } else {
      FinishFieldSettled(target.id, s.elem.name, env, env0);
      FinishFieldAgrees(target.id, s.elem.name, env, env0);
    }
  }

  lemma {:induction false} ElementDirectlyResolved(el: Element, of: Type, env: Arena, env0: Arena, sc: Scope)
    requires StateOf(env, env0) && EnvSettled(env) && ScopeOk(sc, env0) && HasName(of, env0) &&
             ElementReady(el, of, env0, sc)
    requires Complete(InferElement(el, env0, sc, of)) && InferElement(el, env0, sc, of) != BOOLEAN
    ensures PassElement(el, env, sc, Some(of)).node.typ == InferElement(el, env0, sc, of)
    decreases el, 0
  {
    match el
    case Identifier(n, _) => SameResolution(n, env, env0, sc);
    case HofCall(_, param, body, _) =>
      SameBodyScope(param, of, env, env0, sc);
      BodyScopeOk(param, of, env0, sc);
      DirectlyResolved(body, env, env0, BodyScope(param, Some(of), env0, sc).value);
    case NormalCall(_, _, _) =>
  }

  // ----- The slots of calls -----

  /** Calls that are certain to leave a slot deferred have done so. */
  predicate Defers(e: Expr, env: Arena, sc: Scope, loose: bool)
    decreases e, 0
  {
    match e
    case Lit(_) => true
    case Select(s) => SelectionDefers(s, env, sc, loose)
    case Not(x, _) => Defers(x, env, sc, loose)
    case Logical(_, l, r, _) => Defers(l, env, sc, loose) && Defers(r, env, sc, loose)
    case Relational(_, l, r, _) => Defers(l, env, sc, loose) && Defers(r, env, sc, loose)
  }

  predicate SelectionDefers(s: Selection, env: Arena, sc: Scope, loose: bool)
    decreases s, 0
  {
    match s
    case Single(_, _) => true
    case Path(p, el, t) =>
      var target := Target0(p, env, sc);
      && SelectionDefers(p, env, sc, loose)
      && (target.OnComposite? && el.NormalCall? && (loose || p.Single?) ==> t.Defer?)
      && (PassesElement(target, el) ==> ElementDefers(el, target.of, env, sc, loose))
  }

  predicate ElementDefers(el: Element, of: Type, env: Arena, sc: Scope, loose: bool)
    decreases el, 0
  {
    match el
    case Identifier(_, _) => true
    case HofCall(_, param, body, _) =>
      var inner := BodyScope(param, Some(of), env, sc);
      inner.Some? ==> Defers(body, env, inner.value, loose)
    case NormalCall(_, _, t) => LongContains(el) ==> t.Defer?
  }

  lemma {:induction false} FreshDefers(e: Expr, env: Arena, sc: Scope, loose: bool)
    requires Fresh(e)
    ensures Defers(e, env, sc, loose)
    decreases e, 0
  {
    match e
    case Lit(_) =>
    case Select(s) => FreshSelectionDefers(s, env, sc, loose);
    case Not(x, _) => FreshDefers(x, env, sc, loose);
    case Logical(_, l, r, _) => FreshDefers(l, env, sc, loose); FreshDefers(r, env, sc, loose);
    case Relational(_, l, r, _) => FreshDefers(l, env, sc, loose); FreshDefers(r, env, sc, loose);
  }

  lemma {:induction false} FreshSelectionDefers(s: Selection, env: Arena, sc: Scope, loose: bool)
    requires s == ShallowSelection(s)
    ensures SelectionDefers(s, env, sc, loose)
    decreases s, 0
  {
    if s.Path? {
      FreshSelectionDefers(s.prefix, env, sc, loose);
      var target := Target0(s.prefix, env, sc);
      if s.elem.HofCall? && PassesElement(target, s.elem) && BodyScope(s.elem.param, Some(target.of), env, sc).Some? {
        FreshDefers(s.elem.body, env, BodyScope(s.elem.param, Some(target.of), env, sc).value, loose);
      }
    }
  }

  // ----- Passes keep them so -----

  lemma {:induction false} PassDefers(e: Expr, env: Arena, env0: Arena, sc: Scope, loose: bool)
    requires StateOf(env, env0) && ScopeOk(sc, env0) && Sound(e, env0, sc) && Defers(e, env0, sc, loose)
    requires loose ==> EnvSettled(env)
    ensures Defers(PassExpr(e, env, sc).node, env0, sc, loose)
    decreases e, 0
  {
    match e
    case Lit(_) =>
    case Select(s) => PassSelectionDefers(s, env, env0, sc, loose);
    case Not(x, _) => PassDefers(x, env, env0, sc, loose);
    case Logical(_, l, r, _) => PassDefers(l, env, env0, sc, loose); PassDefers(r, env, env0, sc, loose);
    case Relational(_, l, r, _) => PassDefers(l, env, env0, sc, loose); PassDefers(r, env, env0, sc, loose);
  }

  lemma {:induction false} PassSelectionDefers(s: Selection, env: Arena, env0: Arena, sc: Scope, loose: bool)
    requires StateOf(env, env0) && ScopeOk(sc, env0) && SelectionSound(s, env0, sc) &&
             SelectionDefers(s, env0, sc, loose)
    requires loose ==> EnvSettled(env)
    ensures SelectionDefers(PassSelection(s, env, sc).node, env0, sc, loose)
    decreases s, 0
  {
    if s.Path? {
      PassSelectionDefers(s.prefix, env, env0, sc, loose);
      PassedPrefix(s, env, env0, sc);
      PassSlotDefers(s, env, env0, sc, loose);
      PassElementDefers(s, env, env0, sc, loose);
      PassPath(s, env, sc);
    }
  }

  lemma PassPath(s: Selection, env: Arena, sc: Scope)
    requires s.Path?
    ensures var r := PassSelection(s, env, sc).node;
            && r.Path? && r.prefix == PassSelection(s.prefix, env, sc).node
            && r.prefix.Single? == s.prefix.Single?
            && r.elem.NormalCall? == s.elem.NormalCall? &&
               (forall target :: PassesElement(target, r.elem) == PassesElement(target, s.elem))
  {
  }

  /** A call on a composite keeps its slot. */
  lemma {:induction false} PassSlotDefers(s: Selection, env: Arena, env0: Arena, sc: Scope, loose: bool)
    requires s.Path? && StateOf(env, env0) && ScopeOk(sc, env0) && SelectionSound(s, env0, sc)
    requires SelectionDefers(s, env0, sc, loose) && (loose ==> EnvSettled(env))
    ensures Target0(s.prefix, env0, sc).OnComposite? && s.elem.NormalCall? && (loose || s.prefix.Single?) ==>
              PassSelection(s, env, sc).node.typ.Defer?
  {
    if Target0(s.prefix, env0, sc).OnComposite? && s.elem.NormalCall? && (loose || s.prefix.Single?) {
      if s.prefix.Single? {
        SameResolution(s.prefix.elem.name, env, env0, sc);
        SameDeref(InferSelection(s.prefix, env0, sc), env, env0);
      } else {
        TargetResolved(s.prefix, env, env0, sc);
      }
      assert TargetOf(Deref(PassSelection(s.prefix, env, sc).node.typ, env)).OnComposite?;
    }
  }

  lemma {:induction false} PassElementDefers(s: Selection, env: Arena, env0: Arena, sc: Scope, loose: bool)
    requires s.Path? && StateOf(env, env0) && ScopeOk(sc, env0) && SelectionSound(s, env0, sc)
    requires SelectionDefers(s, env0, sc, loose) && (loose ==> EnvSettled(env))
    requires PrefixOk(s.prefix, PassSelection(s.prefix, env, sc).node, env, env0, sc)
    ensures var target, r := Target0(s.prefix, env0, sc), PassSelection(s, env, sc).node;
            r.Path? && (PassesElement(target, s.elem) ==> ElementDefers(r.elem, target.of, env0, sc, loose))
    decreases s, -1
  {
    PassPath(s, env, sc);
    var p := PassSelection(s.prefix, env, sc).node;
    var target := TargetOf(Deref(p.typ, env));
    if Incomplete(s.typ) && PassesElement(target, s.elem) {
      ElementOutcome(s, env, sc);
      ElementMadeReady(s, p, env, env0, sc);
      assert target == Target0(s.prefix, env0, sc);
      PassedElementDefers(s.elem, target.of, env, env0, sc, loose);
    } else {
      KeptElementDefers(s, env, env0, sc, loose);
    }
  }

  /** An element that is not passed stays, but for the slot of a call on a composite. */
  lemma KeptElementDefers(s: Selection, env: Arena, env0: Arena, sc: Scope, loose: bool)
    requires s.Path? && PrefixOk(s.prefix, PassSelection(s.prefix, env, sc).node, env, env0, sc)
    requires Complete(s.typ) || !PassesElement(TargetOf(Deref(PassSelection(s.prefix, env, sc).node.typ, env)), s.elem)
    requires SelectionDefers(s, env0, sc, loose)
    ensures var target := Target0(s.prefix, env0, sc);
            PassesElement(target, s.elem) ==> PassSelection(s, env, sc).node.elem == s.elem
  {
  }

  lemma {:induction false} PassedElementDefers(el: Element, of: Type, env: Arena, env0: Arena, sc: Scope, loose: bool)
    requires StateOf(env, env0) && ScopeOk(sc, env0) && HasName(of, env0) && ElementReady(el, of, env0, sc)
    requires ElementDefers(el, of, env0, sc, loose) && (loose ==> EnvSettled(env))
    ensures ElementDefers(PassElement(el, env, sc, Some(of)).node, of, env0, sc, loose)
    decreases el, 0
  {
    match el
    case Identifier(_, _) =>
    case HofCall(_, param, body, _) =>
      SameBodyScope(param, of, env, env0, sc);
      BodyScopeOk(param, of, env0, sc);
      PassDefers(body, env, env0, BodyScope(param, Some(of), env0, sc).value, loose);
    case NormalCall(_, params, _) => LiteralParams(params, env, sc);
  }
}
