/**
 Where a plain field is selected on a set, an expression has two forms that a pass leaves
 alone: one with the set's selection resolved and one without.
 */
module QuietWitnesses {
  import opened Wrappers
  import opened Ast
  import opened Passes
  import opened OneShot
  import opened EnvironmentLemmas
  import opened ExprSoundness
  import opened ExprProgress
  import opened ExprCompletion
  import opened QuietForms

  // ----- A selection of a set, about to be resolved -----

  /** The resolved selection with its last step unresolved again. */
  function Loosen(s: Selection): Selection
    decreases s
  {
    match s
    case Single(el, _) => Single(LoosenElement(el), Defer)
    case Path(p, el, t) => Path(p, if el.typ == t || el.HofCall? then LoosenElement(el) else el, Defer)
  }

  function LoosenElement(el: Element): Element
    decreases el
  {
    match el
    case Identifier(n, _) => Identifier(n, Defer)
    case HofCall(n, param, body, _) => HofCall(n, param, LoosenBody(body), Defer)
    case NormalCall(n, params, t) => NormalCall(n, params, t)
  }

  function LoosenBody(e: Expr): Expr
    decreases e
  {
    if e.Select? then Select(Loosen(e.sel)) else e
  }

  predicate IsSet(t: Type, env: Arena) {
    TargetOf(Deref(t, env)).OnSet?
  }

  /** One pass resolves it again. */
  lemma {:induction false} LoosenedPass(s: Selection, env: Arena, env0: Arena, sc: Scope)
    requires StateOf(env, env0) && EnvSettled(env) && ScopeOk(sc, env0)
    requires SelectionSound(s, env0, sc) && Complete(s.typ) && IsSet(s.typ, env0)
    ensures SelectionSound(Loosen(s), env0, sc) && ShallowSelection(Loosen(s)) == ShallowSelection(s)
    ensures Loosen(s).typ == Defer && PassSelection(Loosen(s), env, sc).node == s
    decreases s, 1
  {
    match s
    case Single(el, t) => SameResolution(el.name, env, env0, sc);
    case Path(p, el, t) =>
      assert ElementSound(el, t, p.typ, env0, sc);
      SelectionSoundAgrees(s, env0, sc);
      SelectionSoundAgrees(p, env0, sc);
      SameDeref(p.typ, env, env0);
      CompleteSelectionIdle(p, env, env0, sc);
      var target := TargetOf(Deref(p.typ, env0));
      if PassesElement(target, el) {
        LoosenedElement(s, env, env0, sc);
      } else {
        LoosenedField(s, env, env0, sc);
      }
  }

  lemma {:induction false} LoosenedField(s: Selection, env: Arena, env0: Arena, sc: Scope)
    requires StateOf(env, env0) && EnvSettled(env) && ScopeOk(sc, env0)
    requires s.Path? && SelectionSound(s, env0, sc) && Complete(s.typ) && IsSet(s.typ, env0)
    requires PassSelection(s.prefix, env, sc).node == s.prefix && Deref(s.prefix.typ, env) == Deref(s.prefix.typ, env0)
    requires !PassesElement(TargetOf(Deref(s.prefix.typ, env0)), s.elem)
    ensures SelectionSound(Loosen(s), env0, sc) && ShallowSelection(Loosen(s)) == ShallowSelection(s)
    ensures Loosen(s).typ == Defer && PassSelection(Loosen(s), env, sc).node == s
  {
    assert ElementSound(s.elem, s.typ, s.prefix.typ, env0, sc);
    SelectionSoundAgrees(s, env0, sc);
    SelectionSoundAgrees(s.prefix, env0, sc);
    var target := TargetOf(Deref(s.prefix.typ, env0));
    assert target.OnComposite? && s.typ == TypeOfField(target.id, s.elem.name, env0);
    FinishFieldSettled(target.id, s.elem.name, env, env0);
    FinishFieldAgrees(target.id, s.elem.name, env, env0);
    assert s.elem.typ == Defer;
    LoosenedFieldPass(s, target.id, env, sc);
  }

  lemma LoosenedFieldPass(s: Selection, id: nat, env: Arena, sc: Scope)
    requires s.Path? && s.elem.Identifier? && s.elem.typ == Defer && Complete(s.typ)
    requires PassSelection(s.prefix, env, sc).node == s.prefix && TargetOf(Deref(s.prefix.typ, env)) == OnComposite(id)
    requires FinishField(id, s.elem.name, env).updated && FinishField(id, s.elem.name, env).typ == s.typ
    ensures Loosen(s) == Path(s.prefix, s.elem, Defer) && PassSelection(Loosen(s), env, sc).node == s
  {
  }

  /** The element is passed itself. */
  ghost predicate Passing(s: Selection, env: Arena, env0: Arena, sc: Scope) {
    && StateOf(env, env0) && EnvSettled(env) && ScopeOk(sc, env0)
    && s.Path? && SelectionSound(s, env0, sc) && Complete(s.typ) && Complete(s.prefix.typ)
    && PassSelection(s.prefix, env, sc) == Outcome(s.prefix, false, []) &&
       Deref(s.prefix.typ, env) == Deref(s.prefix.typ, env0)
    && PassesElement(TargetOf(Deref(s.prefix.typ, env0)), s.elem)
  }

  lemma LoosenedIdentifier(s: Selection, env: Arena, env0: Arena, sc: Scope)
    requires Passing(s, env, env0, sc) && s.elem.Identifier?
    ensures SelectionSound(Loosen(s), env0, sc) && ShallowSelection(Loosen(s)) == ShallowSelection(s)
    ensures Loosen(s).typ == Defer && PassSelection(Loosen(s), env, sc).node == s
  {
    var l := Path(s.prefix, Identifier(s.elem.name, Defer), Defer);
    SetIdentifier(s, env, env0, sc);
    ElementOutcome(l, env, sc);
    assert ElementSound(l.elem, l.typ, l.prefix.typ, env0, sc);
  }

  /** An identifier whose value is that of its selection resolves to it again. */
  lemma SetIdentifier(s: Selection, env: Arena, env0: Arena, sc: Scope)
    requires Passing(s, env, env0, sc) && s.elem.Identifier?
    ensures Loosen(s) == Path(s.prefix, Identifier(s.elem.name, Defer), Defer) && s.elem.typ == s.typ
    ensures ResolveIdentifier(s.elem.name, env, sc) == Resolved(s.typ)
  {
    assert ElementSound(s.elem, s.typ, s.prefix.typ, env0, sc);
    SelectionSoundAgrees(s, env0, sc);
    SelectionSoundAgrees(s.prefix, env0, sc);
    SameResolution(s.elem.name, env, env0, sc);
    var of := TargetOf(Deref(s.prefix.typ, env0)).of;
    assert InferSelection(s, env0, sc) == InferElement(s.elem, env0, sc, of) == TypeOfIdentifier(s.elem.name, env0, sc);
  }

  lemma CallIsNoSet(s: Selection, env: Arena, env0: Arena, sc: Scope)
    requires Passing(s, env, env0, sc) && s.elem.NormalCall?
    ensures !IsSet(s.typ, env0)
  {
    SelectionSoundAgrees(s, env0, sc);
    SelectionSoundAgrees(s.prefix, env0, sc);
    assert InferSelection(s, env0, sc) == InferElement(s.elem, env0, sc, TargetOf(Deref(s.prefix.typ, env0)).of);
  }

  /** A higher-order call whose value is a set has a selection as its body. */
  lemma SetBody(s: Selection, env: Arena, env0: Arena, sc: Scope)
    requires Passing(s, env, env0, sc) && s.elem.HofCall? && IsSet(s.typ, env0)
    ensures var of := TargetOf(Deref(s.prefix.typ, env0)).of;
            && BodyScope(s.elem.param, Some(of), env0, sc).Some? && s.elem.body.Select?
            && ScopeOk(BodyScope(s.elem.param, Some(of), env0, sc).value, env0)
            && SelectionSound(s.elem.body.sel, env0, BodyScope(s.elem.param, Some(of), env0, sc).value)
            && s.elem.body.sel.typ == s.typ == s.elem.typ
            && BodyScope(s.elem.param, Some(of), env, sc) == BodyScope(s.elem.param, Some(of), env0, sc)
  {
    var of := TargetOf(Deref(s.prefix.typ, env0)).of;
    assert ElementSound(s.elem, s.typ, s.prefix.typ, env0, sc);
    SelectionSoundAgrees(s.prefix, env0, sc);
    TargetHasName(s.prefix, env0, sc);
    BodyScopeOk(s.elem.param, of, env0, sc);
    SameBodyScope(s.elem.param, of, env, env0, sc);
    SetIsSelected(s.elem.body, env0, BodyScope(s.elem.param, Some(of), env0, sc).value);
  }

  /** Only a selection has a set for its value. */
  lemma SetIsSelected(e: Expr, env: Arena, sc: Scope)
    requires Sound(e, env, sc) && IsSet(TypeOf(e), env) && Complete(TypeOf(e))
    ensures e.Select? && SelectionSound(e.sel, env, sc) && e.sel.typ == TypeOf(e)
  {
    SoundAgrees(e, env, sc);
  }

  lemma LoosenedCall(s: Selection, env: Arena, env0: Arena, sc: Scope)
    requires Passing(s, env, env0, sc) && s.elem.HofCall? && s.elem.body.Select?
    requires var of := TargetOf(Deref(s.prefix.typ, env0)).of;
             && BodyScope(s.elem.param, Some(of), env0, sc).Some?
             && BodyScope(s.elem.param, Some(of), env, sc) == BodyScope(s.elem.param, Some(of), env0, sc)
             && s.elem.body.sel.typ == s.typ == s.elem.typ
             && var inner, b := BodyScope(s.elem.param, Some(of), env0, sc).value, s.elem.body.sel;
             && SelectionSound(Loosen(b), env0, inner) && ShallowSelection(Loosen(b)) == ShallowSelection(b)
             && Loosen(b).typ == Defer && PassSelection(Loosen(b), env, inner).node == b
    ensures SelectionSound(Loosen(s), env0, sc) && ShallowSelection(Loosen(s)) == ShallowSelection(s)
    ensures Loosen(s).typ == Defer && PassSelection(Loosen(s), env, sc).node == s
  {
    var of := TargetOf(Deref(s.prefix.typ, env0)).of;
    var inner := BodyScope(s.elem.param, Some(of), env0, sc).value;
    var body := Select(Loosen(s.elem.body.sel));
    var el := HofCall(s.elem.name, s.elem.param, body, Defer);
    var l := Path(s.prefix, el, Defer);
    assert LoosenBody(s.elem.body) == body;
    assert LoosenElement(s.elem) == el;
    assert Loosen(s) == l;
    assert ShallowExpr(body) == ShallowExpr(s.elem.body);
    assert ShallowElement(el) == ShallowElement(s.elem);
    assert PassExpr(body, env, inner).node == s.elem.body;
    ElementOutcome(l, env, sc);
    assert PassElement(l.elem, env, sc, Some(of)).node == s.elem;
    assert Sound(body, env0, inner);
    assert ElementSound(l.elem, l.typ, l.prefix.typ, env0, sc);
  }

  lemma {:induction false} LoosenedElement(s: Selection, env: Arena, env0: Arena, sc: Scope)
    requires Passing(s, env, env0, sc) && IsSet(s.typ, env0)
    ensures SelectionSound(Loosen(s), env0, sc) && ShallowSelection(Loosen(s)) == ShallowSelection(s)
    ensures Loosen(s).typ == Defer && PassSelection(Loosen(s), env, sc).node == s
    decreases s, 0
  {
    match s.elem
    case Identifier(_, _) => LoosenedIdentifier(s, env, env0, sc);
    case NormalCall(_, _, _) => CallIsNoSet(s, env, env0, sc);
    case HofCall(_, param, body, _) =>
      SetBody(s, env, env0, sc);
      var of := TargetOf(Deref(s.prefix.typ, env0)).of;
      LoosenedPass(body.sel, env, env0, BodyScope(param, Some(of), env0, sc).value);
      LoosenedCall(s, env, env0, sc);
  }
}
