/** When a pass over an expression panics. */
module Panics {
  import opened Wrappers
  import opened Ast
  import opened Passes
  import opened OneShot
  import opened EnvironmentLemmas
  import opened ExprSoundness
  import opened ExprProgress
  import opened QuietForms
  import opened Faults
  import opened Deferrals

  /** `to_typ` finds a flagged `Set` or `Array` without a parameter. */
  predicate TypePanics(ft: FieldType) {
    match ft
    case OptionalField(u) => TypePanics(u)
    case Plain(n, params, ok) => ok && (n == "Set" || n == "Array") && (|params| == 0 || TypePanics(params[0]))
  }

  predicate FieldPanics(c: nat, name: string, env: Arena) {
    FindField(c, name, env).Some? && TypePanics(FindField(c, name, env).value.typ)
  }

  /** The type of an operand as the operator finds it. */
  function Operand(e: Expr, env: Arena): Type {
    Deref(TypeOf(e), env)
  }

  predicate ExprPanics(e: Expr, env: Arena, sc: Scope)
    decreases e, 0
  {
    match e
    case Lit(_) => false
    case Select(s) => SelectionPanics(s, env, sc)
    case Not(x, t) =>
      ExprPanics(x, env, sc) || (Incomplete(t) && OperandOffends(x, Operand(PassExpr(x, env, sc).node, env)))
    case Logical(_, l, r, t) =>
      var rl := PassExpr(l, env, sc);
      || ExprPanics(l, env, sc)
      || (!rl.changed && ExprPanics(r, env, sc))
      || (Incomplete(t) && (OperandOffends(l, Operand(rl.node, env))
                            || OperandOffends(r, Operand(if rl.changed then r else PassExpr(r, env, sc).node, env))))
    case Relational(_, l, r, t) =>
      var rl := PassExpr(l, env, sc);
      || ExprPanics(l, env, sc)
      || (!rl.changed && ExprPanics(r, env, sc))
      || (Incomplete(t) && MismatchOffends(e, Operand(rl.node, env),
                                           Operand(if rl.changed then r else PassExpr(r, env, sc).node, env)))
  }

  predicate SelectionPanics(s: Selection, env: Arena, sc: Scope)
    decreases s, 0
  {
    match s
    case Single(_, _) => false
    case Path(p, el, t) =>
      || SelectionPanics(p, env, sc)
      || (Incomplete(t) &&
          var prefix := PassSelection(p, env, sc).node.typ;
          var target := TargetOf(Deref(prefix, env));
          || (PassesElement(target, el) && ElementPanics(el, target.of, env, sc))
          || (target.OnComposite? && el.Identifier? && FieldPanics(target.id, el.name, env))
          || (target.OnSet? && el.Identifier? && Unprintable(target.of))
          || (target.OnNothing? && !IsError(prefix) && (Unprintable(Deref(prefix, env)) || p.Single?)))
  }

  predicate ElementPanics(el: Element, of: Type, env: Arena, sc: Scope)
    decreases el, 0
  {
    match el
    case Identifier(_, _) => false
    case HofCall(_, param, body, _) =>
      var inner := BodyScope(param, Some(of), env, sc);
      inner.Some? && ExprPanics(body, env, inner.value)
    case NormalCall(n, params, _) =>
      n == "contains" && |params| == 1 && CallOffends(of, TypeOf(PassAll(params, env, sc).node[0]))
  }

  /** The flag of a bare `Set` or `Array` is set like any other, without a diagnostic. */
  lemma BareTypeIsAccepted(n: string, ids: map<string, nat>)
    requires n == "Set" || n == "Array"
    ensures PassFieldType(Plain(n, [], false), ids) == Outcome(Plain(n, [], true), true, [])
    ensures TypePanics(Plain(n, [], true))
  {
  }

  lemma {:induction false} PanicsBare(ft: FieldType, ids: map<string, nat>)
    ensures TypePanics(ft) ==> Bare(ft)
    ensures FlagsSettled(ft, ids) && Bare(ft) ==> TypePanics(ft)
  {
    match ft
    case OptionalField(u) => PanicsBare(u, ids);
    case Plain(n, params, _) => if |params| > 0 { PanicsBare(params[0], ids); }
  }

  lemma FieldPanicsBare(c: nat, name: string, env: Arena, env0: Arena)
    requires StateOf(env, env0)
    ensures FieldPanics(c, name, env) ==> BareField(c, name, env0)
    ensures EnvSettled(env) && BareField(c, name, env0) ==> FieldPanics(c, name, env)
  {
    FindFieldOf(c, name, env, env0);
    if FindField(c, name, env).Some? {
      var f, d := FindField(c, name, env).value, FindField(c, name, env0).value;
      BareShape(f.typ, d.typ);
      PanicsBare(f.typ, env.ids);
      FindFieldFrom(c, name, env);
    }
  }

  // ----- A deferred slot after a pass -----

  lemma {:induction false} DeferredAfter(s: Selection, env: Arena, env0: Arena, sc: Scope)
    requires StateOf(env, env0) && ScopeOk(sc, env0) && SelectionSound(s, env0, sc)
    requires PassSelection(s, env, sc).node.typ.Defer?
    ensures Deferred(s, env0, sc, true)
    decreases s, 0
  {
    if s.Path? {
      var p := PassSelection(s.prefix, env, sc).node;
      PassedPrefix(s, env, env0, sc);
      KeptSlot(s, env, sc);
      var target := TargetOf(Deref(p.typ, env));
      if !target.OnNothing? { PrefixTarget(s.prefix, p, env, env0, sc); }
      if PassesElement(target, s.elem) {
        ElementMadeReady(s, p, env, env0, sc);
        ElementOutcome(s, env, sc);
        DeferredElement(s.elem, target.of, env, env0, sc);
      } else if !(target.OnComposite? && s.elem.NormalCall?) {
        NotDeferred(s, env, env0, sc);
      }
    }
  }

  /** What a pass selects from is what the one-shot typing selects from. */
  lemma PrefixTarget(p: Selection, r: Selection, env: Arena, env0: Arena, sc: Scope)
    requires PrefixOk(p, r, env, env0, sc) && !TargetOf(Deref(r.typ, env)).OnNothing?
    ensures Complete(r.typ) && TargetOf(Deref(r.typ, env)) == Target0(p, env0, sc)
  {
  }

  lemma KeptSlot(s: Selection, env: Arena, sc: Scope)
    requires s.Path?
    ensures Complete(s.typ) ==> PassSelection(s, env, sc).node.typ == s.typ
  {
  }

  /** Of the selections whose element is not passed, only a call on a composite keeps its slot. */
  lemma {:induction false} NotDeferred(s: Selection, env: Arena, env0: Arena, sc: Scope)
    requires s.Path? && StateOf(env, env0)
    requires var target := TargetOf(Deref(PassSelection(s.prefix, env, sc).node.typ, env));
             !PassesElement(target, s.elem) && !(target.OnComposite? && s.elem.NormalCall?)
    ensures !PassSelection(s, env, sc).node.typ.Defer?
  {
    var rp := PassSelection(s.prefix, env, sc);
    var target := TargetOf(Deref(rp.node.typ, env));
    if Complete(s.typ) {
      assert PassSelection(s, env, sc).node.typ == s.typ;
    } else if target.OnComposite? && s.elem.Identifier? {
      FinishFieldAgrees(target.id, s.elem.name, env, env0);
      FinishedField(target.id, s.elem.name, env);
      assert PassSelection(s, env, sc).node.typ == FinishField(target.id, s.elem.name, env).typ;
    } else if target.OnSet? {
      assert PassSelection(s, env, sc).node.typ == Error;
    } else {
      assert PassSelection(s, env, sc) == Reject(rp, s.elem, s.typ, target);
    }
  }

  lemma FinishedField(c: nat, name: string, env: Arena)
    ensures !FinishField(c, name, env).typ.Defer?
  {
  }

  lemma {:induction false} DeferredElement(el: Element, of: Type, env: Arena, env0: Arena, sc: Scope)
    requires StateOf(env, env0) && ScopeOk(sc, env0) && HasName(of, env0) && ElementReady(el, of, env0, sc)
    requires PassElement(el, env, sc, Some(of)).node.typ.Defer?
    ensures LongContains(el) || BodyDeferred(el, of, env0, sc, true)
    decreases el, 0
  {
    match el
    case Identifier(n, _) => ResolvedComplete(n, env, sc);
    case HofCall(_, param, body, _) =>
      SameBodyScope(param, of, env, env0, sc);
      BodyScopeOk(param, of, env0, sc);
      if body.Select? { DeferredAfter(body.sel, env, env0, BodyScope(param, Some(of), env0, sc).value); }
    case NormalCall(_, params, _) => LiteralParams(params, env, sc);
  }

  // ----- A pass panics only over a faulty expression -----

  /** Operands keep their one-shot types. */
  lemma OperandAgrees(e: Expr, env: Arena, env0: Arena, sc: Scope)
    requires StateOf(env, env0) && ScopeOk(sc, env0) && Sound(e, env0, sc)
    ensures Complete(Operand(PassExpr(e, env, sc).node, env)) ==>
              Operand(PassExpr(e, env, sc).node, env) == Deref(Infer(e, env0, sc), env0)
    ensures Complete(Operand(e, env)) ==> Operand(e, env) == Deref(Infer(e, env0, sc), env0)
  {
    PassSound(e, env, env0, sc);
    var r := PassExpr(e, env, sc).node;
    SoundAgrees(e, env0, sc);
    SoundAgrees(r, env0, sc);
    SameInfer(r, e, env0, sc);
    DerefComplete(TypeOf(r), env);
    DerefComplete(TypeOf(e), env);
    SameDeref(TypeOf(r), env, env0);
    SameDeref(TypeOf(e), env, env0);
  }

  lemma {:induction false} PanicFaulty(e: Expr, env: Arena, env0: Arena, sc: Scope)
    requires StateOf(env, env0) && ScopeOk(sc, env0) && Sound(e, env0, sc) && ExprPanics(e, env, sc)
    ensures Faulty(e, env0, sc, Possible)
    decreases e, 0
  {
    match e
    case Select(s) => PanicSelectionFaulty(s, env, env0, sc);
    case Not(x, _) =>
      if ExprPanics(x, env, sc) { PanicFaulty(x, env, env0, sc); } else { OperandAgrees(x, env, env0, sc); }
    case Logical(_, l, r, _) =>
      if ExprPanics(l, env, sc) { PanicFaulty(l, env, env0, sc); }
      else if !PassExpr(l, env, sc).changed && ExprPanics(r, env, sc) { PanicFaulty(r, env, env0, sc); }
      else { OperandAgrees(l, env, env0, sc); OperandAgrees(r, env, env0, sc); }
    case Relational(_, l, r, _) =>
      if ExprPanics(l, env, sc) { PanicFaulty(l, env, env0, sc); }
      else if !PassExpr(l, env, sc).changed && ExprPanics(r, env, sc) { PanicFaulty(r, env, env0, sc); }
      else { OperandAgrees(l, env, env0, sc); OperandAgrees(r, env, env0, sc); }
  }

  lemma {:induction false} PanicSelectionFaulty(s: Selection, env: Arena, env0: Arena, sc: Scope)
    requires StateOf(env, env0) && ScopeOk(sc, env0) && SelectionSound(s, env0, sc) && SelectionPanics(s, env, sc)
    ensures SelectionFaulty(s, env0, sc, Possible)
    decreases s, 2
  {
    if SelectionPanics(s.prefix, env, sc) {
      PanicSelectionFaulty(s.prefix, env, env0, sc);
    } else {
      PassedPrefix(s, env, env0, sc);
      PanicHereFaulty(s, env, env0, sc);
    }
  }

  lemma {:induction false} PanicHereFaulty(s: Selection, env: Arena, env0: Arena, sc: Scope)
    requires StateOf(env, env0) && ScopeOk(sc, env0) && SelectionSound(s, env0, sc)
    requires SelectionPanics(s, env, sc) && !SelectionPanics(s.prefix, env, sc)
    requires PrefixOk(s.prefix, PassSelection(s.prefix, env, sc).node, env, env0, sc)
    ensures SelectionFaulty(s, env0, sc, Possible)
    decreases s, 1
  {
    var p := PassSelection(s.prefix, env, sc).node;
    var target := TargetOf(Deref(p.typ, env));
    if target.OnNothing? {
      UnselectableFaulty(s.prefix, p, env, env0, sc);
    } else {
      PrefixTarget(s.prefix, p, env, env0, sc);
      if target.OnComposite? && s.elem.Identifier? {
        FieldPanicsBare(target.id, s.elem.name, env, env0);
      } else if PassesElement(target, s.elem) {
        ElementMadeReady(s, p, env, env0, sc);
        PanicElementFaulty(s.elem, target.of, env, env0, sc);
      }
    }
  }

  lemma UnselectableFaulty(p: Selection, r: Selection, env: Arena, env0: Arena, sc: Scope)
    requires StateOf(env, env0) && ScopeOk(sc, env0) && SelectionSound(p, env0, sc)
    requires r == PassSelection(p, env, sc).node && PrefixOk(p, r, env, env0, sc)
    requires TargetOf(Deref(r.typ, env)).OnNothing? && !IsError(r.typ) &&
             (Unprintable(Deref(r.typ, env)) || p.Single?)
    ensures Target0(p, env0, sc).OnNothing? &&
            (PrefixOffends(p, Deref(InferSelection(p, env0, sc), env0)) || Deferred(p, env0, sc, true))
  {
    if Complete(r.typ) {
      ResolvedDeref(r, env0, sc);
    } else {
      DeferredAfter(p, env, env0, sc);
      DeferredUntyped(p, env0, sc, true);
      SelectionInferredOrError(p, env0, sc);
    }
  }

  lemma ResolvedDeref(r: Selection, env0: Arena, sc: Scope)
    requires SelectionSound(r, env0, sc) && Complete(r.typ) && env0.Valid()
    ensures Complete(Deref(r.typ, env0))
  {
    SelectionSoundAgrees(r, env0, sc);
    InferSelectionRooted(r, env0, sc);
    RootedComplete(r.typ, env0);
  }

  lemma {:induction false} PanicElementFaulty(el: Element, of: Type, env: Arena, env0: Arena, sc: Scope)
    requires StateOf(env, env0) && ScopeOk(sc, env0) && HasName(of, env0) && ElementReady(el, of, env0, sc)
    requires ElementPanics(el, of, env, sc)
    ensures ElementFaulty(el, of, env0, sc, Possible)
    decreases el, 0
  {
    match el
    case HofCall(_, param, body, _) =>
      SameBodyScope(param, of, env, env0, sc);
      BodyScopeOk(param, of, env0, sc);
      PanicFaulty(body, env, env0, BodyScope(param, Some(of), env0, sc).value);
    case NormalCall(_, params, _) =>
      LiteralParams(params, env, sc);
      assert Infer(params[0], env0, sc) == TypeOf(params[0]);
  }
}
