/** A pass over an expression keeps its shape, its resolved slots and the invariant. */
module ExprSoundness {
  import opened Wrappers
  import opened Ast
  import opened Passes
  import opened OneShot
  import opened EnvironmentLemmas

  // ----- Resolved slots are final -----

  predicate KeptType(a: Type, b: Type) {
    Complete(a) ==> b == a
  }

  /** `b` is `a` with possibly more slots resolved, and none changed. */
  predicate Kept(a: Expr, b: Expr)
    decreases a, 0
  {
    match a
    case Lit(_) => b == a
    case Select(s) => b.Select? && KeptSelection(s, b.sel)
    case Not(x, t) => b.Not? && Kept(x, b.arg) && KeptType(t, b.typ)
    case Logical(op, l, r, t) => b.Logical? && b.lop == op && Kept(l, b.left) && Kept(r, b.right) && KeptType(t, b.typ)
    case Relational(op, l, r, t) =>
      b.Relational? && b.rop == op && Kept(l, b.left) && Kept(r, b.right) && KeptType(t, b.typ)
  }

  predicate KeptSelection(a: Selection, b: Selection)
    decreases a, 0
  {
    match a
    case Single(el, t) => b.Single? && KeptElement(el, b.elem) && KeptType(t, b.typ)
    case Path(p, el, t) => b.Path? && KeptSelection(p, b.prefix) && KeptElement(el, b.elem) && KeptType(t, b.typ)
  }

  predicate KeptElement(a: Element, b: Element)
    decreases a, 0
  {
    match a
    case Identifier(n, t) => b.Identifier? && b.name == n && KeptType(t, b.typ)
    case HofCall(n, p, x, t) => b.HofCall? && b.name == n && b.param == p && Kept(x, b.body) && KeptType(t, b.typ)
    case NormalCall(n, ps, t) => b.NormalCall? && b.name == n && b.params == ps && KeptType(t, b.typ)
  }

  lemma {:induction false} KeptRefl(a: Expr)
    ensures Kept(a, a)
    decreases a, 0
  {
    match a
    case Lit(_) =>
    case Select(s) => KeptSelectionRefl(s);
    case Not(x, t) => KeptRefl(x);
    case Logical(op, l, r, t) => KeptRefl(l); KeptRefl(r);
    case Relational(op, l, r, t) => KeptRefl(l); KeptRefl(r);
  }

  lemma {:induction false} KeptSelectionRefl(a: Selection)
    ensures KeptSelection(a, a)
    decreases a, 0
  {
    if a.elem.HofCall? { KeptRefl(a.elem.body); }
    if a.Path? { KeptSelectionRefl(a.prefix); }
  }

  lemma KeptElementRefl(a: Element)
    ensures KeptElement(a, a)
  {
    if a.HofCall? { KeptRefl(a.body); }
  }

  /** Slots resolved in `a` are unchanged in `c`, through any number of steps. */
  lemma {:induction false} KeptTrans(a: Expr, b: Expr, c: Expr)
    requires Kept(a, b) && Kept(b, c)
    ensures Kept(a, c)
    decreases a, 0
  {
    match a
    case Lit(_) =>
    case Select(s) => KeptSelectionTrans(s, b.sel, c.sel);
    case Not(x, t) => KeptTrans(x, b.arg, c.arg);
    case Logical(op, l, r, t) => KeptTrans(l, b.left, c.left); KeptTrans(r, b.right, c.right);
    case Relational(op, l, r, t) => KeptTrans(l, b.left, c.left); KeptTrans(r, b.right, c.right);
  }

  lemma {:induction false} KeptSelectionTrans(a: Selection, b: Selection, c: Selection)
    requires KeptSelection(a, b) && KeptSelection(b, c)
    ensures KeptSelection(a, c)
    decreases a, 0
  {
    if a.elem.HofCall? { KeptTrans(a.elem.body, b.elem.body, c.elem.body); }
    if a.Path? { KeptSelectionTrans(a.prefix, b.prefix, c.prefix); }
  }

  // ----- The one-shot typing reads no slot -----

  lemma {:induction false} SameInfer(a: Expr, b: Expr, env: Arena, sc: Scope)
    requires ShallowExpr(a) == ShallowExpr(b)
    ensures Infer(a, env, sc) == Infer(b, env, sc)
    decreases a, 0
  {
    match a
    case Lit(_) =>
    case Select(s) => SameInferSelection(s, b.sel, env, sc);
    case Not(x, _) => SameInfer(x, b.arg, env, sc);
    case Logical(_, l, r, _) => SameInfer(l, b.left, env, sc); SameInfer(r, b.right, env, sc);
    case Relational(_, l, r, _) => SameInfer(l, b.left, env, sc); SameInfer(r, b.right, env, sc);
  }

  lemma {:induction false} SameInferSelection(a: Selection, b: Selection, env: Arena, sc: Scope)
    requires ShallowSelection(a) == ShallowSelection(b)
    ensures InferSelection(a, env, sc) == InferSelection(b, env, sc)
    decreases a, 0
  {
    if a.Path? {
      SameInferSelection(a.prefix, b.prefix, env, sc);
      var target := TargetOf(Deref(InferSelection(a.prefix, env, sc), env));
      assert a.elem.Identifier? <==> b.elem.Identifier?;
      assert PassesElement(target, a.elem) <==> PassesElement(target, b.elem);
      if PassesElement(target, a.elem) { SameInferElement(a.elem, b.elem, env, sc, target.of); }
    }
  }

  lemma {:induction false} SameInferElement(a: Element, b: Element, env: Arena, sc: Scope, of: Type)
    requires ShallowElement(a) == ShallowElement(b)
    ensures InferElement(a, env, sc, of) == InferElement(b, env, sc, of)
    decreases a, 0
  {
    match a
    case Identifier(_, _) =>
    case HofCall(_, param, body, _) =>
      var inner := BodyScope(param, Some(of), env, sc);
      if inner.Some? { SameInfer(body, b.body, env, inner.value); }
    case NormalCall(_, params, _) =>
      assert |params| == |ShallowExprs(params)| == |b.params|;
      if |params| == 1 {
        assert ShallowExpr(params[0]) == ShallowExprs(params)[0] == ShallowExpr(b.params[0]);
        SameInfer(params[0], b.params[0], env, sc);
      }
  }

  // ----- The invariant -----

  lemma SoundAgrees(e: Expr, env: Arena, sc: Scope)
    requires Sound(e, env, sc)
    ensures Agrees(TypeOf(e), Infer(e, env, sc))
  {
    match e
    case Select(s) => SelectionSoundAgrees(s, env, sc);
    case _ =>
  }

  lemma SelectionSoundAgrees(s: Selection, env: Arena, sc: Scope)
    requires SelectionSound(s, env, sc)
    ensures Agrees(s.typ, InferSelection(s, env, sc))
  {
  }

  /** The invariant holds of a tree in which nothing is typed yet. */
  lemma {:induction false} FreshSound(e: Expr, env: Arena, sc: Scope)
    requires Fresh(e) && Parsed(e)
    ensures Sound(e, env, sc)
    decreases e, 0
  {
    match e
    case Lit(_) =>
    case Select(s) => FreshSelectionSound(s, env, sc);
    case Not(x, _) => FreshSound(x, env, sc);
    case Logical(_, l, r, _) => FreshSound(l, env, sc); FreshSound(r, env, sc);
    case Relational(_, l, r, _) => FreshSound(l, env, sc); FreshSound(r, env, sc);
  }

  lemma {:induction false} FreshSelectionSound(s: Selection, env: Arena, sc: Scope)
    requires s == ShallowSelection(s) && SelectionParsed(s)
    ensures SelectionSound(s, env, sc)
    decreases s, 0
  {
    if s.Path? {
      FreshSelectionSound(s.prefix, env, sc);
      assert s.prefix.typ == Defer;
      assert s.elem.typ == Defer;
    }
  }

  // ----- A pass keeps the invariant -----

  lemma LiteralParams(params: seq<Expr>, env: Arena, sc: Scope)
    requires forall i :: 0 <= i < |params| ==> params[i].Lit?
    ensures PassAll(params, env, sc) == Outcome(params, params == [], [])
  {
    if params != [] {
      assert [params[0]] + params[1..] == params;
    }
  }

  lemma {:induction false} PassSound(e: Expr, env: Arena, env0: Arena, sc: Scope)
    requires StateOf(env, env0) && ScopeOk(sc, env0) && Sound(e, env0, sc)
    ensures var r := PassExpr(e, env, sc).node;
            Sound(r, env0, sc) && ShallowExpr(r) == ShallowExpr(e) && Kept(e, r)
    decreases e, 0
  {
    match e
    case Lit(_) =>
    case Select(s) => PassSelectionSound(s, env, env0, sc);
    case Not(x, t) => PassNotSound(e, env, env0, sc);
    case Logical(_, l, r, t) => PassLogicalSound(e, env, env0, sc);
    case Relational(_, l, r, t) => PassRelationalSound(e, env, env0, sc);
  }

  lemma {:induction false} PassNotSound(e: Expr, env: Arena, env0: Arena, sc: Scope)
    requires e.Not? && StateOf(env, env0) && ScopeOk(sc, env0) && Sound(e, env0, sc)
    ensures var r := PassExpr(e, env, sc).node;
            Sound(r, env0, sc) && ShallowExpr(r) == ShallowExpr(e) && Kept(e, r)
    decreases e.arg, 1
  {
    PassSound(e.arg, env, env0, sc);
    var a := PassExpr(e.arg, env, sc).node;
    SoundAgrees(a, env0, sc);
    SameDeref(TypeOf(a), env, env0);
    DerefComplete(TypeOf(a), env);
    SoundAgrees(e.arg, env0, sc);
    KeptRoot(e.arg, a);
    SameInfer(e.arg, a, env0, sc);
  }

  lemma KeptRoot(a: Expr, b: Expr)
    requires Kept(a, b)
    ensures KeptType(TypeOf(a), TypeOf(b))
  {
  }

  /** Facts about an operand that was passed or, with `skipped`, left alone. */
  lemma {:induction false} OperandSound(e: Expr, skipped: bool, env: Arena, env0: Arena, sc: Scope)
    requires StateOf(env, env0) && ScopeOk(sc, env0) && Sound(e, env0, sc)
    ensures OperandOk(e, if skipped then e else PassExpr(e, env, sc).node, env, env0, sc)
    decreases e, 1
  {
    var r := if skipped then e else PassExpr(e, env, sc).node;
    if skipped { KeptRefl(e); } else { PassSound(e, env, env0, sc); }
    SoundAgrees(r, env0, sc);
    KeptRoot(e, r);
    SameInfer(e, r, env0, sc);
    SameDeref(TypeOf(r), env, env0);
    DerefComplete(TypeOf(r), env);
  }

  /** An operand after a pass, seen from its parent. */
  ghost predicate OperandOk(e: Expr, r: Expr, env: Arena, env0: Arena, sc: Scope) {
    && Sound(r, env0, sc) && ShallowExpr(r) == ShallowExpr(e) && Kept(e, r)
    && Agrees(TypeOf(r), Infer(e, env0, sc)) && Infer(r, env0, sc) == Infer(e, env0, sc)
    && KeptType(TypeOf(e), TypeOf(r))
    && Deref(TypeOf(r), env) == Deref(TypeOf(r), env0)
    && (Complete(Deref(TypeOf(r), env)) ==> Complete(TypeOf(r)))
  }

  lemma LogicalStep(e: Expr, l: Expr, r: Expr, fin: Finish, env: Arena, env0: Arena, sc: Scope)
    requires e.Logical? && Sound(e, env0, sc)
    requires OperandOk(e.left, l, env, env0, sc) && OperandOk(e.right, r, env, env0, sc)
    requires fin == FinishLogical(e.typ, Deref(TypeOf(l), env), Deref(TypeOf(r), env))
    ensures var n := Logical(e.lop, l, r, fin.typ);
            Sound(n, env0, sc) && ShallowExpr(n) == ShallowExpr(e) && Kept(e, n)
  {
    var n := Logical(e.lop, l, r, fin.typ);
    assert Infer(n, env0, sc) == Infer(e, env0, sc);
    assert Agrees(fin.typ, Infer(n, env0, sc));
  }

  lemma RelationalStep(e: Expr, l: Expr, r: Expr, fin: Finish, env: Arena, env0: Arena, sc: Scope)
    requires e.Relational? && Sound(e, env0, sc)
    requires OperandOk(e.left, l, env, env0, sc) && OperandOk(e.right, r, env, env0, sc)
    requires fin == FinishRelational(e.typ, e.rop, Deref(TypeOf(l), env), Deref(TypeOf(r), env))
    ensures var n := Relational(e.rop, l, r, fin.typ);
            Sound(n, env0, sc) && ShallowExpr(n) == ShallowExpr(e) && Kept(e, n)
  {
    var n := Relational(e.rop, l, r, fin.typ);
    assert Infer(n, env0, sc) == Infer(e, env0, sc);
    assert Agrees(fin.typ, Infer(n, env0, sc));
  }

  lemma {:induction false} PassLogicalSound(e: Expr, env: Arena, env0: Arena, sc: Scope)
    requires e.Logical? && StateOf(env, env0) && ScopeOk(sc, env0) && Sound(e, env0, sc)
    ensures var r := PassExpr(e, env, sc).node;
            Sound(r, env0, sc) && ShallowExpr(r) == ShallowExpr(e) && Kept(e, r)
    decreases e, -1
  {
    var rl := PassExpr(e.left, env, sc);
    var r := if rl.changed then e.right else PassExpr(e.right, env, sc).node;
    OperandSound(e.left, false, env, env0, sc);
    OperandSound(e.right, rl.changed, env, env0, sc);
    var fin := FinishLogical(e.typ, Deref(TypeOf(rl.node), env), Deref(TypeOf(r), env));
    LogicalStep(e, rl.node, r, fin, env, env0, sc);
    assert PassExpr(e, env, sc).node == Logical(e.lop, rl.node, r, fin.typ);
  }

  lemma {:induction false} PassRelationalSound(e: Expr, env: Arena, env0: Arena, sc: Scope)
    requires e.Relational? && StateOf(env, env0) && ScopeOk(sc, env0) && Sound(e, env0, sc)
    ensures var r := PassExpr(e, env, sc).node;
            Sound(r, env0, sc) && ShallowExpr(r) == ShallowExpr(e) && Kept(e, r)
    decreases e, -1
  {
    var rl := PassExpr(e.left, env, sc);
    var r := if rl.changed then e.right else PassExpr(e.right, env, sc).node;
    OperandSound(e.left, false, env, env0, sc);
    OperandSound(e.right, rl.changed, env, env0, sc);
    var fin := FinishRelational(e.typ, e.rop, Deref(TypeOf(rl.node), env), Deref(TypeOf(r), env));
    RelationalStep(e, rl.node, r, fin, env, env0, sc);
    assert PassExpr(e, env, sc).node == Relational(e.rop, rl.node, r, fin.typ);
  }

  lemma {:induction false} PassSelectionSound(s: Selection, env: Arena, env0: Arena, sc: Scope)
    requires StateOf(env, env0) && ScopeOk(sc, env0) && SelectionSound(s, env0, sc)
    ensures var r := PassSelection(s, env, sc).node;
            SelectionSound(r, env0, sc) && ShallowSelection(r) == ShallowSelection(s) && KeptSelection(s, r)
    decreases s, 0
  {
    match s
    case Single(el, t) => SameResolution(el.name, env, env0, sc);
    case Path(p, el, t) => PassPathSound(s, env, env0, sc);
  }

  /** The element of a selection whose slot is unresolved and whose prefix is resolved. */
  predicate ElementReady(el: Element, of: Type, env: Arena, sc: Scope) {
    && (el.typ.Defer? || el.typ.Error?)
    && match el
       case Identifier(_, _) => true
       case HofCall(_, param, body, _) =>
         BodyScope(param, Some(of), env, sc).Some? && Sound(body, env, BodyScope(param, Some(of), env, sc).value)
       case NormalCall(_, params, _) => forall i :: 0 <= i < |params| ==> params[i].Lit?
  }

  predicate ElementTried(el: Element, of: Type, env: Arena, sc: Scope) {
    match el
    case Identifier(_, _) => true
    case HofCall(_, param, body, u) =>
      && u == TypeOf(body)
      && BodyScope(param, Some(of), env, sc).Some?
      && Sound(body, env, BodyScope(param, Some(of), env, sc).value)
    case NormalCall(_, params, u) =>
      && (forall i :: 0 <= i < |params| ==> params[i].Lit?)
      && (Complete(u) <==> ContainsApplies(el, of))
  }

  lemma BodyScopeOk(param: string, of: Type, env: Arena, sc: Scope)
    requires HasName(of, env) && ScopeOk(sc, env)
    ensures BodyScope(param, Some(of), env, sc).Some? && ScopeOk(BodyScope(param, Some(of), env, sc).value, env)
  {
  }

  lemma {:induction false} PassBodySound(el: Element, of: Type, env: Arena, env0: Arena, sc: Scope)
    requires el.HofCall? && StateOf(env, env0) && ScopeOk(sc, env0) && HasName(of, env0) &&
             ElementReady(el, of, env0, sc)
    ensures var r := PassElement(el, env, sc, Some(of)).node;
            && ElementTried(r, of, env0, sc) && Agrees(r.typ, InferElement(el, env0, sc, of))
            && ShallowElement(r) == ShallowElement(el) && KeptElement(el, r)
    decreases el, 0
  {
    SameBodyScope(el.param, of, env, env0, sc);
    BodyScopeOk(el.param, of, env0, sc);
    var inner := BodyScope(el.param, Some(of), env0, sc).value;
    OperandSound(el.body, false, env, env0, inner);
    var b := PassExpr(el.body, env, inner).node;
    assert PassElement(el, env, sc, Some(of)).node == HofCall(el.name, el.param, b, TypeOf(b));
  }

  lemma {:induction false} PassElementSound(el: Element, of: Type, env: Arena, env0: Arena, sc: Scope)
    requires StateOf(env, env0) && ScopeOk(sc, env0) && HasName(of, env0) && ElementReady(el, of, env0, sc)
    ensures var r := PassElement(el, env, sc, Some(of)).node;
            && ElementTried(r, of, env0, sc) && Agrees(r.typ, InferElement(el, env0, sc, of))
            && ShallowElement(r) == ShallowElement(el) && KeptElement(el, r)
    decreases el, 1
  {
    match el
    case Identifier(n, t) => SameResolution(n, env, env0, sc);
    case HofCall(n, param, body, t) => PassBodySound(el, of, env, env0, sc);
    case NormalCall(n, params, t) => PassCallSound(el, of, env, env0, sc);
  }

  lemma {:induction false} PassCallSound(el: Element, of: Type, env: Arena, env0: Arena, sc: Scope)
    requires el.NormalCall? && StateOf(env, env0) && HasName(of, env0) && ElementReady(el, of, env0, sc)
    ensures var r := PassElement(el, env, sc, Some(of)).node;
            && ElementTried(r, of, env0, sc) && Agrees(r.typ, InferElement(el, env0, sc, of))
            && ShallowElement(r) == ShallowElement(el) && KeptElement(el, r)
  {
    PassedCall(el, of, env, sc);
    assert |el.params| == 1 ==> Infer(el.params[0], env0, sc) == TypeOf(el.params[0]);
  }

  /** A pass over a call with literal parameters: only its own slot can change. */
  lemma {:induction false} PassedCall(el: Element, of: Type, env: Arena, sc: Scope)
    requires el.NormalCall? && forall i :: 0 <= i < |el.params| ==> el.params[i].Lit?
    ensures PassElement(el, env, sc, Some(of)).node ==
            NormalCall(el.name, el.params, if ContainsApplies(el, of) then BOOLEAN
                                           else if el.name == "contains" && |el.params| >= 2 then el.typ else Error)
  {
    LiteralParams(el.params, env, sc);
  }

  /** A selection's prefix after a pass. */
  ghost predicate PrefixOk(p: Selection, r: Selection, env: Arena, env0: Arena, sc: Scope) {
    && SelectionSound(r, env0, sc) && ShallowSelection(r) == ShallowSelection(p) && KeptSelection(p, r)
    && Agrees(r.typ, InferSelection(r, env0, sc)) && InferSelection(r, env0, sc) == InferSelection(p, env0, sc)
    && (p.typ.Defer? || p.typ.Error? || r.typ == p.typ)
    && Deref(r.typ, env) == Deref(r.typ, env0)
  }

  /** An element under a prefix that is still unresolved, or under one that was resolved before. */
  lemma ElementMadeReady(s: Selection, p: Selection, env: Arena, env0: Arena, sc: Scope)
    requires s.Path? && StateOf(env, env0) && ScopeOk(sc, env0) && SelectionSound(s, env0, sc)
    requires PrefixOk(s.prefix, p, env, env0, sc) && Incomplete(s.typ)
    requires PassesElement(TargetOf(Deref(p.typ, env)), s.elem)
    ensures Complete(p.typ)
    ensures var of := TargetOf(Deref(p.typ, env)).of; HasName(of, env0) && ElementReady(s.elem, of, env0, sc)
  {
    TargetHasName(p, env0, sc);
    var of := TargetOf(Deref(p.typ, env)).of;
    if s.elem.HofCall? {
      BodyScopeOk(s.elem.param, of, env0, sc);
      if Incomplete(s.prefix.typ) {
        FreshSound(s.elem.body, env0, BodyScope(s.elem.param, Some(of), env0, sc).value);
      }
    }
  }

  lemma ElementStep(s: Selection, p: Selection, el: Element, env: Arena, env0: Arena, sc: Scope)
    requires s.Path? && PrefixOk(s.prefix, p, env, env0, sc) && Incomplete(s.typ) && Complete(p.typ)
    requires PassesElement(TargetOf(Deref(p.typ, env)), s.elem)
    requires var of := TargetOf(Deref(p.typ, env)).of;
             && ElementTried(el, of, env0, sc) && Agrees(el.typ, InferElement(s.elem, env0, sc, of))
             && ShallowElement(el) == ShallowElement(s.elem) && KeptElement(s.elem, el)
    ensures var n := Path(p, el, el.typ);
            SelectionSound(n, env0, sc) && ShallowSelection(n) == ShallowSelection(s) && KeptSelection(s, n)
  {
    var target := TargetOf(Deref(p.typ, env));
    SameInferElement(s.elem, el, env0, sc, target.of);
    var n := Path(p, el, el.typ);
    assert PassesElement(target, el);
    assert InferSelection(n, env0, sc) == InferElement(el, env0, sc, target.of);
    assert ElementSound(el, el.typ, p.typ, env0, sc);
  }

  /** A selection whose element is not passed: its slot is resolved from the composite, or
      erroneous. */
  lemma PlainStep(s: Selection, p: Selection, t: Type, env: Arena, env0: Arena, sc: Scope)
    requires s.Path? && SelectionSound(s, env0, sc) && PrefixOk(s.prefix, p, env, env0, sc)
    requires Complete(s.typ) ==> t == s.typ
    requires Incomplete(s.typ) ==> !PassesElement(TargetOf(Deref(p.typ, env)), s.elem)
    requires Agrees(t, InferSelection(s, env0, sc)) && (Complete(t) ==> Complete(p.typ))
    ensures var n := Path(p, s.elem, t);
            SelectionSound(n, env0, sc) && ShallowSelection(n) == ShallowSelection(s) && KeptSelection(s, n)
  {
    var n := Path(p, s.elem, t);
    KeptElementRefl(s.elem);
    assert InferSelection(n, env0, sc) == InferSelection(s, env0, sc);
    assert ElementSound(s.elem, t, p.typ, env0, sc);
  }

  lemma RejectedCall(s: Selection, p: Selection, env: Arena, env0: Arena, sc: Scope)
    requires s.Path? && SelectionSound(s, env0, sc) && PrefixOk(s.prefix, p, env, env0, sc)
    requires Incomplete(s.typ) && s.elem.NormalCall? && TargetOf(Deref(p.typ, env)).OnComposite?
    ensures var n := Path(p, NormalCall(s.elem.name, s.elem.params, Error), s.typ);
            SelectionSound(n, env0, sc) && ShallowSelection(n) == ShallowSelection(s) && KeptSelection(s, n)
  {
    var n := Path(p, NormalCall(s.elem.name, s.elem.params, Error), s.typ);
    assert InferSelection(n, env0, sc) == Error || Incomplete(p.typ);
  }

  lemma {:induction false} PassPathSound(s: Selection, env: Arena, env0: Arena, sc: Scope)
    requires s.Path? && StateOf(env, env0) && ScopeOk(sc, env0) && SelectionSound(s, env0, sc)
    ensures var r := PassSelection(s, env, sc).node;
            SelectionSound(r, env0, sc) && ShallowSelection(r) == ShallowSelection(s) && KeptSelection(s, r)
    decreases s, -1
  {
    var rp := PassSelection(s.prefix, env, sc);
    var p := rp.node;
    PassSelectionSound(s.prefix, env, env0, sc);
    PrefixAfterPass(s.prefix, p, env, env0, sc);
    SelectionSoundAgrees(s, env0, sc);
    var target := TargetOf(Deref(p.typ, env));
    if Complete(s.typ) {
      PlainStep(s, p, s.typ, env, env0, sc);
    } else if PassesElement(target, s.elem) {
      ElementMadeReady(s, p, env, env0, sc);
      PassElementSound(s.elem, target.of, env, env0, sc);
      ElementStep(s, p, PassElement(s.elem, env, sc, Some(target.of)).node, env, env0, sc);
    } else {
      UnpassedNode(s, env, sc);
      UnpassedSound(s, p, env, env0, sc);
    }
  }

  /** A selection whose element is not passed, after a pass that left the prefix as `p`. */
  function Unpassed(s: Selection, p: Selection, env: Arena): Selection
    requires s.Path?
  {
    var target := TargetOf(Deref(p.typ, env));
    if target.OnComposite? && s.elem.NormalCall? then Path(p, NormalCall(s.elem.name, s.elem.params, Error), s.typ)
    else if target.OnComposite? && s.elem.Identifier? then Path(p, s.elem, FinishField(target.id, s.elem.name, env).typ)
    else Path(p, s.elem, Error)
  }

  lemma UnpassedNode(s: Selection, env: Arena, sc: Scope)
    requires s.Path? && Incomplete(s.typ)
    requires !PassesElement(TargetOf(Deref(PassSelection(s.prefix, env, sc).node.typ, env)), s.elem)
    ensures PassSelection(s, env, sc).node == Unpassed(s, PassSelection(s.prefix, env, sc).node, env)
  {
  }

  /** The same selection, sound and with every resolved slot kept. */
  ghost predicate SelectionNext(s: Selection, r: Selection, env0: Arena, sc: Scope) {
    SelectionSound(r, env0, sc) && ShallowSelection(r) == ShallowSelection(s) && KeptSelection(s, r)
  }

  lemma {:induction false} UnpassedSound(s: Selection, p: Selection, env: Arena, env0: Arena, sc: Scope)
    requires s.Path? && StateOf(env, env0) && SelectionSound(s, env0, sc) && Incomplete(s.typ)
    requires PrefixOk(s.prefix, p, env, env0, sc) && !PassesElement(TargetOf(Deref(p.typ, env)), s.elem)
    ensures SelectionNext(s, Unpassed(s, p, env), env0, sc)
  {
    var target := TargetOf(Deref(p.typ, env));
    if target.OnComposite? && s.elem.NormalCall? {
      RejectedCall(s, p, env, env0, sc);
    } else if target.OnComposite? && s.elem.Identifier? {
      FieldSound(s, p, target.id, env, env0, sc);
    } else {
      PlainStep(s, p, Error, env, env0, sc);
    }
  }

  lemma FieldSound(s: Selection, p: Selection, c: nat, env: Arena, env0: Arena, sc: Scope)
    requires s.Path? && StateOf(env, env0) && SelectionSound(s, env0, sc) && Incomplete(s.typ) && s.elem.Identifier?
    requires PrefixOk(s.prefix, p, env, env0, sc) && TargetOf(Deref(p.typ, env)) == OnComposite(c)
    ensures SelectionNext(s, Path(p, s.elem, FinishField(c, s.elem.name, env).typ), env0, sc)
  {
    FieldInferred(s, p, c, env, env0, sc);
    FinishFieldAgrees(c, s.elem.name, env, env0);
    PlainStep(s, p, FinishField(c, s.elem.name, env).typ, env, env0, sc);
  }

  lemma FieldInferred(s: Selection, p: Selection, c: nat, env: Arena, env0: Arena, sc: Scope)
    requires s.Path? && s.elem.Identifier? && PrefixOk(s.prefix, p, env, env0, sc)
    requires TargetOf(Deref(p.typ, env)) == OnComposite(c)
    ensures Complete(p.typ)
    ensures var t := TypeOfField(c, s.elem.name, env0); InferSelection(s, env0, sc) == if Complete(t) then t else Error
  {
  }

  lemma PrefixAfterPass(p: Selection, r: Selection, env: Arena, env0: Arena, sc: Scope)
    requires StateOf(env, env0) && SelectionSound(p, env0, sc) && SelectionSound(r, env0, sc)
    requires ShallowSelection(r) == ShallowSelection(p) && KeptSelection(p, r)
    ensures PrefixOk(p, r, env, env0, sc)
  {
    SelectionSoundAgrees(p, env0, sc);
    SelectionSoundAgrees(r, env0, sc);
    SameInferSelection(r, p, env0, sc);
    SameDeref(r.typ, env, env0);
  }

  /** A complete node is left alone, in silence. */
  lemma {:induction false} CompleteIdle(e: Expr, env: Arena, env0: Arena, sc: Scope)
    requires Sound(e, env0, sc) && Complete(TypeOf(e))
    ensures PassExpr(e, env, sc) == Outcome(e, false, [])
    decreases e, 0
  {
    match e
    case Lit(_) =>
    case Select(s) => CompleteSelectionIdle(s, env, env0, sc);
    case Not(x, t) => CompleteIdle(x, env, env0, sc);
    case Logical(_, l, r, t) => CompleteIdle(l, env, env0, sc); CompleteIdle(r, env, env0, sc);
    case Relational(_, l, r, t) => CompleteIdle(l, env, env0, sc); CompleteIdle(r, env, env0, sc);
  }

  lemma {:induction false} CompleteSelectionIdle(s: Selection, env: Arena, env0: Arena, sc: Scope)
    requires SelectionSound(s, env0, sc) && Complete(s.typ)
    ensures PassSelection(s, env, sc) == Outcome(s, false, [])
    decreases s, 0
  {
    if s.Path? { CompleteSelectionIdle(s.prefix, env, env0, sc); }
  }
}
