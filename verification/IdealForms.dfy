/** The two forms an expression can end in: with the prefixes of plain fields on sets resolved, or loosened. */
module IdealForms {
  import opened Wrappers
  import opened Ast
  import opened Passes
  import opened OneShot
  import opened EnvironmentLemmas
  import opened ExprSoundness
  import opened ExprProgress
  import opened ExprCompletion
  import opened QuietForms
  import opened QuietWitnesses

  /** Every slot the one-shot typing reaches is resolved; if `loose`, except the sets that plain fields are
      selected on. */
  function Ideal(e: Expr, env: Arena, sc: Scope, loose: bool): Expr
    decreases e, 0
  {
    match e
    case Lit(_) => e
    case Select(s) => Select(IdealSelection(s, env, sc, loose))
    case Not(x, _) => Not(Ideal(x, env, sc, loose), BlankType(Infer(e, env, sc)))
    case Logical(op, l, r, _) =>
      Logical(op, Ideal(l, env, sc, loose), Ideal(r, env, sc, loose), BlankType(Infer(e, env, sc)))
    case Relational(op, l, r, _) =>
      Relational(op, Ideal(l, env, sc, loose), Ideal(r, env, sc, loose), BlankType(Infer(e, env, sc)))
  }

  function IdealSelection(s: Selection, env: Arena, sc: Scope, loose: bool): Selection
    decreases s, 0
  {
    var t := BlankType(InferSelection(s, env, sc));
    match s
    case Single(el, _) => Single(if el.Identifier? then Identifier(el.name, t) else el, t)
    case Path(p, el, _) =>
      var target := TargetOf(Deref(InferSelection(p, env, sc), env));
      var q := IdealSelection(p, env, sc, loose);
      if target.OnSet? && el.Identifier? then Path(if loose then Loosen(q) else q, ShallowElement(el), Defer)
      else if PassesElement(target, el) then Path(q, IdealElement(el, env, sc, target.of, t, loose), t)
      else Path(q, ShallowElement(el), t)
  }

  function IdealElement(el: Element, env: Arena, sc: Scope, of: Type, t: Type, loose: bool): Element
    decreases el, 0
  {
    match el
    case Identifier(n, _) => Identifier(n, t)
    case NormalCall(n, params, _) => NormalCall(n, params, t)
    case HofCall(n, param, body, _) => (
      match BodyScope(param, Some(of), env, sc)
      case None => ShallowElement(el)
      case Some(inner) => HofCall(n, param, Ideal(body, env, inner, loose), t))
  }

  // ----- They are sound, and of the same shape -----

  lemma {:induction false} ShallowTwice(e: Expr)
    ensures ShallowExpr(ShallowExpr(e)) == ShallowExpr(e)
    decreases e, 0
  {
    match e
    case Lit(_) =>
    case Select(s) => ShallowSelectionTwice(s);
    case Not(x, _) => ShallowTwice(x);
    case Logical(_, l, r, _) => ShallowTwice(l); ShallowTwice(r);
    case Relational(_, l, r, _) => ShallowTwice(l); ShallowTwice(r);
  }

  lemma {:induction false} ShallowSelectionTwice(s: Selection)
    ensures ShallowSelection(ShallowSelection(s)) == ShallowSelection(s)
    decreases s, 0
  {
    match s
    case Single(el, _) => ShallowElementTwice(el);
    case Path(p, el, _) => ShallowSelectionTwice(p); ShallowElementTwice(el);
  }

  lemma {:induction false} ShallowElementTwice(el: Element)
    ensures ShallowElement(ShallowElement(el)) == ShallowElement(el)
    decreases el, 0
  {
    match el
    case Identifier(_, _) =>
    case HofCall(_, _, body, _) => ShallowTwice(body);
    case NormalCall(_, params, _) =>
      forall i | 0 <= i < |params| ensures ShallowExpr(ShallowExpr(params[i])) == ShallowExpr(params[i]) {
        ShallowTwice(params[i]);
      }
      assert ShallowExprs(ShallowExprs(params)) == ShallowExprs(params);
  }

  ghost predicate Settled(env: Arena, env0: Arena, sc: Scope) {
    StateOf(env, env0) && EnvSettled(env) && ScopeOk(sc, env0)
  }

  /** What an ideal form has in common with the expression it is made from. */
  ghost predicate FormOf(r: Expr, e: Expr, env0: Arena, sc: Scope) {
    Sound(r, env0, sc) && ShallowExpr(r) == ShallowExpr(e) && TypeOf(r) == BlankType(Infer(e, env0, sc))
  }

  ghost predicate SelectionFormOf(r: Selection, s: Selection, env0: Arena, sc: Scope) {
    SelectionSound(r, env0, sc) && ShallowSelection(r) == ShallowSelection(s) &&
    r.typ == BlankType(InferSelection(s, env0, sc))
  }

  lemma {:induction false} IdealSound(e: Expr, env: Arena, env0: Arena, sc: Scope, loose: bool)
    requires Settled(env, env0, sc) && Sound(e, env0, sc)
    ensures FormOf(Ideal(e, env0, sc, loose), e, env0, sc)
    decreases e, 2
  {
    match e
    case Lit(_) =>
    case Select(s) => IdealSelectionSound(s, env, env0, sc, loose);
    case Not(x, _) =>
      IdealSound(x, env, env0, sc, loose);
      IdealOperator(e, env0, sc, loose);
    case Logical(_, l, r, _) =>
      IdealSound(l, env, env0, sc, loose);
      IdealSound(r, env, env0, sc, loose);
      IdealOperator(e, env0, sc, loose);
    case Relational(_, l, r, _) =>
      IdealSound(l, env, env0, sc, loose);
      IdealSound(r, env, env0, sc, loose);
      IdealOperator(e, env0, sc, loose);
  }

  lemma IdealOperator(e: Expr, env0: Arena, sc: Scope, loose: bool)
    requires e.Not? || e.Logical? || e.Relational?
    requires e.Not? ==> FormOf(Ideal(e.arg, env0, sc, loose), e.arg, env0, sc)
    requires e.Logical? || e.Relational? ==>
               FormOf(Ideal(e.left, env0, sc, loose), e.left, env0, sc) &&
               FormOf(Ideal(e.right, env0, sc, loose), e.right, env0, sc)
    ensures FormOf(Ideal(e, env0, sc, loose), e, env0, sc)
  {
    var r := Ideal(e, env0, sc, loose);
    assert ShallowExpr(r) == ShallowExpr(e);
    SameInfer(r, e, env0, sc);
    InferredTypable(e, env0, sc);
    if e.Not? {
      InferredTypable(e.arg, env0, sc);
    } else {
      InferredTypable(e.left, env0, sc);
      InferredTypable(e.right, env0, sc);
    }
  }

  lemma {:induction false} IdealSelectionSound(s: Selection, env: Arena, env0: Arena, sc: Scope, loose: bool)
    requires Settled(env, env0, sc) && SelectionSound(s, env0, sc)
    ensures SelectionFormOf(IdealSelection(s, env0, sc, loose), s, env0, sc)
    decreases s, 2
  {
    match s
    case Single(el, _) =>
    case Path(p, el, _) =>
      IdealSelectionSound(p, env, env0, sc, loose);
      SelectionInferredTypable(s, env0, sc);
      SelectionInferredTypable(p, env0, sc);
      var target := TargetOf(Deref(InferSelection(p, env0, sc), env0));
      if target.OnSet? && el.Identifier? {
        IdealSite(s, env, env0, sc, loose);
      } else if PassesElement(target, el) {
        IdealPassed(s, env, env0, sc, loose);
      } else {
        IdealUntried(s, env0, sc, loose);
      }
  }

  lemma IdealSite(s: Selection, env: Arena, env0: Arena, sc: Scope, loose: bool)
    requires Settled(env, env0, sc) && s.Path? && SelectionSound(s, env0, sc) && s.elem.Identifier?
    requires IsSet(InferSelection(s.prefix, env0, sc), env0)
    requires SelectionFormOf(IdealSelection(s.prefix, env0, sc, loose), s.prefix, env0, sc)
    ensures SelectionFormOf(IdealSelection(s, env0, sc, loose), s, env0, sc)
  {
    var q := IdealSelection(s.prefix, env0, sc, loose);
    SelectionInferredOrError(s.prefix, env0, sc);
    if loose { LoosenedPass(q, env, env0, sc); }
    var r := IdealSelection(s, env0, sc, loose);
    assert ElementSound(r.elem, r.typ, r.prefix.typ, env0, sc);
  }

  /** An element that has not been tried is as the parser left it. */
  lemma IdealUntried(s: Selection, env0: Arena, sc: Scope, loose: bool)
    requires s.Path? && SelectionSound(s, env0, sc)
    requires var target := TargetOf(Deref(InferSelection(s.prefix, env0, sc), env0));
             !(target.OnSet? && s.elem.Identifier?) && !PassesElement(target, s.elem)
    requires SelectionFormOf(IdealSelection(s.prefix, env0, sc, loose), s.prefix, env0, sc)
    requires SelectionTypable(s, env0, sc) <==> Complete(InferSelection(s, env0, sc))
    requires SelectionTypable(s.prefix, env0, sc) <==> Complete(InferSelection(s.prefix, env0, sc))
    ensures SelectionFormOf(IdealSelection(s, env0, sc, loose), s, env0, sc)
  {
    var r := IdealSelection(s, env0, sc, loose);
    SelectionSoundAgrees(s.prefix, env0, sc);
    assert ElementSound(s.elem, s.typ, s.prefix.typ, env0, sc);
    ShallowElementTwice(s.elem);
    assert ShallowSelection(r) == ShallowSelection(s);
    SameInferSelection(r, s, env0, sc);
    UntriedElement(s.elem, s.typ, r.typ, s.prefix.typ, r.prefix.typ, env0, sc);
  }

  lemma UntriedElement(el: Element, t: Type, t': Type, prefix: Type, prefix': Type, env0: Arena, sc: Scope)
    requires ElementSound(el, t, prefix, env0, sc)
    requires !(Complete(prefix) && PassesElement(TargetOf(Deref(prefix, env0)), el))
    requires !(Complete(prefix') && PassesElement(TargetOf(Deref(prefix', env0)), el))
    ensures ElementSound(ShallowElement(el), t', prefix', env0, sc)
  {
    if el.NormalCall? {
      forall i | 0 <= i < |el.params| ensures ShallowExprs(el.params)[i].Lit? {
        assert ShallowExprs(el.params)[i] == ShallowExpr(el.params[i]);
      }
    }
  }

  /** The body of a higher-order call that will be tried is sound in its scope. */
  lemma TriedBody(s: Selection, env0: Arena, sc: Scope)
    requires env0.Valid() && ScopeOk(sc, env0) && s.Path? && SelectionSound(s, env0, sc) && s.elem.HofCall?
    requires PassesElement(TargetOf(Deref(InferSelection(s.prefix, env0, sc), env0)), s.elem)
    ensures var of := TargetOf(Deref(InferSelection(s.prefix, env0, sc), env0)).of;
            && BodyScope(s.elem.param, Some(of), env0, sc).Some?
            && ScopeOk(BodyScope(s.elem.param, Some(of), env0, sc).value, env0)
            && Sound(s.elem.body, env0, BodyScope(s.elem.param, Some(of), env0, sc).value)
  {
    var of := TargetOf(Deref(InferSelection(s.prefix, env0, sc), env0)).of;
    SelectionSoundAgrees(s.prefix, env0, sc);
    SelectionInferredOrError(s.prefix, env0, sc);
    assert ElementSound(s.elem, s.typ, s.prefix.typ, env0, sc);
    TargetHasName(s.prefix, env0, sc);
    BodyScopeOk(s.elem.param, of, env0, sc);
    if Incomplete(s.prefix.typ) { FreshSound(s.elem.body, env0, BodyScope(s.elem.param, Some(of), env0, sc).value); }
  }

  lemma {:induction false} IdealPassed(s: Selection, env: Arena, env0: Arena, sc: Scope, loose: bool)
    requires Settled(env, env0, sc) && s.Path? && SelectionSound(s, env0, sc)
    requires var target := TargetOf(Deref(InferSelection(s.prefix, env0, sc), env0));
             !(target.OnSet? && s.elem.Identifier?) && PassesElement(target, s.elem)
    requires SelectionFormOf(IdealSelection(s.prefix, env0, sc, loose), s.prefix, env0, sc)
    ensures SelectionFormOf(IdealSelection(s, env0, sc, loose), s, env0, sc)
    decreases s, 1
  {
    var of := TargetOf(Deref(InferSelection(s.prefix, env0, sc), env0)).of;
    var r := IdealSelection(s, env0, sc, loose);
    SelectionInferredOrError(s.prefix, env0, sc);
    assert ElementSound(s.elem, s.typ, s.prefix.typ, env0, sc);
    match s.elem
    case Identifier(_, _) => IdealElementSound(s, env0, sc, loose);
    case NormalCall(_, params, _) => IdealElementSound(s, env0, sc, loose);
    case HofCall(_, param, body, _) =>
      TriedBody(s, env0, sc);
      IdealSound(body, env, env0, BodyScope(param, Some(of), env0, sc).value, loose);
      IdealElementSound(s, env0, sc, loose);
  }

  lemma {:induction false} IdealElementShape(s: Selection, env0: Arena, sc: Scope, loose: bool)
    requires s.Path? && SelectionSound(s, env0, sc) && Complete(InferSelection(s.prefix, env0, sc))
    requires var target := TargetOf(Deref(InferSelection(s.prefix, env0, sc), env0));
             !(target.OnSet? && s.elem.Identifier?) && PassesElement(target, s.elem)
    requires SelectionFormOf(IdealSelection(s.prefix, env0, sc, loose), s.prefix, env0, sc)
    requires s.elem.HofCall? ==>
               var of := TargetOf(Deref(InferSelection(s.prefix, env0, sc), env0)).of;
               var inner := BodyScope(s.elem.param, Some(of), env0, sc);
               inner.Some? && FormOf(Ideal(s.elem.body, env0, inner.value, loose), s.elem.body, env0, inner.value)
    ensures var of := TargetOf(Deref(InferSelection(s.prefix, env0, sc), env0)).of;
            var r := IdealSelection(s, env0, sc, loose);
            r.Path? && r.elem == IdealElement(s.elem, env0, sc, of, r.typ, loose) &&
            ShallowSelection(r) == ShallowSelection(s)
  {
    var of := TargetOf(Deref(InferSelection(s.prefix, env0, sc), env0)).of;
    var r := IdealSelection(s, env0, sc, loose);
    assert r.elem == IdealElement(s.elem, env0, sc, of, r.typ, loose);
    assert ShallowElement(r.elem) == ShallowElement(s.elem);
  }

  lemma {:induction false} IdealElementSound(s: Selection, env0: Arena, sc: Scope, loose: bool)
    requires s.Path? && SelectionSound(s, env0, sc) && Complete(InferSelection(s.prefix, env0, sc))
    requires var target := TargetOf(Deref(InferSelection(s.prefix, env0, sc), env0));
             !(target.OnSet? && s.elem.Identifier?) && PassesElement(target, s.elem)
    requires SelectionFormOf(IdealSelection(s.prefix, env0, sc, loose), s.prefix, env0, sc)
    requires s.elem.HofCall? ==>
               var of := TargetOf(Deref(InferSelection(s.prefix, env0, sc), env0)).of;
               var inner := BodyScope(s.elem.param, Some(of), env0, sc);
               inner.Some? && FormOf(Ideal(s.elem.body, env0, inner.value, loose), s.elem.body, env0, inner.value)
    ensures SelectionFormOf(IdealSelection(s, env0, sc, loose), s, env0, sc)
  {
    var of := TargetOf(Deref(InferSelection(s.prefix, env0, sc), env0)).of;
    var r := IdealSelection(s, env0, sc, loose);
    assert ElementSound(s.elem, s.typ, s.prefix.typ, env0, sc);
    IdealElementShape(s, env0, sc, loose);
    SameInferSelection(r, s, env0, sc);
    assert InferSelection(s, env0, sc) == InferElement(s.elem, env0, sc, of);
    if s.elem.NormalCall? {
      assert |s.elem.params| == 1 ==>
               s.elem.params[0].Lit? && Infer(s.elem.params[0], env0, sc) == TypeOf(s.elem.params[0]);
    }
    assert ElementSound(r.elem, r.typ, r.prefix.typ, env0, sc);
  }

  // ----- A pass leaves them alone -----

  /** What a pass does to a node that holds its one-shot type already, or has none. */
  lemma SlotStays(r: Expr, e: Expr, env: Arena, env0: Arena, sc: Scope)
    requires Settled(env, env0, sc) && FormOf(r, e, env0, sc)
    ensures TypeOf(PassExpr(r, env, sc).node) == TypeOf(r) ||
            (Incomplete(TypeOf(PassExpr(r, env, sc).node)) && Incomplete(TypeOf(r)))
  {
    PassSound(r, env, env0, sc);
    SoundAgrees(PassExpr(r, env, sc).node, env0, sc);
    SameInfer(PassExpr(r, env, sc).node, e, env0, sc);
    SameInfer(r, e, env0, sc);
    if Complete(TypeOf(r)) { CompleteIdle(r, env, env0, sc); }
  }

  lemma SelectionSlotStays(r: Selection, s: Selection, env: Arena, env0: Arena, sc: Scope)
    requires Settled(env, env0, sc) && SelectionFormOf(r, s, env0, sc)
    ensures var n := PassSelection(r, env, sc).node; n.typ == r.typ || (Incomplete(n.typ) && Incomplete(r.typ))
  {
    SlotStays(Select(r), Select(s), env, env0, sc);
  }

  lemma {:induction false} IdealQuiet(e: Expr, env: Arena, env0: Arena, sc: Scope, loose: bool)
    requires Settled(env, env0, sc) && Sound(e, env0, sc)
    ensures !PassExpr(Ideal(e, env0, sc, loose), env, sc).changed
    decreases e, 2
  {
    IdealSound(e, env, env0, sc, loose);
    SlotStays(Ideal(e, env0, sc, loose), e, env, env0, sc);
    match e
    case Lit(_) =>
    case Select(s) => IdealSelectionQuiet(s, env, env0, sc, loose);
    case Not(x, _) => IdealQuiet(x, env, env0, sc, loose);
    case Logical(_, l, r, _) =>
      IdealQuiet(l, env, env0, sc, loose);
      IdealQuiet(r, env, env0, sc, loose);
    case Relational(_, l, r, _) =>
      IdealQuiet(l, env, env0, sc, loose);
      IdealQuiet(r, env, env0, sc, loose);
  }

  lemma {:induction false} IdealSelectionQuiet(s: Selection, env: Arena, env0: Arena, sc: Scope, loose: bool)
    requires Settled(env, env0, sc) && SelectionSound(s, env0, sc)
    ensures !PassSelection(IdealSelection(s, env0, sc, loose), env, sc).changed
    decreases s, 2
  {
    IdealSelectionSound(s, env, env0, sc, loose);
    var r := IdealSelection(s, env0, sc, loose);
    SelectionSlotStays(r, s, env, env0, sc);
    match s
    case Single(el, _) => SameResolution(el.name, env, env0, sc);
    case Path(p, el, _) =>
      IdealSelectionSound(p, env, env0, sc, loose);
      IdealSelectionQuiet(p, env, env0, sc, loose);
      IdealPrefix(s, env, env0, sc, loose);
      var target := TargetOf(Deref(InferSelection(p, env0, sc), env0));
      if target.OnSet? && el.Identifier? {
        SiteQuiet(s, env, env0, sc, loose);
      } else if Incomplete(r.typ) {
        if PassesElement(target, el) {
          PassedQuiet(s, env, env0, sc, loose);
        } else {
          UnpassedQuiet(s, env, env0, sc, loose);
        }
      }
  }

  /** After a pass, the prefix of an ideal form leads where its one-shot type does. */
  lemma IdealPrefix(s: Selection, env: Arena, env0: Arena, sc: Scope, loose: bool)
    requires Settled(env, env0, sc) && s.Path? && SelectionSound(s, env0, sc)
    requires SelectionFormOf(IdealSelection(s.prefix, env0, sc, loose), s.prefix, env0, sc)
    ensures TargetOf(Deref(PassSelection(IdealSelection(s.prefix, env0, sc, loose), env, sc).node.typ, env)) ==
            TargetOf(Deref(InferSelection(s.prefix, env0, sc), env0))
  {
    var q := IdealSelection(s.prefix, env0, sc, loose);
    SelectionSlotStays(q, s.prefix, env, env0, sc);
    SelectionInferredOrError(s.prefix, env0, sc);
    PassSelectionSound(q, env, env0, sc);
    SelectionSoundAgrees(PassSelection(q, env, sc).node, env0, sc);
    if Complete(q.typ) {
      SelectionSoundAgrees(q, env0, sc);
      SameDeref(q.typ, env, env0);
    }
  }

  lemma SiteQuiet(s: Selection, env: Arena, env0: Arena, sc: Scope, loose: bool)
    requires Settled(env, env0, sc) && s.Path? && SelectionSound(s, env0, sc) && s.elem.Identifier?
    requires IsSet(InferSelection(s.prefix, env0, sc), env0)
    requires SelectionFormOf(IdealSelection(s.prefix, env0, sc, loose), s.prefix, env0, sc)
    ensures !PassSelection(IdealSelection(s, env0, sc, loose), env, sc).changed
  {
    var q := IdealSelection(s.prefix, env0, sc, loose);
    SelectionInferredOrError(s.prefix, env0, sc);
    SitePrefix(q, env, env0, sc, loose);
    SiteForm(s, env0, sc, loose);
    UnchangedAtSite(IdealSelection(s, env0, sc, loose), env, sc);
  }

  lemma SiteForm(s: Selection, env: Arena, sc: Scope, loose: bool)
    requires s.Path? && s.elem.Identifier? && IsSet(InferSelection(s.prefix, env, sc), env)
    ensures var q := IdealSelection(s.prefix, env, sc, loose);
            IdealSelection(s, env, sc, loose) == Path(if loose then Loosen(q) else q, ShallowElement(s.elem), Defer)
  {
  }

  lemma SitePrefix(q: Selection, env: Arena, env0: Arena, sc: Scope, loose: bool)
    requires Settled(env, env0, sc) && SelectionSound(q, env0, sc) && Complete(q.typ) && IsSet(q.typ, env0)
    ensures IsSet(PassSelection(if loose then Loosen(q) else q, env, sc).node.typ, env)
  {
    SameDeref(q.typ, env, env0);
    SelectionSoundAgrees(q, env0, sc);
    if loose {
      LoosenedPass(q, env, env0, sc);
    } else {
      CompleteSelectionIdle(q, env, env0, sc);
    }
  }

  /** A plain field on a set reports no change, whatever its prefix does. */
  lemma UnchangedAtSite(r: Selection, env: Arena, sc: Scope)
    requires r.Path? && r.elem.Identifier? && Incomplete(r.typ) && IsSet(PassSelection(r.prefix, env, sc).node.typ, env)
    ensures !PassSelection(r, env, sc).changed
  {
  }

  lemma {:induction false} PassedQuiet(s: Selection, env: Arena, env0: Arena, sc: Scope, loose: bool)
    requires Settled(env, env0, sc) && s.Path? && SelectionSound(s, env0, sc)
    requires var target := TargetOf(Deref(InferSelection(s.prefix, env0, sc), env0));
             !(target.OnSet? && s.elem.Identifier?) && PassesElement(target, s.elem)
    requires var r := IdealSelection(s, env0, sc, loose);
             && SelectionFormOf(r, s, env0, sc) && Incomplete(r.typ) && Incomplete(PassSelection(r, env, sc).node.typ)
             && !PassSelection(r.prefix, env, sc).changed
             && TargetOf(Deref(PassSelection(r.prefix, env, sc).node.typ, env)) ==
                TargetOf(Deref(InferSelection(s.prefix, env0, sc), env0))
    ensures !PassSelection(IdealSelection(s, env0, sc, loose), env, sc).changed
    decreases s, 1
  {
    var r := IdealSelection(s, env0, sc, loose);
    ElementOutcome(r, env, sc);
    PassedElementQuiet(s, env, env0, sc, loose);
  }

  lemma {:induction false} PassedElementQuiet(s: Selection, env: Arena, env0: Arena, sc: Scope, loose: bool)
    requires Settled(env, env0, sc) && s.Path? && SelectionSound(s, env0, sc)
    requires PassesElement(TargetOf(Deref(InferSelection(s.prefix, env0, sc), env0)), s.elem)
    requires var of, el :=
               TargetOf(Deref(InferSelection(s.prefix, env0, sc), env0)).of, IdealSelection(s, env0, sc, loose).elem;
             && el == IdealElement(s.elem, env0, sc, of, Defer, loose)
             && Incomplete(PassElement(el, env, sc, Some(of)).node.typ)
    ensures var of, el :=
              TargetOf(Deref(InferSelection(s.prefix, env0, sc), env0)).of, IdealSelection(s, env0, sc, loose).elem;
            !PassElement(el, env, sc, Some(of)).changed
    decreases s, 0
  {
    var of := TargetOf(Deref(InferSelection(s.prefix, env0, sc), env0)).of;
    match s.elem
    case Identifier(n, _) => ResolvedComplete(n, env, sc);
    case NormalCall(n, params, _) =>
      assert ElementSound(s.elem, s.typ, s.prefix.typ, env0, sc);
      LiteralParams(params, env, sc);
    case HofCall(_, param, body, _) =>
      TriedBody(s, env0, sc);
      SameBodyScope(param, of, env, env0, sc);
      IdealQuiet(body, env, env0, BodyScope(param, Some(of), env0, sc).value, loose);
  }

  lemma UnpassedQuiet(s: Selection, env: Arena, env0: Arena, sc: Scope, loose: bool)
    requires Settled(env, env0, sc) && s.Path?
    requires var target := TargetOf(Deref(InferSelection(s.prefix, env0, sc), env0));
             !(target.OnSet? && s.elem.Identifier?) && !PassesElement(target, s.elem)
    requires var r := IdealSelection(s, env0, sc, loose);
             && Incomplete(r.typ) && Incomplete(PassSelection(r, env, sc).node.typ) &&
                !PassSelection(r.prefix, env, sc).changed
             && TargetOf(Deref(PassSelection(r.prefix, env, sc).node.typ, env)) ==
                TargetOf(Deref(InferSelection(s.prefix, env0, sc), env0))
    ensures !PassSelection(IdealSelection(s, env0, sc, loose), env, sc).changed
  {
    var r := IdealSelection(s, env0, sc, loose);
    var target := TargetOf(Deref(InferSelection(s.prefix, env0, sc), env0));
    assert r.elem == ShallowElement(s.elem);
    if target.OnComposite? && s.elem.Identifier? { FinishFieldAgrees(target.id, s.elem.name, env, env0); }
  }

  // ----- They differ exactly at plain fields on sets -----

  lemma {:induction false} IdealsDiffer(e: Expr, env: Arena, env0: Arena, sc: Scope)
    requires Settled(env, env0, sc) && Sound(e, env0, sc) && !SetFieldFree(e, env0, sc)
    ensures Blank(Ideal(e, env0, sc, true)) != Blank(Ideal(e, env0, sc, false))
    decreases e, 1
  {
    match e
    case Select(s) => IdealSelectionsDiffer(s, env, env0, sc);
    case Not(x, _) => IdealsDiffer(x, env, env0, sc);
    case Logical(_, l, r, _) =>
      if !SetFieldFree(l, env0, sc) { IdealsDiffer(l, env, env0, sc); } else { IdealsDiffer(r, env, env0, sc); }
    case Relational(_, l, r, _) =>
      if !SetFieldFree(l, env0, sc) { IdealsDiffer(l, env, env0, sc); } else { IdealsDiffer(r, env, env0, sc); }
    case Lit(_) =>
  }

  lemma {:induction false} IdealSelectionsDiffer(s: Selection, env: Arena, env0: Arena, sc: Scope)
    requires Settled(env, env0, sc) && SelectionSound(s, env0, sc) && !SelectionSetFieldFree(s, env0, sc)
    ensures BlankSelection(IdealSelection(s, env0, sc, true)) != BlankSelection(IdealSelection(s, env0, sc, false))
    decreases s, 1
  {
    var r1, r2 := IdealSelection(s, env0, sc, true), IdealSelection(s, env0, sc, false);
    var target := TargetOf(Deref(InferSelection(s.prefix, env0, sc), env0));
    if target.OnSet? && s.elem.Identifier? {
      LooseSiteDiffers(s, env, env0, sc);
    } else if !SelectionSetFieldFree(s.prefix, env0, sc) {
      IdealSelectionsDiffer(s.prefix, env, env0, sc);
      assert BlankSelection(r1).prefix != BlankSelection(r2).prefix;
    } else {
      TriedBody(s, env0, sc);
      var inner := BodyScope(s.elem.param, Some(target.of), env0, sc).value;
      IdealsDiffer(s.elem.body, env, env0, inner);
      IdealBody(s, env0, sc, true);
      IdealBody(s, env0, sc, false);
      BodiesDiffer(r1, r2);
    }
  }

  lemma IdealBody(s: Selection, env0: Arena, sc: Scope, loose: bool)
    requires s.Path? && s.elem.HofCall?
    requires var target := TargetOf(Deref(InferSelection(s.prefix, env0, sc), env0));
             PassesElement(target, s.elem) && BodyScope(s.elem.param, Some(target.of), env0, sc).Some?
    ensures var of := TargetOf(Deref(InferSelection(s.prefix, env0, sc), env0)).of;
            var r := IdealSelection(s, env0, sc, loose);
            r.elem ==
              HofCall(s.elem.name, s.elem.param,
                      Ideal(s.elem.body, env0, BodyScope(s.elem.param, Some(of), env0, sc).value, loose), r.typ)
  {
    var of := TargetOf(Deref(InferSelection(s.prefix, env0, sc), env0)).of;
    var r := IdealSelection(s, env0, sc, loose);
    assert r.elem == IdealElement(s.elem, env0, sc, of, r.typ, loose);
  }

  lemma BodiesDiffer(a: Selection, b: Selection)
    requires a.Path? && b.Path? && a.elem.HofCall? && b.elem.HofCall? && Blank(a.elem.body) != Blank(b.elem.body)
    ensures BlankSelection(a) != BlankSelection(b)
  {
    assert BlankElement(a.elem).body != BlankElement(b.elem).body;
    assert BlankSelection(a).elem == BlankElement(a.elem) && BlankSelection(b).elem == BlankElement(b.elem);
  }

  lemma LooseSiteDiffers(s: Selection, env: Arena, env0: Arena, sc: Scope)
    requires Settled(env, env0, sc) && s.Path? && SelectionSound(s, env0, sc) && s.elem.Identifier?
    requires IsSet(InferSelection(s.prefix, env0, sc), env0)
    ensures BlankSelection(IdealSelection(s, env0, sc, true)) != BlankSelection(IdealSelection(s, env0, sc, false))
  {
    IdealSelectionSound(s.prefix, env, env0, sc, true);
    IdealSelectionSound(s.prefix, env, env0, sc, false);
    SelectionInferredOrError(s.prefix, env0, sc);
    var q1, q2 := IdealSelection(s.prefix, env0, sc, true), IdealSelection(s.prefix, env0, sc, false);
    LoosenedPass(q1, env, env0, sc);
    PrefixesDiffer(Loosen(q1), q2, ShallowElement(s.elem));
  }

  lemma PrefixesDiffer(p: Selection, q: Selection, el: Element)
    requires p.typ == Defer && Complete(q.typ)
    ensures BlankSelection(Path(p, el, Defer)) != BlankSelection(Path(q, el, Defer))
  {
    assert BlankSelection(p).typ == Defer && BlankSelection(q).typ == q.typ;
    assert BlankSelection(Path(p, el, Defer)).prefix == BlankSelection(p);
    assert BlankSelection(Path(q, el, Defer)).prefix == BlankSelection(q);
  }

  lemma {:induction false} SameSetFieldFree(a: Expr, b: Expr, env: Arena, sc: Scope)
    requires ShallowExpr(a) == ShallowExpr(b) && SetFieldFree(a, env, sc)
    ensures SetFieldFree(b, env, sc)
    decreases a, 0
  {
    match a
    case Lit(_) =>
    case Select(s) => SameSelectionSetFieldFree(s, b.sel, env, sc);
    case Not(x, _) => SameSetFieldFree(x, b.arg, env, sc);
    case Logical(_, l, r, _) => SameSetFieldFree(l, b.left, env, sc); SameSetFieldFree(r, b.right, env, sc);
    case Relational(_, l, r, _) => SameSetFieldFree(l, b.left, env, sc); SameSetFieldFree(r, b.right, env, sc);
  }

  lemma {:induction false} SameSelectionSetFieldFree(a: Selection, b: Selection, env: Arena, sc: Scope)
    requires ShallowSelection(a) == ShallowSelection(b) && SelectionSetFieldFree(a, env, sc)
    ensures SelectionSetFieldFree(b, env, sc)
    decreases a, 0
  {
    if a.Path? {
      SameSelectionSetFieldFree(a.prefix, b.prefix, env, sc);
      SameInferSelection(a.prefix, b.prefix, env, sc);
      var target := TargetOf(Deref(InferSelection(a.prefix, env, sc), env));
      if a.elem.HofCall? && PassesElement(target, a.elem) && BodyScope(a.elem.param, Some(target.of), env, sc).Some? {
        SameSetFieldFree(a.elem.body, b.elem.body, env, BodyScope(a.elem.param, Some(target.of), env, sc).value);
      }
    }
  }

  /** In a settled environment, an expression has a single final form, up to the marker of unresolved slots,
      exactly when no plain field is selected on a set. */
  lemma OneFinalForm(e: Expr, env: Arena, env0: Arena, sc: Scope)
    requires Settled(env, env0, sc) && Sound(e, env0, sc)
    ensures SetFieldFree(e, env0, sc) <==>
            forall x, y ::
              Quiet(x, env, env0, sc) && Quiet(y, env, env0, sc) &&
              ShallowExpr(x) == ShallowExpr(e) == ShallowExpr(y) ==>
                             Blank(x) == Blank(y)
  {
    if SetFieldFree(e, env0, sc) {
      forall x, y | Quiet(x, env, env0, sc) && Quiet(y, env, env0,
                                                     sc) && ShallowExpr(x) == ShallowExpr(e) == ShallowExpr(y)
        ensures Blank(x) == Blank(y)
      {
        SameSetFieldFree(e, x, env0, sc);
        QuietUnique(x, y, env, env, env0, sc);
      }
    } else {
      var x, y := Ideal(e, env0, sc, true), Ideal(e, env0, sc, false);
      IdealSound(e, env, env0, sc, true);
      IdealSound(e, env, env0, sc, false);
      IdealQuiet(e, env, env0, sc, true);
      IdealQuiet(e, env, env0, sc, false);
      IdealsDiffer(e, env, env0, sc);
      assert Quiet(x, env, env0, sc) && Quiet(y, env, env0, sc);
    }
  }
}
