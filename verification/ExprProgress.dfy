/**
 How many slots a pass resolves.

 A pass that reports a change resolves at least one slot.  A pass that reports none keeps
 every unresolved slot unresolved, except when it selects a plain field on a set whose
 prefix it resolved in this very pass: that branch returns `false` outright.
 */
module ExprProgress {
  import opened Wrappers
  import opened Ast
  import opened Passes
  import opened OneShot
  import opened EnvironmentLemmas
  import opened ExprSoundness

  function Open(t: Type): nat {
    if Complete(t) then 0 else 1
  }

  /** The number of unresolved slots. */
  function CountExpr(e: Expr): nat
    decreases e, 0
  {
    match e
    case Lit(_) => 0
    case Select(s) => CountSelection(s)
    case Not(x, t) => Open(t) + CountExpr(x)
    case Logical(_, l, r, t) => Open(t) + CountExpr(l) + CountExpr(r)
    case Relational(_, l, r, t) => Open(t) + CountExpr(l) + CountExpr(r)
  }

  function CountSelection(s: Selection): nat
    decreases s, 0
  {
    match s
    case Single(el, t) => Open(t) + CountElement(el)
    case Path(p, el, t) => Open(t) + CountSelection(p) + CountElement(el)
  }

  function CountElement(el: Element): nat
    decreases el, 0
  {
    match el
    case Identifier(_, _) => 0
    case HofCall(_, _, body, _) => CountExpr(body)
    case NormalCall(_, params, _) => CountExprs(params)
  }

  function CountExprs(es: seq<Expr>): nat
    decreases es, 0
  {
    if es == [] then 0 else CountExpr(es[0]) + CountExprs(es[1..])
  }

  /** The pass selects a plain field on a set that was unresolved before and that the environment now resolves. */
  predicate HitsSetField(e: Expr, env: Arena, sc: Scope)
    decreases e, 0
  {
    match e
    case Lit(_) => false
    case Select(s) => SelectionHitsSetField(s, env, sc)
    case Not(x, _) => HitsSetField(x, env, sc)
    case Logical(_, l, r, _) => HitsSetField(l, env, sc) || HitsSetField(r, env, sc)
    case Relational(_, l, r, _) => HitsSetField(l, env, sc) || HitsSetField(r, env, sc)
  }

  predicate SelectionHitsSetField(s: Selection, env: Arena, sc: Scope)
    decreases s, 0
  {
    match s
    case Single(_, _) => false
    case Path(p, el, t) =>
      || SelectionHitsSetField(p, env, sc)
      || (Incomplete(t) &&
          var rp := PassSelection(p, env, sc);
          var target := TargetOf(Deref(rp.node.typ, env));
          || (target.OnSet? && el.Identifier? && Incomplete(p.typ))
          || (PassesElement(target, el) && ElementHitsSetField(el, target.of, env, sc)))
  }

  predicate ElementHitsSetField(el: Element, of: Type, env: Arena, sc: Scope)
    decreases el, 0
  {
    el.HofCall? &&
    var inner := BodyScope(el.param, Some(of), env, sc);
    inner.Some? && HitsSetField(el.body, env, inner.value)
  }

  /** What a pass reports against what it resolved. */
  predicate Accounted(before: nat, after: nat, changed: bool, hit: bool, was: Type, now: Type) {
    && after <= before
    && (changed ==> after < before)
    && (!changed ==> (after < before <==> hit))
    && (!changed && !hit && Incomplete(was) ==> Incomplete(now))
    && (Complete(was) ==> now == was)
  }

  ghost predicate PassAccounted(e: Expr, env: Arena, sc: Scope) {
    var r := PassExpr(e, env, sc);
    Accounted(CountExpr(e), CountExpr(r.node), r.changed, HitsSetField(e, env, sc), TypeOf(e), TypeOf(r.node))
  }

  ghost predicate SelectionAccounted(s: Selection, env: Arena, sc: Scope) {
    var r := PassSelection(s, env, sc);
    Accounted(CountSelection(s), CountSelection(r.node), r.changed, SelectionHitsSetField(s, env, sc), s.typ,
              r.node.typ)
  }

  lemma {:induction false} PassProgress(e: Expr, env: Arena, env0: Arena, sc: Scope)
    requires StateOf(env, env0) && ScopeOk(sc, env0) && Sound(e, env0, sc)
    ensures PassAccounted(e, env, sc)
    decreases e, 0
  {
    match e
    case Lit(_) =>
    case Select(s) => SelectionProgress(s, env, env0, sc);
    case Not(x, t) =>
      PassProgress(x, env, env0, sc);
      var rx := PassExpr(x, env, sc);
      var fin := FinishNot(t, Deref(TypeOf(rx.node), env));
      assert PassExpr(e, env, sc) == Outcome(Not(rx.node, fin.typ), rx.changed || fin.updated, rx.errors + fin.errors);
    case Logical(op, l, r, t) => LogicalProgress(e, env, env0, sc);
    case Relational(op, l, r, t) => RelationalProgress(e, env, env0, sc);
  }

  lemma {:induction false} LogicalProgress(e: Expr, env: Arena, env0: Arena, sc: Scope)
    requires e.Logical? && StateOf(env, env0) && ScopeOk(sc, env0) && Sound(e, env0, sc)
    ensures PassAccounted(e, env, sc)
    decreases e, -1
  {
    PassProgress(e.left, env, env0, sc);
    PassProgress(e.right, env, env0, sc);
    var rl := PassExpr(e.left, env, sc);
    var rr := if rl.changed then Outcome(e.right, true, []) else PassExpr(e.right, env, sc);
    var fin := FinishLogical(e.typ, Deref(TypeOf(rl.node), env), Deref(TypeOf(rr.node), env));
    assert PassExpr(e, env, sc) ==
           Outcome(Logical(e.lop, rl.node, rr.node, fin.typ), rr.changed || fin.updated,
                   rl.errors + rr.errors + fin.errors);
  }

  lemma {:induction false} RelationalProgress(e: Expr, env: Arena, env0: Arena, sc: Scope)
    requires e.Relational? && StateOf(env, env0) && ScopeOk(sc, env0) && Sound(e, env0, sc)
    ensures PassAccounted(e, env, sc)
    decreases e, -1
  {
    PassProgress(e.left, env, env0, sc);
    PassProgress(e.right, env, env0, sc);
    var rl := PassExpr(e.left, env, sc);
    var rr := if rl.changed then Outcome(e.right, true, []) else PassExpr(e.right, env, sc);
    var fin := FinishRelational(e.typ, e.rop, Deref(TypeOf(rl.node), env), Deref(TypeOf(rr.node), env));
    assert PassExpr(e, env, sc) ==
           Outcome(Relational(e.rop, rl.node, rr.node, fin.typ), rr.changed || fin.updated,
                   rl.errors + rr.errors + fin.errors);
  }

  lemma {:induction false} SelectionProgress(s: Selection, env: Arena, env0: Arena, sc: Scope)
    requires StateOf(env, env0) && ScopeOk(sc, env0) && SelectionSound(s, env0, sc)
    ensures SelectionAccounted(s, env, sc)
    decreases s, 0
  {
    match s
    case Single(el, t) => SameResolution(el.name, env, env0, sc);
    case Path(p, el, t) => PathProgress(s, env, env0, sc);
  }

  lemma {:induction false} PathProgress(s: Selection, env: Arena, env0: Arena, sc: Scope)
    requires s.Path? && StateOf(env, env0) && ScopeOk(sc, env0) && SelectionSound(s, env0, sc)
    ensures SelectionAccounted(s, env, sc)
    decreases s, -1
  {
    SelectionProgress(s.prefix, env, env0, sc);
    var rp := PassSelection(s.prefix, env, sc);
    var p := rp.node;
    if Incomplete(s.typ) {
      PassSelectionSound(s.prefix, env, env0, sc);
      PrefixAfterPass(s.prefix, p, env, env0, sc);
      var target := TargetOf(Deref(p.typ, env));
      if PassesElement(target, s.elem) {
        ElementMadeReady(s, p, env, env0, sc);
        ElementProgress(s.elem, target.of, env, env0, sc);
        ElementAccount(s, env, env0, sc);
      } else {
        UnpassedAccount(s, env, env0, sc);
      }
    } else {
      ResolvedAccount(s, env, env0, sc);
    }
  }

  /** A resolved selection passes its prefix only. */
  lemma ResolvedAccount(s: Selection, env: Arena, env0: Arena, sc: Scope)
    requires s.Path? && SelectionSound(s, env0, sc) && Complete(s.typ) && SelectionAccounted(s.prefix, env, sc)
    ensures SelectionAccounted(s, env, sc)
  {
  }

  /** A selection whose prefix does not admit the element, or decides its type by itself. */
  lemma UnpassedAccount(s: Selection, env: Arena, env0: Arena, sc: Scope)
    requires s.Path? && StateOf(env, env0) && SelectionSound(s, env0, sc) && Incomplete(s.typ)
    requires SelectionAccounted(s.prefix, env, sc)
    requires PrefixOk(s.prefix, PassSelection(s.prefix, env, sc).node, env, env0, sc)
    requires !PassesElement(TargetOf(Deref(PassSelection(s.prefix, env, sc).node.typ, env)), s.elem)
    ensures SelectionAccounted(s, env, sc)
  {
    var target := TargetOf(Deref(PassSelection(s.prefix, env, sc).node.typ, env));
    if target.OnComposite? && s.elem.Identifier? {
      FieldAccount(s, env, env0, sc);
    } else if target.OnSet? {
      SetFieldAccount(s, env, env0, sc);
    } else {
      RejectAccount(s, env, env0, sc);
    }
  }

  lemma SetTargetComplete(t: Type, inferred: Type, env: Arena)
    requires Agrees(t, inferred) && TargetOf(Deref(t, env)).OnSet?
    ensures Complete(t)
  {
  }

  /** A plain field on a set. */
  lemma SetFieldAccount(s: Selection, env: Arena, env0: Arena, sc: Scope)
    requires s.Path? && s.elem.Identifier? && StateOf(env, env0) && SelectionSound(s, env0, sc) && Incomplete(s.typ)
    requires SelectionAccounted(s.prefix, env, sc)
    requires Agrees(PassSelection(s.prefix, env, sc).node.typ,
                    InferSelection(PassSelection(s.prefix, env, sc).node, env0, sc))
    requires TargetOf(Deref(PassSelection(s.prefix, env, sc).node.typ, env)).OnSet?
    ensures SelectionAccounted(s, env, sc)
  {
    var rp := PassSelection(s.prefix, env, sc);
    SetTargetComplete(rp.node.typ, InferSelection(rp.node, env0, sc), env);
    assert PassSelection(s, env, sc) ==
           Outcome(Path(rp.node, s.elem, Error), false, rp.errors + [FieldOnSet(s.elem.name)]);
    if Complete(s.prefix.typ) { CompleteSelectionIdle(s.prefix, env, env0, sc); }
  }

  /** An element that the prefix does not admit. */
  lemma RejectAccount(s: Selection, env: Arena, env0: Arena, sc: Scope)
    requires s.Path? && StateOf(env, env0) && SelectionSound(s, env0, sc) && Incomplete(s.typ)
    requires SelectionAccounted(s.prefix, env, sc)
    requires var target := TargetOf(Deref(PassSelection(s.prefix, env, sc).node.typ, env));
             !PassesElement(target, s.elem) && !(target.OnComposite? && s.elem.Identifier?) && !target.OnSet?
    ensures SelectionAccounted(s, env, sc)
  {
    var rp := PassSelection(s.prefix, env, sc);
    assert PassSelection(s, env, sc) == Reject(rp, s.elem, s.typ, TargetOf(Deref(rp.node.typ, env)));
  }

  /** A plain field of a composite. */
  lemma FieldAccount(s: Selection, env: Arena, env0: Arena, sc: Scope)
    requires s.Path? && StateOf(env, env0) && s.elem.Identifier? && Incomplete(s.typ) &&
             SelectionAccounted(s.prefix, env, sc)
    requires TargetOf(Deref(PassSelection(s.prefix, env, sc).node.typ, env)).OnComposite?
    ensures SelectionAccounted(s, env, sc)
  {
    var target := TargetOf(Deref(PassSelection(s.prefix, env, sc).node.typ, env));
    FinishFieldAgrees(target.id, s.elem.name, env, env0);
  }

  ghost predicate ElementAccounted(el: Element, of: Type, env: Arena, sc: Scope) {
    var r := PassElement(el, env, sc, Some(of));
    && CountElement(r.node) <= CountElement(el)
    && match el
       case Identifier(_, _) => r.changed <==> Complete(r.node.typ)
       case HofCall(_, _, body, _) =>
         Accounted(CountExpr(body), CountElement(r.node), r.changed, ElementHitsSetField(el, of, env, sc), TypeOf(body),
                   r.node.typ)
       case NormalCall(_, params, _) => !r.changed && CountElement(r.node) == CountElement(el)
  }

  lemma {:induction false} ElementProgress(el: Element, of: Type, env: Arena, env0: Arena, sc: Scope)
    requires StateOf(env, env0) && ScopeOk(sc, env0) && HasName(of, env0) && ElementReady(el, of, env0, sc)
    ensures ElementAccounted(el, of, env, sc)
    decreases el, 1
  {
    match el
    case Identifier(n, t) => SameResolution(n, env, env0, sc); ResolvedComplete(n, env, sc);
    case HofCall(n, param, body, t) =>
      SameBodyScope(param, of, env, env0, sc);
      BodyScopeOk(param, of, env0, sc);
      var inner := BodyScope(param, Some(of), env0, sc).value;
      PassProgress(body, env, env0, inner);
      var b := PassExpr(body, env, inner).node;
      assert PassElement(el, env, sc, Some(of)).node == HofCall(n, param, b, TypeOf(b));
    case NormalCall(n, params, t) => LiteralParams(params, env, sc);
  }

  lemma ResolvedComplete(name: string, env: Arena, sc: Scope)
    ensures var r := ResolveIdentifier(name, env, sc); r.Resolved? ==> Complete(r.typ)
  {
  }

  /** Adds up a selection whose element was passed.  If neither the prefix nor the element
      reports a change and no set field was hit, the element had been tried before. */
  lemma ElementAccount(s: Selection, env: Arena, env0: Arena, sc: Scope)
    requires s.Path? && StateOf(env, env0) && SelectionSound(s, env0, sc) && Incomplete(s.typ)
    requires SelectionAccounted(s.prefix, env, sc)
    requires PrefixOk(s.prefix, PassSelection(s.prefix, env, sc).node, env, env0, sc)
    requires var target := TargetOf(Deref(PassSelection(s.prefix, env, sc).node.typ, env));
             PassesElement(target, s.elem) && ElementAccounted(s.elem, target.of, env, sc)
             && Complete(PassSelection(s.prefix, env, sc).node.typ)
    ensures SelectionAccounted(s, env, sc)
  {
    ElementOutcome(s, env, sc);
    if s.elem.NormalCall? { CallAccount(s, env, env0, sc); }
  }

  /** A call reports nothing itself: if its prefix was not touched, it was tried before. */
  lemma CallAccount(s: Selection, env: Arena, env0: Arena, sc: Scope)
    requires s.Path? && s.elem.NormalCall? && StateOf(env, env0) && SelectionSound(s, env0, sc) && Incomplete(s.typ)
    requires SelectionAccounted(s.prefix, env, sc)
    requires PrefixOk(s.prefix, PassSelection(s.prefix, env, sc).node, env, env0, sc)
    requires var target := TargetOf(Deref(PassSelection(s.prefix, env, sc).node.typ, env));
             PassesElement(target, s.elem) && ElementAccounted(s.elem, target.of, env, sc)
             && Complete(PassSelection(s.prefix, env, sc).node.typ)
    ensures SelectionAccounted(s, env, sc)
  {
    ElementOutcome(s, env, sc);
    LiteralParams(s.elem.params, env, sc);
    if Complete(s.prefix.typ) { TriedCall(s, env, env0, sc); }
  }

  /** A call whose prefix was resolved before fails again. */
  lemma TriedCall(s: Selection, env: Arena, env0: Arena, sc: Scope)
    requires s.Path? && s.elem.NormalCall? && SelectionSound(s, env0, sc) && Incomplete(s.typ) && Complete(s.prefix.typ)
    requires PrefixOk(s.prefix, PassSelection(s.prefix, env, sc).node, env, env0, sc)
    requires PassesElement(TargetOf(Deref(PassSelection(s.prefix, env, sc).node.typ, env)), s.elem)
    ensures var of := TargetOf(Deref(PassSelection(s.prefix, env, sc).node.typ, env)).of;
            Incomplete(PassElement(s.elem, env, sc, Some(of)).node.typ)
  {
    assert ElementSound(s.elem, s.typ, s.prefix.typ, env0, sc);
    LiteralParams(s.elem.params, env, sc);
  }

  lemma ElementOutcome(s: Selection, env: Arena, sc: Scope)
    requires s.Path? && Incomplete(s.typ)
    requires PassesElement(TargetOf(Deref(PassSelection(s.prefix, env, sc).node.typ, env)), s.elem)
    ensures var rp := PassSelection(s.prefix, env, sc);
            var re := PassElement(s.elem, env, sc, Some(TargetOf(Deref(rp.node.typ, env)).of));
            PassSelection(s, env, sc) ==
              Outcome(Path(rp.node, re.node, re.node.typ), rp.changed || re.changed, rp.errors + re.errors)
  {
  }

  // ----- A pass that reports no change -----

  /** Throwing the clone away after a pass that reported no change loses a resolved slot exactly
      when the pass ran into a plain field selected on a set whose prefix it had just resolved. */
  lemma FalsePassLoses(e: Expr, env: Arena, env0: Arena, sc: Scope)
    requires StateOf(env, env0) && ScopeOk(sc, env0) && Sound(e, env0, sc)
    requires !PassExpr(e, env, sc).changed
    ensures CountExpr(PassExpr(e, env, sc).node) < CountExpr(e) <==> HitsSetField(e, env, sc)
  {
    PassProgress(e, env, env0, sc);
  }

  /** A shop with a set of items; `self.items.name` is a plain field on a set. */
  const SHOP := Arena(
                  [PrimitiveEntry("String"),
                   ModelEntry(Model("Item", TypeKind,
                                    [Field("name", Plain("String", [], true), AnnotationMap([], []), NoDefault)],
                                    [], AnnotationMap([], []))),
                   ModelEntry(Model("Shop", TypeKind,
                                    [Field("items", Plain("Set", [Plain("Item", [], true)], true),
                                           AnnotationMap([], []), NoDefault)],
                                    [], AnnotationMap([], [])))],
                  map["String" := 0, "Item" := 1, "Shop" := 2])

  lemma ShopItems()
    ensures PassSelection(Path(Single(Identifier("self", Defer), Defer), Identifier("items", Defer), Defer), SHOP,
                          ModelScope("Shop")) ==
            Outcome(Path(Single(Identifier("self", Reference(2)), Reference(2)), Identifier("items", Defer),
                         SetType(Reference(1))), true, [])
  {
    var sc := ModelScope("Shop");
    var self := Single(Identifier("self", Defer), Defer);
    assert PassSelection(self, SHOP, sc) == Outcome(Single(Identifier("self", Reference(2)), Reference(2)), true, []);
    var shop := SHOP.values[2].model;
    assert FindField(2, "items", SHOP) == Some(shop.fields[0]) by {
      assert shop.fields + FragmentFields(shop.fragments, SHOP) == shop.fields;
    }
    assert ToType(shop.fields[0].typ, SHOP) == SetType(ToType(shop.fields[0].typ.params[0], SHOP)) ==
           SetType(Reference(1));
  }

  /** Both slots of the prefix `self.items` are resolved by a pass that reports no change. */
  lemma SetFieldExample()
    ensures var items := Path(Single(Identifier("self", Defer), Defer), Identifier("items", Defer), Defer);
            var s := Path(items, Identifier("name", Defer), Defer);
            var r := PassSelection(s, SHOP, ModelScope("Shop"));
            && !r.changed && CountSelection(s) == 3 && CountSelection(r.node) == 1
            && r.node.prefix.typ == SetType(Reference(1))
  {
    ShopItems();
    assert TargetOf(Deref(SetType(Reference(1)), SHOP)) == OnSet(Composite(1));
  }
}
