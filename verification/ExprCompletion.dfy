/**
 When an expression is finished: a pass that reports nothing and complains about nothing
 finds it complete, a complete expression is unique, and a pass that reports nothing has
 nothing left to resolve.
 */
module ExprCompletion {
  import opened Wrappers
  import opened Ast
  import opened Passes
  import opened OneShot
  import opened EnvironmentLemmas
  import opened ExprSoundness

  /** No call has more than one parameter: a longer `contains` stays deferred without a word. */
  predicate SingleParameter(e: Expr)
    decreases e, 0
  {
    match e
    case Lit(_) => true
    case Select(s) => SelectionSingleParameter(s)
    case Not(x, _) => SingleParameter(x)
    case Logical(_, l, r, _) => SingleParameter(l) && SingleParameter(r)
    case Relational(_, l, r, _) => SingleParameter(l) && SingleParameter(r)
  }

  predicate SelectionSingleParameter(s: Selection)
    decreases s, 0
  {
    match s
    case Single(el, _) => true
    case Path(p, el, _) =>
      && SelectionSingleParameter(p)
      && (el.NormalCall? ==> |el.params| <= 1)
      && (el.HofCall? ==> SingleParameter(el.body))
  }

  // ----- A complete root is complete throughout -----

  lemma {:induction false} RootComplete(e: Expr, env: Arena, sc: Scope)
    requires Sound(e, env, sc) && Complete(TypeOf(e))
    ensures AllComplete(e) && Typable(e, env, sc)
    decreases e, 0
  {
    SoundAgrees(e, env, sc);
    match e
    case Lit(_) =>
    case Select(s) => SelectionRootComplete(s, env, sc);
    case Not(x, _) => RootComplete(x, env, sc);
    case Logical(_, l, r, _) => RootComplete(l, env, sc); RootComplete(r, env, sc);
    case Relational(_, l, r, _) => RootComplete(l, env, sc); RootComplete(r, env, sc);
  }

  lemma {:induction false} SelectionRootComplete(s: Selection, env: Arena, sc: Scope)
    requires SelectionSound(s, env, sc) && Complete(s.typ)
    ensures SelectionComplete(s) && SelectionTypable(s, env, sc)
    decreases s, 0
  {
    SelectionSoundAgrees(s, env, sc);
    if s.Path? {
      SelectionRootComplete(s.prefix, env, sc);
      SelectionSoundAgrees(s.prefix, env, sc);
      var target := TargetOf(Deref(s.prefix.typ, env));
      if s.elem.HofCall? {
        assert PassesElement(target, s.elem);
        RootComplete(s.elem.body, env, BodyScope(s.elem.param, Some(target.of), env, sc).value);
      }
    }
  }

  /** A complete tree is determined by its shape: every slot holds the one-shot type. */
  lemma {:induction false} CompleteUnique(a: Expr, b: Expr, env: Arena, sc: Scope)
    requires Sound(a, env, sc) && Sound(b, env, sc) && ShallowExpr(a) == ShallowExpr(b)
    requires Complete(TypeOf(a)) && Complete(TypeOf(b))
    ensures a == b
    decreases a, 0
  {
    SoundAgrees(a, env, sc);
    SoundAgrees(b, env, sc);
    SameInfer(a, b, env, sc);
    match a
    case Lit(_) =>
    case Select(s) => SelectionCompleteUnique(s, b.sel, env, sc);
    case Not(x, _) => CompleteUnique(x, b.arg, env, sc);
    case Logical(_, l, r, _) => CompleteUnique(l, b.left, env, sc); CompleteUnique(r, b.right, env, sc);
    case Relational(_, l, r, _) => CompleteUnique(l, b.left, env, sc); CompleteUnique(r, b.right, env, sc);
  }

  lemma {:induction false} SelectionCompleteUnique(a: Selection, b: Selection, env: Arena, sc: Scope)
    requires SelectionSound(a, env, sc) && SelectionSound(b, env, sc) && ShallowSelection(a) == ShallowSelection(b)
    requires Complete(a.typ) && Complete(b.typ)
    ensures a == b
    decreases a, 0
  {
    SelectionSoundAgrees(a, env, sc);
    SelectionSoundAgrees(b, env, sc);
    SameInferSelection(a, b, env, sc);
    if a.Path? {
      SelectionCompleteUnique(a.prefix, b.prefix, env, sc);
      SelectionSoundAgrees(a.prefix, env, sc);
      var target := TargetOf(Deref(a.prefix.typ, env));
      match a.elem {
        case Identifier(_, _) =>
        case HofCall(_, param, body, _) =>
          assert PassesElement(target, a.elem);
          CompleteUnique(body, b.elem.body, env, BodyScope(param, Some(target.of), env, sc).value);
        case NormalCall(_, params, _) =>
          assert PassesElement(target, a.elem) && PassesElement(target, b.elem);
          SameLiterals(params, b.elem.params);
      }
    }
  }

  lemma SameLiterals(a: seq<Expr>, b: seq<Expr>)
    requires ShallowExprs(a) == ShallowExprs(b)
    requires (forall i :: 0 <= i < |a| ==> a[i].Lit?) && (forall i :: 0 <= i < |b| ==> b[i].Lit?)
    ensures a == b
  {
    assert |a| == |ShallowExprs(a)| == |b|;
    forall i | 0 <= i < |a| ensures a[i] == b[i] {
      assert ShallowExpr(a[i]) == ShallowExprs(a)[i] == ShallowExpr(b[i]);
    }
  }

  // ----- Fields of known types -----

  /** Wherever the one-shot typing selects an existing field of a composite, the field's type is known. */
  predicate FieldsKnown(e: Expr, env: Arena, sc: Scope)
    decreases e, 0
  {
    match e
    case Lit(_) => true
    case Select(s) => SelectionFieldsKnown(s, env, sc)
    case Not(x, _) => FieldsKnown(x, env, sc)
    case Logical(_, l, r, _) => FieldsKnown(l, env, sc) && FieldsKnown(r, env, sc)
    case Relational(_, l, r, _) => FieldsKnown(l, env, sc) && FieldsKnown(r, env, sc)
  }

  predicate SelectionFieldsKnown(s: Selection, env: Arena, sc: Scope)
    decreases s, 0
  {
    match s
    case Single(_, _) => true
    case Path(p, el, _) =>
      var target := TargetOf(Deref(InferSelection(p, env, sc), env));
      && SelectionFieldsKnown(p, env, sc)
      && (target.OnComposite? && el.Identifier? && FindField(target.id, el.name, env).Some? ==>
            Complete(TypeOfField(target.id, el.name, env)))
      && (el.HofCall? && PassesElement(target, el) ==> BodyFieldsKnown(el, target.of, env, sc))
  }

  predicate BodyFieldsKnown(el: Element, of: Type, env: Arena, sc: Scope)
    requires el.HofCall?
    decreases el, 0
  {
    var inner := BodyScope(el.param, Some(of), env, sc);
    inner.Some? ==> FieldsKnown(el.body, env, inner.value)
  }

  lemma ReadySettled(env: Arena, env0: Arena)
    requires StateOf(env, env0) && EnvReady(env)
    ensures EnvSettled(env)
  {
    forall i, j | 0 <= i < |env.values| && env.values[i].ModelEntry? && 0 <= j < |env.values[i].model.fields|
      ensures FlagsSettled(env.values[i].model.fields[j].typ, env.ids)
    {
      assert EntryOf(env.values[i], env0.values[i], env0.ids);
      assert FieldOf(env.values[i].model.fields[j], env0.values[i].model.fields[j], env0.ids);
      SetSettled(env.values[i].model.fields[j].typ, env.ids);
    }
  }

  lemma {:induction false} SetSettled(ft: FieldType, ids: map<string, nat>)
    requires FlagsSound(ft, ids) && FlagsSet(ft)
    ensures FlagsSettled(ft, ids)
  {
    match ft
    case OptionalField(u) => SetSettled(u, ids);
    case Plain(_, params, _) =>
      forall i | 0 <= i < |params| ensures FlagsSettled(params[i], ids) { SetSettled(params[i], ids); }
  }

  /** In an environment all of whose field types are known, every selected field's is. */
  lemma {:induction false} ReadyKnown(e: Expr, env: Arena, env0: Arena, sc: Scope)
    requires StateOf(env, env0) && EnvReady(env)
    ensures FieldsKnown(e, env0, sc)
    decreases e, 0
  {
    match e
    case Lit(_) =>
    case Select(s) => ReadySelectionKnown(s, env, env0, sc);
    case Not(x, _) => ReadyKnown(x, env, env0, sc);
    case Logical(_, l, r, _) => ReadyKnown(l, env, env0, sc); ReadyKnown(r, env, env0, sc);
    case Relational(_, l, r, _) => ReadyKnown(l, env, env0, sc); ReadyKnown(r, env, env0, sc);
  }

  lemma {:induction false} ReadySelectionKnown(s: Selection, env: Arena, env0: Arena, sc: Scope)
    requires StateOf(env, env0) && EnvReady(env)
    ensures SelectionFieldsKnown(s, env0, sc)
    decreases s, 0
  {
    if s.Path? {
      ReadySelectionKnown(s.prefix, env, env0, sc);
      var target := TargetOf(Deref(InferSelection(s.prefix, env0, sc), env0));
      if target.OnComposite? && s.elem.Identifier? && FindField(target.id, s.elem.name, env0).Some? {
        ReadyField(target.id, s.elem.name, env, env0);
      }
      if s.elem.HofCall? && PassesElement(target, s.elem) && BodyScope(s.elem.param, Some(target.of), env0, sc).Some? {
        ReadyKnown(s.elem.body, env, env0, BodyScope(s.elem.param, Some(target.of), env0, sc).value);
      }
    }
  }

  lemma ReadyField(c: nat, name: string, env: Arena, env0: Arena)
    requires StateOf(env, env0) && EnvReady(env) && FindField(c, name, env0).Some?
    ensures Complete(TypeOfField(c, name, env0))
  {
    FindFieldOf(c, name, env, env0);
    FinishFieldReady(c, name, env, env0);
    FinishFieldAgrees(c, name, env, env0);
    FindFieldFrom(c, name, env);
    ToTypeSet(FindField(c, name, env).value.typ, env);
  }

  // ----- A quiet pass -----

  lemma CompleteDeref(e: Expr, env: Arena, env0: Arena, sc: Scope)
    requires StateOf(env, env0) && Sound(e, env0, sc) && Complete(TypeOf(e))
    ensures Complete(Deref(TypeOf(e), env))
  {
    SoundAgrees(e, env0, sc);
    InferRooted(e, env0, sc);
    RootedComplete(TypeOf(e), env0);
    SameDeref(TypeOf(e), env, env0);
  }

  /** An unresolved node that a pass leaves alone has been complained about. */
  lemma {:induction false} QuietComplete(e: Expr, env: Arena, env0: Arena, sc: Scope)
    requires StateOf(env, env0) && ScopeOk(sc, env0) && Sound(e, env0, sc) && EnvSettled(env)
    requires SingleParameter(e) && FieldsKnown(e, env0, sc)
    requires var r := PassExpr(e, env, sc); !r.changed && r.errors == []
    ensures Complete(TypeOf(e))
    decreases e, 0
  {
    match e
    case Lit(_) =>
    case Select(s) => SelectionQuietComplete(s, env, env0, sc);
    case Not(x, t) =>
      QuietComplete(x, env, env0, sc);
      OperandSound(x, false, env, env0, sc);
      CompleteDeref(x, env, env0, sc);
    case Logical(op, l, r, t) =>
      QuietComplete(l, env, env0, sc);
      QuietComplete(r, env, env0, sc);
      OperandSound(l, false, env, env0, sc);
      OperandSound(r, false, env, env0, sc);
      CompleteDeref(l, env, env0, sc);
    case Relational(op, l, r, t) =>
      QuietComplete(l, env, env0, sc);
      QuietComplete(r, env, env0, sc);
      OperandSound(l, false, env, env0, sc);
      OperandSound(r, false, env, env0, sc);
      CompleteDeref(l, env, env0, sc);
      CompleteDeref(r, env, env0, sc);
  }

  lemma {:induction false} SelectionQuietComplete(s: Selection, env: Arena, env0: Arena, sc: Scope)
    requires StateOf(env, env0) && ScopeOk(sc, env0) && SelectionSound(s, env0, sc) && EnvSettled(env)
    requires SelectionSingleParameter(s) && SelectionFieldsKnown(s, env0, sc)
    requires var r := PassSelection(s, env, sc); !r.changed && r.errors == []
    ensures Complete(s.typ)
    decreases s, 0
  {
    if s.Path? && Incomplete(s.typ) {
      var rp := PassSelection(s.prefix, env, sc);
      SelectionQuietComplete(s.prefix, env, env0, sc);
      PassSelectionSound(s.prefix, env, env0, sc);
      assert rp.node.typ == s.prefix.typ;
      SameDeref(s.prefix.typ, env, env0);
      var target := TargetOf(Deref(s.prefix.typ, env));
      if PassesElement(target, s.elem) {
        QuietElement(s, env, env0, sc);
      } else if target.OnComposite? && s.elem.Identifier? {
        SelectionSoundAgrees(s.prefix, env0, sc);
        FindFieldOf(target.id, s.elem.name, env, env0);
        if FindField(target.id, s.elem.name, env0).Some? { FinishFieldSettled(target.id, s.elem.name, env, env0); }
      }
    }
  }

  lemma {:induction false} QuietElement(s: Selection, env: Arena, env0: Arena, sc: Scope)
    requires StateOf(env, env0) && ScopeOk(sc, env0) && SelectionSound(s, env0, sc) && EnvSettled(env)
    requires SelectionSingleParameter(s) && SelectionFieldsKnown(s, env0, sc)
    requires s.Path? && Complete(s.prefix.typ)
    requires var target := TargetOf(Deref(s.prefix.typ, env));
             && target == TargetOf(Deref(s.prefix.typ, env0)) && PassesElement(target, s.elem)
             && var re := PassElement(s.elem, env, sc, Some(target.of)); !re.changed && re.errors == []
    ensures Complete(s.typ)
    decreases s, -1
  {
    var of := TargetOf(Deref(s.prefix.typ, env)).of;
    match s.elem
    case Identifier(n, t) =>
    case HofCall(n, param, body, t) =>
      SelectionSoundAgrees(s.prefix, env0, sc);
      TargetHasName(s.prefix, env0, sc);
      SameBodyScope(param, of, env, env0, sc);
      BodyScopeOk(param, of, env0, sc);
      QuietComplete(body, env, env0, BodyScope(param, Some(of), env0, sc).value);
    case NormalCall(n, params, t) => LiteralParams(params, env, sc);
  }

  // ----- A settled pass -----

  /** If the one-shot typing succeeds throughout, a pass that reports no change has nothing
      left to resolve, whatever it complained about. */
  lemma {:induction false} SettledComplete(e: Expr, env: Arena, env0: Arena, sc: Scope)
    requires StateOf(env, env0) && ScopeOk(sc, env0) && Sound(e, env0, sc) && EnvSettled(env) && Typable(e, env0, sc)
    requires !PassExpr(e, env, sc).changed
    ensures Complete(TypeOf(e))
    decreases e, 3
  {
    match e
    case Lit(_) =>
    case Select(s) => SelectionSettledComplete(s, env, env0, sc);
    case Not(x, t) =>
      SettledComplete(x, env, env0, sc);
      OperandSound(x, false, env, env0, sc);
    case Logical(op, l, r, t) =>
      SettledComplete(l, env, env0, sc);
      SettledComplete(r, env, env0, sc);
      OperandSound(l, false, env, env0, sc);
      OperandSound(r, false, env, env0, sc);
    case Relational(op, l, r, t) =>
      SettledComplete(l, env, env0, sc);
      SettledComplete(r, env, env0, sc);
      OperandSound(l, false, env, env0, sc);
      OperandSound(r, false, env, env0, sc);
  }

  lemma {:induction false} SelectionSettledComplete(s: Selection, env: Arena, env0: Arena, sc: Scope)
    requires StateOf(env, env0) && ScopeOk(sc, env0) && SelectionSound(s, env0, sc) && EnvSettled(env)
    requires SelectionTypable(s, env0, sc) && !PassSelection(s, env, sc).changed
    ensures Complete(s.typ)
    decreases s, 3
  {
    match s
    case Single(el, t) => SameResolution(el.name, env, env0, sc);
    case Path(p, el, t) => PathSettledComplete(s, env, env0, sc);
  }

  lemma {:induction false} PathSettledComplete(s: Selection, env: Arena, env0: Arena, sc: Scope)
    requires s.Path? && StateOf(env, env0) && ScopeOk(sc, env0) && SelectionSound(s, env0, sc) && EnvSettled(env)
    requires SelectionTypable(s, env0, sc) && !PassSelection(s, env, sc).changed
    ensures Complete(s.typ)
    decreases s, 2
  {
    if Incomplete(s.typ) {
      var rp := PassSelection(s.prefix, env, sc);
      PassSelectionSound(s.prefix, env, env0, sc);
      PrefixAfterPass(s.prefix, rp.node, env, env0, sc);
      var target := TargetOf(Deref(InferSelection(s.prefix, env0, sc), env0));
      // only the plain field on a set hides the prefix's change, and that is not typable
      assert !rp.changed;
      SelectionSettledComplete(s.prefix, env, env0, sc);
      assert rp.node.typ == s.prefix.typ == InferSelection(s.prefix, env0, sc);
      if PassesElement(target, s.elem) {
        SettledElement(s, env, env0, sc);
      } else {
        FinishFieldSettled(target.id, s.elem.name, env, env0);
      }
    }
  }

  lemma {:induction false} SettledElement(s: Selection, env: Arena, env0: Arena, sc: Scope)
    requires StateOf(env, env0) && ScopeOk(sc, env0) && SelectionSound(s, env0, sc) && EnvSettled(env)
    requires s.Path? && SelectionTypable(s, env0, sc)
    requires s.prefix.typ == InferSelection(s.prefix, env0, sc) && Deref(s.prefix.typ, env) == Deref(s.prefix.typ, env0)
    requires var target := TargetOf(Deref(s.prefix.typ, env0));
             PassesElement(target, s.elem) && !PassElement(s.elem, env, sc, Some(target.of)).changed
    ensures Complete(s.typ)
    decreases s, 1
  {
    var of := TargetOf(Deref(s.prefix.typ, env0)).of;
    assert Complete(s.prefix.typ);
    assert InferSelection(s, env0, sc) == InferElement(s.elem, env0, sc, of);
    match s.elem
    case Identifier(n, t) => SameResolution(n, env, env0, sc);
    case HofCall(n, param, body, t) =>
      TargetHasName(s.prefix, env0, sc);
      SameBodyScope(param, of, env, env0, sc);
      BodyScopeOk(param, of, env0, sc);
      SettledComplete(body, env, env0, BodyScope(param, Some(of), env0, sc).value);
    case NormalCall(n, params, t) =>
      assert |params| == 1 ==> Infer(params[0], env0, sc) == TypeOf(params[0]);
  }

  /** What is resolved has no call with more than one parameter, and selects no field of an unknown type. */
  lemma {:induction false} CompleteSingle(e: Expr, env: Arena, sc: Scope)
    requires Sound(e, env, sc) && Complete(TypeOf(e))
    ensures SingleParameter(e) && FieldsKnown(e, env, sc)
    decreases e, 0
  {
    match e
    case Lit(_) =>
    case Select(s) => CompleteSelectionSingle(s, env, sc);
    case Not(x, _) => CompleteSingle(x, env, sc);
    case Logical(_, l, r, _) => CompleteSingle(l, env, sc); CompleteSingle(r, env, sc);
    case Relational(_, l, r, _) => CompleteSingle(l, env, sc); CompleteSingle(r, env, sc);
  }

  lemma {:induction false} CompleteSelectionSingle(s: Selection, env: Arena, sc: Scope)
    requires SelectionSound(s, env, sc) && Complete(s.typ)
    ensures SelectionSingleParameter(s) && SelectionFieldsKnown(s, env, sc)
    decreases s, 0
  {
    if s.Path? {
      CompleteSelectionSingle(s.prefix, env, sc);
      SelectionSoundAgrees(s, env, sc);
      SelectionSoundAgrees(s.prefix, env, sc);
      assert ElementSound(s.elem, s.typ, s.prefix.typ, env, sc);
      var target := TargetOf(Deref(s.prefix.typ, env));
      if s.elem.HofCall? {
        assert PassesElement(target, s.elem);
        CompleteSingle(s.elem.body, env, BodyScope(s.elem.param, Some(target.of), env, sc).value);
      }
    }
  }

  /** An expression that draws no diagnostic and is left alone is resolved exactly when its calls have at most one
      parameter each and the fields it selects have known types. */
  lemma {:induction false} QuietCompleteExactly(e: Expr, env: Arena, env0: Arena, sc: Scope)
    requires StateOf(env, env0) && ScopeOk(sc, env0) && Sound(e, env0, sc) && EnvSettled(env)
    requires var r := PassExpr(e, env, sc); !r.changed && r.errors == []
    ensures Complete(TypeOf(e)) <==> SingleParameter(e) && FieldsKnown(e, env0, sc)
  {
    if SingleParameter(e) && FieldsKnown(e, env0, sc) { QuietComplete(e, env, env0, sc); }
    if Complete(TypeOf(e)) { CompleteSingle(e, env0, sc); }
  }

  /** A field whose type is not known, selected from a composite, is left unresolved without a word. */
  lemma UnknownFieldIsSilent(s: Selection, c: nat, env: Arena, env0: Arena, sc: Scope)
    requires StateOf(env, env0) && SelectionSound(s, env0, sc) && s.Path? && s.elem.Identifier? &&
             Complete(s.prefix.typ)
    requires TargetOf(Deref(s.prefix.typ, env)) == OnComposite(c) &&
             Deref(s.prefix.typ, env) == Deref(s.prefix.typ, env0)
    requires FindField(c, s.elem.name, env0).Some? && Incomplete(TypeOfField(c, s.elem.name, env0)) &&
             FragmentErrors(c, env) == []
    ensures Incomplete(s.typ) && PassSelection(s, env, sc) == Outcome(Path(s.prefix, s.elem, Error), false, [])
  {
    SelectionSoundAgrees(s, env0, sc);
    SelectionSoundAgrees(s.prefix, env0, sc);
    CompleteSelectionIdle(s.prefix, env, env0, sc);
    FindFieldOf(c, s.elem.name, env, env0);
    FinishFieldAgrees(c, s.elem.name, env, env0);
  }

  /** Why calls need a single parameter: a longer `contains` on a resolved array or set is
      passed over in silence and stays unresolved. */
  lemma LongContainsIsSilent(s: Selection, env: Arena, env0: Arena, sc: Scope)
    requires SelectionSound(s, env0, sc) && s.Path? && Complete(s.prefix.typ) && Incomplete(s.typ)
    requires Deref(s.prefix.typ, env) == Deref(s.prefix.typ, env0)
    requires s.elem.NormalCall? && PassesElement(TargetOf(Deref(s.prefix.typ, env)), s.elem)
    requires s.elem.name == "contains" && |s.elem.params| >= 2
    ensures PassSelection(s, env, sc) == Outcome(s, false, [])
  {
    CompleteSelectionIdle(s.prefix, env, env0, sc);
    LiteralParams(s.elem.params, env, sc);
  }
}
