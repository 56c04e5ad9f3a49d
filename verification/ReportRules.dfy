/**
 Which diagnostics an expression draws, by the typing rules.

 A typed expression draws none.  An untyped one draws those of its parts, and its own if the rule is
 broken by operands that have types.
 */
module ReportRules {
  import opened Wrappers
  import opened Ast
  import opened Passes
  import opened OneShot
  import opened EnvironmentLemmas
  import opened ExprSoundness
  import opened ExprProgress
  import opened QuietForms
  import opened Faults
  import opened Deferrals
  import opened Panics
  import opened TypingRules
  import opened FaultRules

  ghost function Complaints(e: Expr, env: Arena, sc: Scope): seq<Diagnostic>
    decreases e, 0
  {
    if HasType(e, env, sc) then []
    else
      match e
      case Lit(_) => []
      case Select(s) => SelectionComplaints(s, env, sc)
      case Not(x, _) => Complaints(x, env, sc) + (if HasType(x, env, sc) then [NegateNonBoolean] else [])
      case Logical(_, l, r, _) =>
        Complaints(l, env, sc) + Complaints(r, env, sc) +
        (if HasType(l, env, sc) || HasType(r, env, sc) then [NonBooleanOperand] else [])
      case Relational(_, l, r, _) =>
        Complaints(l, env, sc) + Complaints(r, env, sc) +
        (if HasType(l, env, sc) && HasType(r, env, sc) then [MismatchedTypes] else [])
  }

  /** Of an untyped selection.  What is selected from an untyped prefix draws nothing more. */
  ghost function SelectionComplaints(s: Selection, env: Arena, sc: Scope): seq<Diagnostic>
    decreases s, 1
  {
    match s
    case Single(el, _) => IdentifierComplaints(el)
    case Path(p, _, _) =>
      if exists u :: Value(u) && SelectionTyped(p, env, sc, u) then
        var u :| Value(u) && SelectionTyped(p, env, sc, u);
        FromComplaints(s, u, env, sc)
      else SelectionComplaints(p, env, sc)
  }

  function IdentifierComplaints(el: Element): seq<Diagnostic> {
    if el.name == "self" then [SelfOutsideModel] else [UnknownContextOrVariant(el.name)]
  }

  /** Of an untyped selection from a value of type `u`. */
  ghost function FromComplaints(s: Selection, u: Type, env: Arena, sc: Scope): seq<Diagnostic>
    requires s.Path?
    decreases s, 0
  {
    match u
    case Composite(c) => FieldComplaints(s.elem, c, env)
    case OptionalType(v) =>
      if v.Composite? then FieldComplaints(s.elem, v.id, env) else ElementComplaints(s.elem, v, env, sc)
    case SetType(v) => if s.elem.Identifier? then [FieldOnSet(s.elem.name)] else ElementComplaints(s.elem, v, env, sc)
    case ArrayType(v) => if s.elem.NormalCall? then ElementComplaints(s.elem, v, env, sc) else [OnlyContainsOnArray]
    case _ => [NonComposite(s.elem.name)]
  }

  /** A composite has fields only.  Fragments that do not exist are reported with a field that is not found or has no
      type. */
  ghost function FieldComplaints(el: Element, c: nat, env: Arena): seq<Diagnostic> {
    if el.Identifier? then
      LostFragments(c, env) + (if exists f :: HasField(c, el.name, env, f) then [] else [NoSuchField(el.name)])
    else [CallOnComposite(el.name)]
  }

  function LostFragments(c: nat, env: Arena): seq<Diagnostic> {
    if c < |env.values| && env.values[c].ModelEntry? then LostAmong(env.values[c].model.fragments, env) else []
  }

  function LostAmong(frs: seq<Fragment>, env: Arena): seq<Diagnostic> {
    if frs == [] then []
    else if frs[0].name in env.ids then LostAmong(frs[1..], env)
    else [NoSuchFragment(frs[0].name)] + LostAmong(frs[1..], env)
  }

  /** Of an untyped element with values of type `v` to range over. */
  ghost function ElementComplaints(el: Element, v: Type, env: Arena, sc: Scope): seq<Diagnostic>
    decreases el, 1
  {
    match el
    case Identifier(_, _) => IdentifierComplaints(el)
    case HofCall(_, _, _, _) =>
      if n :| InnermostName(v, env, n) then BodyComplaints(el, n, env, sc) else []
    case NormalCall(n, params, _) =>
      if n != "contains" then [OnlyContains(n)]
      else if |params| == 0 then [ContainsWithoutParameter]
      else if |params| == 1 then [ParameterMismatch]
      else []
  }

  ghost function BodyComplaints(el: Element, n: string, env: Arena, sc: Scope): seq<Diagnostic>
    requires el.HofCall?
    decreases el, 0
  {
    Complaints(el.body, env, sc[el.param := n])
  }

  // ----- A quiet expression draws them -----

  /** `e` is a form of the parsed expression `p` that a pass leaves alone. */
  ghost predicate QuietForm(e: Expr, p: Expr, env: Arena, env0: Arena, sc: Scope) {
    && Quiet(e, env, env0, sc) && ScopeOk(sc, env0) && ShallowExpr(e) == ShallowExpr(p) && Parsed(p)
    && SetFieldFree(p, env0, sc) && !Faulty(p, env0, sc, Possible)
  }

  ghost predicate QuietSelectionForm(s: Selection, p: Selection, env: Arena, env0: Arena, sc: Scope) {
    && QuietSelection(s, env, env0, sc) && ScopeOk(sc, env0) && ShallowSelection(s) == ShallowSelection(p)
    && SelectionParsed(p) && SelectionSetFieldFree(p, env0, sc) && !SelectionFaulty(p, env0, sc, Possible)
  }

  /** It is resolved exactly if it has a type. */
  lemma ResolvedIfTyped(e: Expr, p: Expr, env: Arena, env0: Arena, sc: Scope)
    requires QuietForm(e, p, env, env0, sc)
    ensures Complete(TypeOf(e)) <==> HasType(p, env0, sc)
    ensures Complete(TypeOf(e)) ==> PassExpr(e, env, sc) == Outcome(e, false, [])
  {
    QuietExact(e, env, env0, sc);
    SameInfer(e, p, env0, sc);
    var t := OnlyType(p, env0, sc);
    if Complete(TypeOf(e)) { CompleteIdle(e, env, env0, sc); }
  }

  lemma ResolvedOperand(e: Expr, p: Expr, env: Arena, env0: Arena, sc: Scope)
    requires QuietForm(e, p, env, env0, sc)
    ensures Complete(Operand(PassExpr(e, env, sc).node, env)) <==> HasType(p, env0, sc)
  {
    ResolvedIfTyped(e, p, env, env0, sc);
    OperandAgrees(e, env, env0, sc);
    SameInfer(e, p, env0, sc);
    var t := OnlyType(p, env0, sc);
    if Complete(TypeOf(e)) {
      SoundAgrees(e, env0, sc);
      SameDeref(TypeOf(e), env, env0);
    }
  }

  lemma NegationForm(e: Expr, p: Expr, env: Arena, env0: Arena, sc: Scope)
    requires p.Not? && QuietForm(e, p, env, env0, sc)
    ensures e.Not? && QuietForm(e.arg, p.arg, env, env0, sc)
  {
  }

  lemma LogicalForms(e: Expr, p: Expr, env: Arena, env0: Arena, sc: Scope)
    requires p.Logical? && QuietForm(e, p, env, env0, sc)
    ensures e.Logical? && QuietForm(e.left, p.left, env, env0, sc) && QuietForm(e.right, p.right, env, env0, sc)
  {
  }

  lemma RelationalForms(e: Expr, p: Expr, env: Arena, env0: Arena, sc: Scope)
    requires p.Relational? && QuietForm(e, p, env, env0, sc)
    ensures e.Relational? && QuietForm(e.left, p.left, env, env0, sc) && QuietForm(e.right, p.right, env, env0, sc)
  {
  }

  /** A pass over a quiet expression draws exactly these diagnostics, in this order. */
  lemma {:induction false} Reported(e: Expr, p: Expr, env: Arena, env0: Arena, sc: Scope)
    requires QuietForm(e, p, env, env0, sc)
    ensures PassExpr(e, env, sc).errors == Complaints(p, env0, sc)
    decreases p, 4
  {
    ResolvedIfTyped(e, p, env, env0, sc);
    if !HasType(p, env0, sc) {
      match p
      case Lit(_) =>
      case Select(q) => SelectionReported(e.sel, q, env, env0, sc);
      case Not(x, _) => NegationForm(e, p, env, env0, sc); OperandReported(e.arg, x, env, env0, sc);
      case Logical(_, l, r, _) =>
        LogicalForms(e, p, env, env0, sc);
        OperandReported(e.left, l, env, env0, sc);
        OperandReported(e.right, r, env, env0, sc);
      case Relational(_, l, r, _) =>
        RelationalForms(e, p, env, env0, sc);
        OperandReported(e.left, l, env, env0, sc);
        OperandReported(e.right, r, env, env0, sc);
    }
  }

  lemma {:induction false} OperandReported(e: Expr, p: Expr, env: Arena, env0: Arena, sc: Scope)
    requires QuietForm(e, p, env, env0, sc)
    ensures PassExpr(e, env, sc).errors == Complaints(p, env0, sc)
    ensures Complete(Operand(PassExpr(e, env, sc).node, env)) <==> HasType(p, env0, sc)
    decreases p, 5
  {
    Reported(e, p, env, env0, sc);
    ResolvedOperand(e, p, env, env0, sc);
  }

  lemma {:induction false} SelectionReported(s: Selection, p: Selection, env: Arena, env0: Arena, sc: Scope)
    requires QuietSelectionForm(s, p, env, env0, sc) && !HasType(Select(p), env0, sc)
    ensures PassSelection(s, env, sc).errors == SelectionComplaints(p, env0, sc)
    decreases p, 3
  {
    ResolvedIfTyped(Select(s), Select(p), env, env0, sc);
    if p.Single? { SingleReported(s, p, env, env0, sc); } else { PathReported(s, p, env, env0, sc); }
  }

  lemma {:induction false} PathReported(s: Selection, p: Selection, env: Arena, env0: Arena, sc: Scope)
    requires QuietSelectionForm(s, p, env, env0, sc) && p.Path? && Incomplete(s.typ)
    ensures PassSelection(s, env, sc).errors == SelectionComplaints(p, env0, sc)
    decreases p, 2
  {
    var q := p.prefix;
    PrefixForm(s, p, env, env0, sc);
    var u := SelectedType(q, env0, sc);
    if HasType(Select(q), env0, sc) {
      OpenIsForm(s, p, u, env, env0, sc);
      FromReported(s, p, u, env, env0, sc);
      SomeComplaints(p, u, env0, sc);
    } else {
      SelectionReported(s.prefix, q, env, env0, sc);
      FromNothing(s, p, env, env0, sc);
    }
  }

  lemma SelectedType(q: Selection, env0: Arena, sc: Scope) returns (u: Type)
    requires env0.Valid() && ScopeOk(sc, env0) && SelectionParsed(q)
    ensures u == Deref(InferSelection(q, env0, sc), env0)
    ensures HasType(Select(q), env0, sc) ==> Value(u) && forall w :: SelectionTyped(q, env0, sc, w) <==> w == u
  {
    u := OnlySelected(q, env0, sc);
    if HasType(Select(q), env0, sc) {
      var t :| Value(t) && Typed(Select(q), env0, sc, t);
      assert SelectionTyped(q, env0, sc, t);
    }
  }

  lemma SomeComplaints(p: Selection, u: Type, env0: Arena, sc: Scope)
    requires p.Path? && Value(u) && forall w :: SelectionTyped(p.prefix, env0, sc, w) <==> w == u
    ensures SelectionComplaints(p, env0, sc) == FromComplaints(p, u, env0, sc)
  {
    assert SelectionTyped(p.prefix, env0, sc, u);
  }

  lemma Shapes(s: Selection, p: Selection)
    requires ShallowSelection(s) == ShallowSelection(p)
    ensures s.Single? <==> p.Single?
    ensures s.Path? ==> ShallowSelection(s.prefix) == ShallowSelection(p.prefix)
    ensures SameElement(s.elem, p.elem)
  {
    assert ShallowElement(s.elem) == ShallowElement(p.elem);
    SameElements(s.elem, p.elem);
  }

  lemma SingleReported(s: Selection, p: Selection, env: Arena, env0: Arena, sc: Scope)
    requires QuietSelectionForm(s, p, env, env0, sc) && p.Single? && Incomplete(s.typ)
    ensures PassSelection(s, env, sc).errors == SelectionComplaints(p, env0, sc)
  {
    SameResolution(s.elem.name, env, env0, sc);
    Shapes(s, p);
    assert !PassElement(s.elem, env, sc, None).changed;
  }

  lemma PrefixForm(s: Selection, p: Selection, env: Arena, env0: Arena, sc: Scope)
    requires s.Path? && p.Path? && QuietSelectionForm(s, p, env, env0, sc)
    ensures QuietSelectionForm(s.prefix, p.prefix, env, env0, sc)
    ensures Complete(s.prefix.typ) <==> HasType(Select(p.prefix), env0, sc)
  {
    SameInferSelection(s.prefix, p.prefix, env0, sc);
    Shapes(s, p);
    PrefixFree(p, env0, sc);
    QuietPrefix(s, env, env0, sc);
    ResolvedIfTyped(Select(s.prefix), Select(p.prefix), env, env0, sc);
  }

  lemma PrefixFree(p: Selection, env0: Arena, sc: Scope)
    requires p.Path? && SelectionParsed(p) && SelectionSetFieldFree(p, env0, sc) &&
             !SelectionFaulty(p, env0, sc, Possible)
    ensures !(Target0(p.prefix, env0, sc).OnSet? && p.elem.Identifier?)
    ensures SelectionParsed(p.prefix) && SelectionSetFieldFree(p.prefix, env0, sc)
    ensures !SelectionFaulty(p.prefix, env0, sc, Possible)
    ensures Target0(p.prefix, env0, sc).OnNothing? ==> !Deferred(p.prefix, env0, sc, true)
  {
    assert Under(Possible, Target0(p.prefix, env0, sc), p.elem) == Possible;
  }

  lemma UntypedSlot(s: Selection, p: Selection, env: Arena, env0: Arena, sc: Scope)
    requires QuietSelectionForm(s, p, env, env0, sc)
    requires Incomplete(InferSelection(p, env0, sc)) && !Deferred(p, env0, sc, true)
    ensures PassSelection(s, env, sc).node.typ == Error
  {
    var r := PassSelection(s, env, sc).node;
    PassSelectionSound(s, env, env0, sc);
    SelectionSoundAgrees(r, env0, sc);
    SameInferSelection(r, p, env0, sc);
    if r.typ.Defer? {
      DeferredAfter(s, env, env0, sc);
      SameDeferred(s, p, env0, sc, true);
    }
  }

  /** A prefix without a type is not left open either, since no fault is possible. */
  lemma FromNothing(s: Selection, p: Selection, env: Arena, env0: Arena, sc: Scope)
    requires s.Path? && p.Path? && QuietSelectionForm(s, p, env, env0, sc) && Incomplete(s.typ)
    requires QuietSelectionForm(s.prefix, p.prefix, env, env0, sc) && !HasType(Select(p.prefix), env0, sc)
    ensures PassSelection(s, env, sc).errors == PassSelection(s.prefix, env, sc).errors
  {
    UntypedPrefix(p, env0, sc);
    PrefixFree(p, env0, sc);
    UntypedSlot(s.prefix, p.prefix, env, env0, sc);
    ErrorRejects(s, env, sc);
  }

  lemma UntypedPrefix(p: Selection, env0: Arena, sc: Scope)
    requires p.Path? && env0.Valid() && ScopeOk(sc, env0) && SelectionParsed(p.prefix)
    requires !HasType(Select(p.prefix), env0, sc)
    ensures Incomplete(InferSelection(p.prefix, env0, sc)) && Target0(p.prefix, env0, sc).OnNothing?
  {
    var u := OnlyType(Select(p.prefix), env0, sc);
    SelectionInferredOrError(p.prefix, env0, sc);
  }

  lemma ErrorRejects(s: Selection, env: Arena, sc: Scope)
    requires s.Path? && Incomplete(s.typ) && PassSelection(s.prefix, env, sc).node.typ == Error
    ensures PassSelection(s, env, sc).errors == PassSelection(s.prefix, env, sc).errors
  {
    var rp := PassSelection(s.prefix, env, sc);
    assert PassSelection(s, env, sc) == Reject(rp, s.elem, s.typ, OnNothing);
    assert rp.errors + [] == rp.errors;
  }

  /** A selection under a typed prefix, quiet but unresolved. */
  ghost predicate OpenForm(s: Selection, p: Selection, u: Type, env: Arena, env0: Arena, sc: Scope) {
    && s.Path? && p.Path? && QuietSelectionForm(s, p, env, env0, sc) && Incomplete(s.typ)
    && PassSelection(s.prefix, env, sc) == Outcome(s.prefix, false, []) && Complete(s.prefix.typ)
    && Complete(InferSelection(p.prefix, env0, sc)) && u == Deref(InferSelection(p.prefix, env0, sc), env0)
    && u == Deref(s.prefix.typ, env) && u == Deref(s.prefix.typ, env0) && Value(u)
    && SameElement(s.elem, p.elem)
  }

  predicate SameElement(a: Element, b: Element) {
    && ShallowElement(a) == ShallowElement(b) && a.name == b.name
    && (a.Identifier? <==> b.Identifier?) && (a.HofCall? <==> b.HofCall?)
    && (a.NormalCall? ==> |a.params| == |b.params|)
    && (a.HofCall? ==> a.param == b.param && ShallowExpr(a.body) == ShallowExpr(b.body))
  }

  lemma OpenIsForm(s: Selection, p: Selection, u: Type, env: Arena, env0: Arena, sc: Scope)
    requires s.Path? && p.Path? && QuietSelectionForm(s, p, env, env0, sc) && Incomplete(s.typ)
    requires QuietSelectionForm(s.prefix, p.prefix, env, env0, sc) && Complete(s.prefix.typ)
    requires u == Deref(InferSelection(p.prefix, env0, sc), env0) && Value(u)
    ensures OpenForm(s, p, u, env, env0, sc)
  {
    CompleteSelectionIdle(s.prefix, env, env0, sc);
    SelectionSoundAgrees(s.prefix, env0, sc);
    SameInferSelection(s.prefix, p.prefix, env0, sc);
    SameDeref(s.prefix.typ, env, env0);
    Shapes(s, p);
  }

  lemma {:induction false} FromReported(s: Selection, p: Selection, u: Type, env: Arena, env0: Arena, sc: Scope)
    requires OpenForm(s, p, u, env, env0, sc)
    ensures PassSelection(s, env, sc).errors == FromComplaints(p, u, env0, sc)
    decreases p, 1
  {
    var target := TargetOf(u);
    if PassesElement(target, s.elem) {
      ElementOutcome(s, env, sc);
      ElementReported(s, p, u, env, env0, sc);
      PassedComplaints(p, u, env0, sc);
    } else if target.OnComposite? && s.elem.Identifier? {
      FieldReported(s, p, u, env, env0, sc);
    } else {
      UnpassedReported(s, p, u, env, env0, sc);
    }
  }

  lemma PassedComplaints(p: Selection, u: Type, env0: Arena, sc: Scope)
    requires p.Path? && PassesElement(TargetOf(u), p.elem)
    ensures FromComplaints(p, u, env0, sc) == ElementComplaints(p.elem, TargetOf(u).of, env0, sc)
  {
  }

  lemma {:induction false} NoError(t: Type, env: Arena)
    requires Value(Deref(t, env))
    ensures !IsError(t)
  {
    match t
    case OptionalType(u) => NoError(u, env);
    case SetType(u) => NoError(u, env);
    case ArrayType(u) => NoError(u, env);
    case _ =>
  }

  lemma UnpassedReported(s: Selection, p: Selection, u: Type, env: Arena, env0: Arena, sc: Scope)
    requires OpenForm(s, p, u, env, env0, sc)
    requires !PassesElement(TargetOf(u), s.elem) && !(TargetOf(u).OnComposite? && s.elem.Identifier?)
    ensures PassSelection(s, env, sc).errors == FromComplaints(p, u, env0, sc)
  {
    var rp := PassSelection(s.prefix, env, sc);
    PrefixFree(p, env0, sc);
    if !TargetOf(u).OnSet? {
      assert PassSelection(s, env, sc) == Reject(rp, s.elem, s.typ, TargetOf(u));
      NoError(s.prefix.typ, env);
    }
  }

  lemma {:induction false} LostAmongSame(frs: seq<Fragment>, ds: seq<Fragment>, env: Arena, env0: Arena)
    requires SameNames(frs, ds) && env.ids == env0.ids
    ensures MissingFragments(frs, env) == LostAmong(ds, env0)
  {
    if frs != [] {
      assert SameNames(frs[1..], ds[1..]);
      LostAmongSame(frs[1..], ds[1..], env, env0);
    }
  }

  lemma LostSame(c: nat, env: Arena, env0: Arena)
    requires StateOf(env, env0)
    ensures FragmentErrors(c, env) == LostFragments(c, env0)
  {
    if c < |env.values| {
      assert EntryOf(env.values[c], env0.values[c], env0.ids);
      if env.values[c].ModelEntry? && env0.values[c].ModelEntry? {
        LostAmongSame(env.values[c].model.fragments, env0.values[c].model.fragments, env, env0);
      }
    }
  }

  lemma FieldReported(s: Selection, p: Selection, u: Type, env: Arena, env0: Arena, sc: Scope)
    requires OpenForm(s, p, u, env, env0, sc) && TargetOf(u).OnComposite? && s.elem.Identifier?
    ensures PassSelection(s, env, sc).errors == FromComplaints(p, u, env0, sc)
  {
    var c, name := TargetOf(u).id, s.elem.name;
    var fin := FinishField(c, name, env);
    FinishFieldAgrees(c, name, env, env0);
    assert PassSelection(s, env, sc) == Outcome(Path(s.prefix, s.elem, fin.typ), fin.updated, [] + fin.errors);
    FindFieldOf(c, name, env, env0);
    LostSame(c, env, env0);
    if FindField(c, name, env0).Some? {
      HasFieldMeans(c, name, env0, FindField(c, name, env0).value);
    }
    if f :| HasField(c, name, env0, f) { HasFieldMeans(c, name, env0, f); }
    assert FromComplaints(p, u, env0, sc) == FieldComplaints(p.elem, c, env0);
  }

  lemma {:induction false} ElementReported(s: Selection, p: Selection, u: Type, env: Arena, env0: Arena, sc: Scope)
    requires OpenForm(s, p, u, env, env0, sc) && PassesElement(TargetOf(u), s.elem)
    ensures PassElement(s.elem, env, sc, Some(TargetOf(u).of)).errors ==
            ElementComplaints(p.elem, TargetOf(u).of, env0, sc)
    decreases p, 0
  {
    match s.elem
    case Identifier(_, _) => NameReported(s, p, u, env, env0, sc);
    case HofCall(_, param, body, _) =>
      var n := OneName(p.prefix, env0, sc);
      BodyForm(s, p, u, n, env, env0, sc);
      Reported(body, p.elem.body, env, env0, sc[param := n]);
      OneBody(p.elem, TargetOf(u).of, n, env0, sc);
    case NormalCall(_, params, _) => CallReported(s, p, u, env, env0, sc);
  }

  lemma OneBody(el: Element, v: Type, n: string, env0: Arena, sc: Scope)
    requires el.HofCall? && forall m :: InnermostName(v, env0, m) <==> m == n
    ensures ElementComplaints(el, v, env0, sc) == Complaints(el.body, env0, sc[el.param := n])
  {
    assert InnermostName(v, env0, n);
  }

  lemma NameReported(s: Selection, p: Selection, u: Type, env: Arena, env0: Arena, sc: Scope)
    requires OpenForm(s, p, u, env, env0, sc) && PassesElement(TargetOf(u), s.elem) && s.elem.Identifier?
    ensures PassElement(s.elem, env, sc, Some(TargetOf(u).of)).errors == IdentifierComplaints(p.elem)
  {
    ElementSlot(s, env0, sc);
    ElementOutcome(s, env, sc);
    SameResolution(s.elem.name, env, env0, sc);
  }

  lemma CallReported(s: Selection, p: Selection, u: Type, env: Arena, env0: Arena, sc: Scope)
    requires OpenForm(s, p, u, env, env0, sc) && PassesElement(TargetOf(u), s.elem) && s.elem.NormalCall?
    ensures PassElement(s.elem, env, sc, Some(TargetOf(u).of)).errors ==
            ElementComplaints(p.elem, TargetOf(u).of, env0, sc)
  {
    ElementSlot(s, env0, sc);
    LiteralParams(s.elem.params, env, sc);
    NotContained(s, p, u, env, env0, sc);
  }

  lemma NotContained(s: Selection, p: Selection, u: Type, env: Arena, env0: Arena, sc: Scope)
    requires OpenForm(s, p, u, env, env0, sc) && PassesElement(TargetOf(u), s.elem) && s.elem.NormalCall?
    ensures !ContainsApplies(s.elem, TargetOf(u).of)
  {
    assert ElementSound(s.elem, s.typ, s.prefix.typ, env0, sc);
  }

  /** The body of the call, in the scope of its parameter. */
  lemma BodyForm(s: Selection, p: Selection, u: Type, n: string, env: Arena, env0: Arena, sc: Scope)
    requires OpenForm(s, p, u, env, env0, sc) && PassesElement(TargetOf(u), s.elem) && s.elem.HofCall?
    requires forall param :: BodyScope(param, Some(TargetOf(u).of), env0, sc) == Some(sc[param := n])
    requires n in env0.ids
    ensures QuietForm(s.elem.body, p.elem.body, env, env0, sc[s.elem.param := n])
    ensures PassElement(s.elem, env, sc, Some(TargetOf(u).of)).errors ==
            PassExpr(s.elem.body, env, sc[s.elem.param := n]).errors
  {
    QuietBody(s, env, env0, sc);
    SameBodyScope(s.elem.param, TargetOf(u).of, env, env0, sc);
    BodyFree(p, TargetOf(u), n, env0, sc);
  }

  lemma BodyFree(p: Selection, target: Target, n: string, env0: Arena, sc: Scope)
    requires p.Path? && p.elem.HofCall? && Target0(p.prefix, env0, sc) == target && PassesElement(target, p.elem)
    requires BodyScope(p.elem.param, Some(target.of), env0, sc) == Some(sc[p.elem.param := n])
    requires SelectionSetFieldFree(p, env0, sc) && !SelectionFaulty(p, env0, sc, Possible) && SelectionParsed(p)
    ensures SetFieldFree(p.elem.body, env0, sc[p.elem.param := n]) && Parsed(p.elem.body)
    ensures !Faulty(p.elem.body, env0, sc[p.elem.param := n], Possible)
  {
    assert BodySetFieldFree(p.elem, target.of, env0, sc) && ElementParsed(p.elem);
    assert !ElementFaulty(p.elem, target.of, env0, sc, Possible);
  }
}
