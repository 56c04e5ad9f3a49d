/**
 One typechecking pass over each kind of syntax node.

 The source passes a node by unique mutable reference; here a pass maps the node to an
 `Outcome`: the updated node, whether the pass reported a change, and the diagnostics it
 pushed.
 */
module Passes {
  import opened Wrappers
  import opened Ast

  datatype Outcome<+T> = Outcome(node: T, changed: bool, errors: seq<Diagnostic>)

  /** Identifiers in scope, mapped to the name of their type. */
  type Scope = map<string, string>

  const NO_SCOPE: Scope := map[]

  function ModelScope(model: string): Scope {
    map["self" := model]
  }

  // ----- Name resolution -----

  /** Index of the first enum, in arena order, that has the variant. */
  function FirstEnumWith(variant: string, values: seq<Entry>, from: nat): (r: Option<nat>)
    requires from <= |values|
    ensures r.Some? ==> from <= r.value < |values| && values[r.value].EnumEntry?
    decreases |values| - from
  {
    if from == |values| then None
    else if values[from].EnumEntry? && variant in values[from].enum.variants then Some(from)
    else FirstEnumWith(variant, values, from + 1)
  }

  datatype Resolution = Resolved(typ: Type) | Unresolved(why: Diagnostic)

  predicate IsContext(name: string, env: Arena) {
    name in env.ids && env.ids[name] < |env.values| &&
    var e := env.values[env.ids[name]];
    e.ModelEntry? && e.model.kind.ContextKind?
  }

  /** An identifier: a name in scope, else a context, else an enum variant. */
  function ResolveIdentifier(name: string, env: Arena, sc: Scope): Resolution {
    if name in sc then
      if sc[name] in env.ids then Resolved(Reference(env.ids[sc[name]]))
      else Unresolved(UnknownContextOrVariant(name)) // the source panics; scopes only name arena types
    else if name == "self" then Unresolved(SelfOutsideModel)
    else if IsContext(name, env) then Resolved(Reference(env.ids[name]))
    else
      match FirstEnumWith(name, env.values, 0)
      case Some(i) => Resolved(Enumeration(i))
      case None => Unresolved(UnknownContextOrVariant(name))
  }

  /** The scope in which a higher-order call's body is checked: the parameter ranges over the
      element type.  None where the source panics. */
  function BodyScope(param: string, elemType: Option<Type>, env: Arena, sc: Scope): Option<Scope> {
    match elemType
    case None => None
    case Some(t) =>
      match UnderlyingName(t, env)
      case None => None
      case Some(n) => Some(sc[param := n])
  }

  function FirstNamed(fields: seq<Field>, name: string): Option<Field> {
    if fields == [] then None
    else if fields[0].name == name then Some(fields[0])
    else FirstNamed(fields[1..], name)
  }

  function EntryFields(name: string, env: Arena): seq<Field> {
    if name in env.ids && env.ids[name] < |env.values| && env.values[env.ids[name]].ModelEntry?
    then env.values[env.ids[name]].model.fields
    else []
  }

  function FragmentFields(fragments: seq<Fragment>, env: Arena): seq<Field> {
    if fragments == [] then []
    else EntryFields(fragments[0].name, env) + FragmentFields(fragments[1..], env)
  }

  function MissingFragments(fragments: seq<Fragment>, env: Arena): seq<Diagnostic> {
    if fragments == [] then []
    else (if fragments[0].name in env.ids then [] else [NoSuchFragment(fragments[0].name)])
         + MissingFragments(fragments[1..], env)
  }

  /** A field of a composite: its own fields first, then those of its fragments in order. */
  function FindField(c: nat, name: string, env: Arena): Option<Field> {
    if c < |env.values| && env.values[c].ModelEntry? then
      var m := env.values[c].model;
      FirstNamed(m.fields + FragmentFields(m.fragments, env), name)
    else None
  }

  function FragmentErrors(c: nat, env: Arena): seq<Diagnostic> {
    if c < |env.values| && env.values[c].ModelEntry?
    then MissingFragments(env.values[c].model.fragments, env) else []
  }

  // ----- Type matching -----

  predicate PlainMatch(l: Type, r: Type) {
    (l == FLOAT && r == INT) || (l == INT && r == FLOAT) || l == r
  }

  /** Equal up to Int against Float and one level of optionality. */
  predicate IdenticalMatch(l: Type, r: Type) {
    PlainMatch(if l.OptionalType? then l.inner else l, if r.OptionalType? then r.inner else r)
  }

  predicate IdenticalMatchWithNull(l: Type, r: Type) {
    || (l.OptionalType? && r.NullType?)
    || (l.NullType? && r.OptionalType?)
    || (l.NullType? && r.NullType?)
    || IdenticalMatch(l, r)
  }

  predicate InMatch(l: Type, r: Type) {
    (r.ArrayType? || r.SetType?) && l == r.elem
  }

  predicate OperandsMatch(op: RelationalOperator, l: Type, r: Type) {
    match op
    case Eq => IdenticalMatchWithNull(l, r)
    case Neq => IdenticalMatchWithNull(l, r)
    case In => InMatch(l, r)
    case _ => IdenticalMatch(l, r)
  }

  function Stripped(t: Type): Type {
    if t.OptionalType? then t.inner else t
  }

  /** Operands match whatever their sides: both are `Int` or `Float`, or they are equal, one optional layer of each
      aside.  For `==` and `!=` null also meets null and any optional. */
  lemma MatchesAreSymmetric(l: Type, r: Type)
    ensures IdenticalMatch(l, r) == IdenticalMatch(r, l) && IdenticalMatchWithNull(l, r) == IdenticalMatchWithNull(r, l)
    ensures IdenticalMatch(l, r) <==>
            Stripped(l) == Stripped(r) || {Stripped(l), Stripped(r)} == {INT, FLOAT}
    ensures IdenticalMatchWithNull(l, r) <==>
            || (NullType in {l, r} && (l.OptionalType? || r.OptionalType?))
            || Stripped(l) == Stripped(r) || {Stripped(l), Stripped(r)} == {INT, FLOAT}
  {
    var a, b := Stripped(l), Stripped(r);
    assert INT != FLOAT;
    if {a, b} == {INT, FLOAT} {
      assert a in {INT, FLOAT} && b in {INT, FLOAT} && INT in {a, b} && FLOAT in {a, b};
    }
    if (a == INT && b == FLOAT) || (a == FLOAT && b == INT) { assert {a, b} == {INT, FLOAT}; }
  }

  /** Field lookup finds the first field of that name; a composite's own fields hide those of
      its fragments. */
  lemma {:induction false} FirstNamedIsFirst(own: seq<Field>, others: seq<Field>, name: string)
    ensures FirstNamed(own + others, name) == if FirstNamed(own, name).Some? then FirstNamed(own, name)
              else FirstNamed(others, name)
    ensures FirstNamed(own, name).Some? ==>
              exists i :: 0 <= i < |own| && own[i] == FirstNamed(own, name).value && own[i].name == name
                          && forall j :: 0 <= j < i ==> own[j].name != name
  {
    if own == [] {
      assert own + others == others;
    } else {
      assert (own + others)[1..] == own[1..] + others;
      FirstNamedIsFirst(own[1..], others, name);
      if own[0].name != name && FirstNamed(own, name).Some? {
        var i :| 0 <= i < |own[1..]| && own[1..][i] == FirstNamed(own, name).value && own[1..][i].name == name
                 && forall j :: 0 <= j < i ==> own[1..][j].name != name;
        assert own[i + 1] == own[1..][i];
        assert forall j :: 0 < j < i + 1 ==> own[j] == own[1..][j - 1];
      }
    }
  }

  // ----- Finishing a node whose operands have been passed -----

  /** The new content of a slot, whether it was resolved now, and the diagnostics. */
  datatype Finish = Finish(typ: Type, updated: bool, errors: seq<Diagnostic>)

  function FinishNot(t: Type, arg: Type): Finish {
    if Complete(t) then Finish(t, false, [])
    else if arg == BOOLEAN then Finish(BOOLEAN, true, [])
    else Finish(Error, false, if Complete(arg) then [NegateNonBoolean] else [])
  }

  function FinishLogical(t: Type, l: Type, r: Type): Finish {
    if Complete(t) then Finish(t, false, [])
    else if l == BOOLEAN && r == BOOLEAN then Finish(BOOLEAN, true, [])
    else Finish(Error, false, if Complete(l) || Complete(r) then [NonBooleanOperand] else [])
  }

  function FinishRelational(t: Type, op: RelationalOperator, l: Type, r: Type): Finish {
    if Complete(t) then Finish(t, false, [])
    else if Complete(l) && Complete(r) && OperandsMatch(op, l, r) then Finish(BOOLEAN, true, [])
    else Finish(Error, false, if Complete(l) && Complete(r) then [MismatchedTypes] else [])
  }

  /** `process_composite_type_selection` for a plain field.  A missing fragment is reported, but
      does not stop the search. */
  function FinishField(c: nat, name: string, env: Arena): Finish {
    var missing := FragmentErrors(c, env);
    match FindField(c, name, env)
    case None => Finish(Error, false, missing + [NoSuchField(name)])
    case Some(f) =>
      var t := ToType(f.typ, env);
      if Complete(t) then Finish(t, true, missing) else Finish(Error, false, missing)
  }

  /** What a selection's prefix lets one select from. */
  datatype Target =
    | OnComposite(id: nat)
    | OnOptional(of: Type)
    | OnSet(of: Type)
    | OnArray(of: Type)
    | OnNothing

  function TargetOf(prefix: Type): Target {
    match prefix
    case OptionalType(u) => if u.Composite? then OnComposite(u.id) else OnOptional(u)
    case Composite(i) => OnComposite(i)
    case SetType(u) => OnSet(u)
    case ArrayType(u) => OnArray(u)
    case _ => OnNothing
  }

  /** Whether the element is passed itself (and lends the selection its type). */
  predicate PassesElement(target: Target, el: Element) {
    match target
    case OnOptional(_) => true
    case OnSet(_) => !el.Identifier?
    case OnArray(_) => el.NormalCall?
    case _ => false
  }

  // ----- Expressions -----

  function PassExpr(e: Expr, env: Arena, sc: Scope): Outcome<Expr>
    decreases e, 0
  {
    match e
    case Lit(_) => Outcome(e, false, [])
    case Select(s) =>
      var r := PassSelection(s, env, sc);
      Outcome(Select(r.node), r.changed, r.errors)
    case Not(a, t) =>
      var ra := PassExpr(a, env, sc);
      var fin := FinishNot(t, Deref(TypeOf(ra.node), env));
      Outcome(Not(ra.node, fin.typ), ra.changed || fin.updated, ra.errors + fin.errors)
    case Logical(op, l, r, t) =>
      var rl := PassExpr(l, env, sc);
      // `||` in the source: the right operand waits until the left one is stable
      var rr := if rl.changed then Outcome(r, true, []) else PassExpr(r, env, sc);
      var fin := FinishLogical(t, Deref(TypeOf(rl.node), env), Deref(TypeOf(rr.node), env));
      Outcome(Logical(op, rl.node, rr.node, fin.typ), rr.changed || fin.updated, rl.errors + rr.errors + fin.errors)
    case Relational(op, l, r, t) =>
      var rl := PassExpr(l, env, sc);
      var rr := if rl.changed then Outcome(r, true, []) else PassExpr(r, env, sc);
      var fin := FinishRelational(t, op, Deref(TypeOf(rl.node), env), Deref(TypeOf(rr.node), env));
      Outcome(Relational(op, rl.node, rr.node, fin.typ), rr.changed || fin.updated, rl.errors + rr.errors + fin.errors)
  }

  function PassSelection(s: Selection, env: Arena, sc: Scope): Outcome<Selection>
    decreases s, 0
  {
    match s
    case Single(el, _) =>
      var re := PassElement(el, env, sc, None);
      if el.Identifier? then Outcome(Single(re.node, re.node.typ), re.changed, re.errors)
      else Outcome(Single(re.node, Error), re.changed, re.errors + [TopLevelCall(el.name)])
    case Path(p, el, t) =>
      var rp := PassSelection(p, env, sc);
      if Complete(t) then Outcome(Path(rp.node, el, t), rp.changed, rp.errors)
      else
        var target := TargetOf(Deref(rp.node.typ, env));
        if PassesElement(target, el) then
          var re := PassElement(el, env, sc, Some(target.of));
          Outcome(Path(rp.node, re.node, re.node.typ), rp.changed || re.changed, rp.errors + re.errors)
        else if target.OnComposite? && el.Identifier? then
          var fin := FinishField(target.id, el.name, env);
          Outcome(Path(rp.node, el, fin.typ), rp.changed || fin.updated, rp.errors + fin.errors)
        else if target.OnSet? then
          // an early `return false`, whatever the prefix reported
          Outcome(Path(rp.node, el, Error), false, rp.errors + [FieldOnSet(el.name)])
        else Reject(rp, el, t, target)
  }

  /** The remaining failures of a selection.  A call on a composite marks the call, not the
      selection, as erroneous. */
  function Reject(rp: Outcome<Selection>, el: Element, t: Type, target: Target): Outcome<Selection> {
    if target.OnComposite? && el.NormalCall? then
      Outcome(Path(rp.node, NormalCall(el.name, el.params, Error), t), rp.changed,
              rp.errors + [CallOnComposite(el.name)])
    else
      var errors :=
        if target.OnComposite? then [CallOnComposite(el.name)]
        else if target.OnArray? then [OnlyContainsOnArray]
        else if IsError(rp.node.typ) then []
        else [NonComposite(el.name)];
      Outcome(Path(rp.node, el, Error), rp.changed, rp.errors + errors)
  }

  function PassElement(el: Element, env: Arena, sc: Scope, elemType: Option<Type>): Outcome<Element>
    decreases el, 0
  {
    match el
    case Identifier(n, t) =>
      if Complete(t) then Outcome(el, false, [])
      else (
        match ResolveIdentifier(n, env, sc)
        case Resolved(found) => Outcome(Identifier(n, found), true, [])
        case Unresolved(why) => Outcome(Identifier(n, Error), false, [why]))
    case HofCall(n, param, body, _) => (
      match BodyScope(param, elemType, env, sc)
      case None => Outcome(el, false, []) // the source panics; see ElementMadeReady
      case Some(inner) =>
        var rb := PassExpr(body, env, inner);
        Outcome(HofCall(n, param, rb.node, TypeOf(rb.node)), rb.changed, rb.errors))
    case NormalCall(n, params, t) =>
      var rps := PassAll(params, env, sc);
      if n != "contains" then Outcome(NormalCall(n, rps.node, Error), false, rps.errors + [OnlyContains(n)])
      else if params == [] then Outcome(NormalCall(n, [], Error), false, rps.errors + [ContainsWithoutParameter])
      else if |params| == 1 && elemType.Some? then
        if IdenticalMatch(elemType.value, TypeOf(rps.node[0]))
        then Outcome(NormalCall(n, rps.node, BOOLEAN), rps.changed, rps.errors)
        else Outcome(NormalCall(n, rps.node, Error), false, rps.errors + [ParameterMismatch])
      else Outcome(NormalCall(n, rps.node, t), rps.changed, rps.errors)
  }

  /** `iter_mut().all(pass)`: stops at the first parameter that reports no change. */
  function PassAll(es: seq<Expr>, env: Arena, sc: Scope): (r: Outcome<seq<Expr>>)
    ensures |r.node| == |es|
    decreases es, 1
  {
    if es == [] then Outcome([], true, [])
    else
      var r0 := PassExpr(es[0], env, sc);
      if !r0.changed then Outcome([r0.node] + es[1..], false, r0.errors)
      else
        var rest := PassAll(es[1..], env, sc);
        Outcome([r0.node] + rest.node, rest.changed, r0.errors + rest.errors)
  }

  // ----- Declarations -----

  /** `iter_mut().map(pass).filter(changed).count() > 0`: every item is passed. */
  function PassEach<T>(xs: seq<T>, pass: T -> Outcome<T>): (r: Outcome<seq<T>>)
    ensures |r.node| == |xs|
  {
    if xs == [] then Outcome([], false, [])
    else
      var r0 := pass(xs[0]);
      var rest := PassEach(xs[1..], pass);
      Outcome([r0.node] + rest.node, r0.changed || rest.changed, r0.errors + rest.errors)
  }

  lemma {:induction false} PassEachFacts<T>(xs: seq<T>, pass: T -> Outcome<T>)
    ensures var r := PassEach(xs, pass);
            && (forall i :: 0 <= i < |xs| ==> r.node[i] == pass(xs[i]).node)
            && (r.changed <==> exists i :: 0 <= i < |xs| && pass(xs[i]).changed)
            && (r.errors == [] <==> forall i :: 0 <= i < |xs| ==> pass(xs[i]).errors == [])
  {
    if xs != [] {
      PassEachFacts(xs[1..], pass);
      assert forall i :: 0 < i < |xs| ==> xs[i] == xs[1..][i - 1];
    }
  }

  function PassFieldType(ft: FieldType, ids: map<string, nat>): Outcome<FieldType>
    decreases ft, 0
  {
    match ft
    case OptionalField(u) =>
      var r := PassFieldType(u, ids);
      Outcome(OptionalField(r.node), r.changed, r.errors)
    case Plain(n, params, ok) =>
      var known := ok || Known(n, ids);
      var rps := PassFieldTypes(params, ids);
      Outcome(Plain(n, rps.node, known), (!ok && known) || rps.changed,
              (if known then [] else [UnknownType(n)]) + rps.errors)
  }

  function PassFieldTypes(fts: seq<FieldType>, ids: map<string, nat>): (r: Outcome<seq<FieldType>>)
    ensures |r.node| == |fts|
    decreases fts, 1
  {
    if fts == [] then Outcome([], false, [])
    else
      var r0 := PassFieldType(fts[0], ids);
      var rest := PassFieldTypes(fts[1..], ids);
      Outcome([r0.node] + rest.node, r0.changed || rest.changed, r0.errors + rest.errors)
  }

  function PassAnnotation(a: Annotation, env: Arena, sc: Scope): Outcome<Annotation> {
    var r := PassEach(a.params, (e: Expr) => PassExpr(e, env, sc));
    Outcome(a.(params := r.node), r.changed, (if a.misused then [MisusedAnnotation(a.name)] else []) + r.errors)
  }

  /** Position of the first annotation whose name is not declared. */
  function FirstUndeclared(annotations: seq<Annotation>): (k: nat)
    ensures k <= |annotations|
    ensures forall i :: 0 <= i < k ==> annotations[i].declared
    ensures k < |annotations| ==> !annotations[k].declared
  {
    if annotations == [] || !annotations[0].declared then 0 else 1 + FirstUndeclared(annotations[1..])
  }

  function DuplicateErrors(names: seq<string>): (r: seq<Diagnostic>)
    ensures |r| == |names|
  {
    seq(|names|, i requires 0 <= i < |names| => DuplicateAnnotation(names[i]))
  }

  /** `AnnotationMap::pass`: the first undeclared annotation ends the loop with `false`, leaving
      those after it unvisited and forgetting the changes of those before it. */
  function PassAnnotations(m: AnnotationMap, env: Arena, sc: Scope): Outcome<AnnotationMap> {
    var k := FirstUndeclared(m.annotations);
    var r := PassEach(m.annotations[..k], (a: Annotation) => PassAnnotation(a, env, sc));
    var node := m.(annotations := r.node + m.annotations[k..]);
    var errors := DuplicateErrors(m.duplicates) + r.errors;
    if k < |m.annotations| then Outcome(node, false, errors + [UnknownAnnotation(m.annotations[k].name)])
    else Outcome(node, r.changed, errors)
  }

  function PassDefault(d: Default, name: string, env: Arena, sc: Scope): Outcome<Default> {
    match d
    case NoDefault => Outcome(d, false, [])
    case LiteralDefault(wrong) => Outcome(d, false, if wrong then [BadDefault(name)] else [])
    case SelectionDefault(s) =>
      var r := PassSelection(s, env, sc);
      Outcome(SelectionDefault(r.node), r.changed, r.errors)
  }

  function PassField(f: Field, env: Arena, sc: Scope): Outcome<Field> {
    var rt := PassFieldType(f.typ, env.ids);
    var ra := PassAnnotations(f.annotations, env, sc);
    var rd := PassDefault(f.default, f.name, env, sc);
    Outcome(Field(f.name, rt.node, ra.node, rd.node),
            rt.changed || ra.changed || rd.changed, rt.errors + ra.errors + rd.errors)
  }

  predicate IsModelName(name: string, env: Arena) {
    name in env.ids && env.ids[name] < |env.values| && env.values[env.ids[name]].ModelEntry?
  }

  /** A fragment reference reports nothing when its fragment is missing. */
  function PassFragment(f: Fragment, env: Arena): Outcome<Fragment> {
    if !f.known && IsModelName(f.name, env) then Outcome(f.(known := true), true, [])
    else Outcome(f, false, [])
  }

  function ContextDefaultErrors(kind: ModelKind, fields: seq<Field>): seq<Diagnostic> {
    if fields == [] || !kind.ContextKind? then []
    else (if fields[0].default.NoDefault? then [] else [BadDefault(fields[0].name)])
         + ContextDefaultErrors(kind, fields[1..])
  }

  function PassModel(m: Model, env: Arena): Outcome<Model> {
    var sc := ModelScope(m.name);
    var rf := PassEach(m.fields, (f: Field) => PassField(f, env, sc));
    var rg := PassEach(m.fragments, (f: Fragment) => PassFragment(f, env));
    var ra := PassAnnotations(m.annotations, env, sc);
    Outcome(Model(m.name, m.kind, rf.node, rg.node, ra.node), rf.changed || ra.changed || rg.changed,
            rf.errors + rg.errors + ContextDefaultErrors(m.kind, rf.node) + ra.errors)
  }

  function PassResult(r: Option<FieldType>, ids: map<string, nat>): Outcome<Option<FieldType>> {
    match r
    case None => Outcome(None, false, [])
    case Some(ft) =>
      var rt := PassFieldType(ft, ids);
      Outcome(Some(rt.node), rt.changed, rt.errors)
  }

  predicate HasInterceptorAnnotation(m: AnnotationMap) {
    exists i :: 0 <= i < |m.annotations| && m.annotations[i].name in {"before", "after", "around"}
  }

  function PassCallable(c: Callable, env: Arena): Outcome<Callable> {
    var rs := PassEach(c.args, (f: Field) => PassField(f, env, NO_SCOPE));
    var rr := PassResult(c.result, env.ids);
    var ra := PassAnnotations(c.annotations, env, NO_SCOPE);
    Outcome(Callable(c.name, rs.node, rr.node, ra.node), rs.changed || rr.changed || ra.changed,
            (if c.result.None? && !HasInterceptorAnnotation(c.annotations) then [MissingInterceptorAnnotation(c.name)]
             else [])
            + rs.errors + rr.errors + ra.errors)
  }

  function SubsystemErrors(m: AnnotationMap, name: string): seq<Diagnostic> {
    if |m.annotations| == 0 then [NoSubsystemAnnotation(name)]
    else if |m.annotations| > 1 then [ManySubsystemAnnotations(name)]
    else []
  }

  function PassModule(m: Module, env: Arena): Outcome<Module> {
    var rt := PassEach(m.types, (t: Model) => PassModel(t, env));
    var rm := PassEach(m.methods, (c: Callable) => PassCallable(c, env));
    var ri := PassEach(m.interceptors, (c: Callable) => PassCallable(c, env));
    var ra := PassAnnotations(m.annotations, env, NO_SCOPE);
    Outcome(Module(m.name, rt.node, m.enums, rm.node, ri.node, ra.node),
            rt.changed || rm.changed || ri.changed || ra.changed,
            rt.errors + rm.errors + ri.errors + ra.errors + SubsystemErrors(ra.node, m.name))
  }
}
