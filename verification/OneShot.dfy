/**
 The reference semantics: a one-shot recursive typing function that ignores every slot
 and flag, and the invariant that ties the slots of a partly typed node to it.
 */
module OneShot {
  import opened Wrappers
  import opened Ast
  import opened Passes

  // ----- The one-shot typing function -----

  /** The type a field's declaration denotes, read off its names alone. */
  function Declared(ft: FieldType, env: Arena): Type {
    match ft
    case OptionalField(u) => OptionalType(Declared(u, env))
    case Plain(n, params, _) =>
      if n == "Set" then (if |params| > 0 then SetType(Declared(params[0], env)) else Error)
      else if n == "Array" then (if |params| > 0 then ArrayType(Declared(params[0], env)) else Error)
      else if n in env.ids then Reference(env.ids[n])
      else Error
  }

  function TypeOfIdentifier(name: string, env: Arena, sc: Scope): Type {
    match ResolveIdentifier(name, env, sc)
    case Resolved(t) => t
    case Unresolved(_) => Error
  }

  function TypeOfField(c: nat, name: string, env: Arena): Type {
    match FindField(c, name, env)
    case None => Error
    case Some(f) => Declared(f.typ, env)
  }

  function Infer(e: Expr, env: Arena, sc: Scope): Type
    decreases e, 0
  {
    match e
    case Lit(l) => LiteralType(l)
    case Select(s) => InferSelection(s, env, sc)
    case Not(a, _) => if Deref(Infer(a, env, sc), env) == BOOLEAN then BOOLEAN else Error
    case Logical(_, l, r, _) =>
      if Deref(Infer(l, env, sc), env) == BOOLEAN && Deref(Infer(r, env, sc), env) == BOOLEAN then BOOLEAN else Error
    case Relational(op, l, r, _) =>
      var lt, rt := Deref(Infer(l, env, sc), env), Deref(Infer(r, env, sc), env);
      if Complete(lt) && Complete(rt) && OperandsMatch(op, lt, rt) then BOOLEAN else Error
  }

  function InferSelection(s: Selection, env: Arena, sc: Scope): Type
    decreases s, 0
  {
    match s
    case Single(el, _) => if el.Identifier? then TypeOfIdentifier(el.name, env, sc) else Error
    case Path(p, el, _) =>
      var target := TargetOf(Deref(InferSelection(p, env, sc), env));
      if PassesElement(target, el) then InferElement(el, env, sc, target.of)
      else if target.OnComposite? && el.Identifier? then
        var t := TypeOfField(target.id, el.name, env);
        if Complete(t) then t else Error
      else Error
  }

  function InferElement(el: Element, env: Arena, sc: Scope, of: Type): Type
    decreases el, 0
  {
    match el
    case Identifier(n, _) => TypeOfIdentifier(n, env, sc)
    case HofCall(_, param, body, _) => (
      match BodyScope(param, Some(of), env, sc)
      case None => Error
      case Some(inner) => Infer(body, env, inner))
    case NormalCall(n, params, _) =>
      if n == "contains" && |params| == 1 && IdenticalMatch(of, Infer(params[0], env, sc)) then BOOLEAN else Error
  }

  // ----- Every node complete -----

  predicate AllComplete(e: Expr)
    decreases e, 0
  {
    match e
    case Lit(_) => true
    case Select(s) => SelectionComplete(s)
    case Not(a, t) => Complete(t) && AllComplete(a)
    case Logical(_, l, r, t) => Complete(t) && AllComplete(l) && AllComplete(r)
    case Relational(_, l, r, t) => Complete(t) && AllComplete(l) && AllComplete(r)
  }

  predicate SelectionComplete(s: Selection)
    decreases s, 0
  {
    Complete(s.typ) &&
    match s
    case Single(_, _) => true
    case Path(p, el, _) => SelectionComplete(p) && (el.HofCall? ==> AllComplete(el.body))
  }

  /** The one-shot typing succeeds at every node. */
  predicate Typable(e: Expr, env: Arena, sc: Scope)
    decreases e, 0
  {
    match e
    case Lit(_) => true
    case Select(s) => SelectionTypable(s, env, sc)
    case Not(a, t) => Complete(Infer(e, env, sc)) && Typable(a, env, sc)
    case Logical(_, l, r, t) => Complete(Infer(e, env, sc)) && Typable(l, env, sc) && Typable(r, env, sc)
    case Relational(_, l, r, t) => Complete(Infer(e, env, sc)) && Typable(l, env, sc) && Typable(r, env, sc)
  }

  predicate SelectionTypable(s: Selection, env: Arena, sc: Scope)
    decreases s, 0
  {
    Complete(InferSelection(s, env, sc)) &&
    match s
    case Single(_, _) => true
    case Path(p, el, _) =>
      && SelectionTypable(p, env, sc)
      && (el.HofCall? ==>
            var target := TargetOf(Deref(InferSelection(p, env, sc), env));
            PassesElement(target, el) && BodyScope(el.param, Some(target.of), env, sc).Some? &&
            Typable(el.body, env, BodyScope(el.param, Some(target.of), env, sc).value))
  }

  // ----- What the parser guarantees -----

  /** A selection starts with an identifier, and call parameters are literals. */
  predicate Parsed(e: Expr)
    decreases e, 0
  {
    match e
    case Lit(_) => true
    case Select(s) => SelectionParsed(s)
    case Not(a, _) => Parsed(a)
    case Logical(_, l, r, _) => Parsed(l) && Parsed(r)
    case Relational(_, l, r, _) => Parsed(l) && Parsed(r)
  }

  predicate SelectionParsed(s: Selection)
    decreases s, 0
  {
    match s
    case Single(el, _) => el.Identifier?
    case Path(p, el, _) => SelectionParsed(p) && ElementParsed(el)
  }

  predicate ElementParsed(el: Element)
    decreases el, 0
  {
    match el
    case Identifier(_, _) => true
    case HofCall(_, _, body, _) => Parsed(body)
    case NormalCall(_, params, _) => forall i :: 0 <= i < |params| ==> params[i].Lit?
  }

  // ----- The invariant of a partly typed node -----

  predicate ContainsApplies(call: Element, of: Type)
    requires call.NormalCall?
  {
    call.name == "contains" && |call.params| == 1 && IdenticalMatch(of, TypeOf(call.params[0]))
  }

  predicate Fresh(e: Expr) {
    e == ShallowExpr(e)
  }

  predicate Agrees(t: Type, inferred: Type) {
    if Complete(t) then t == inferred else t.Defer? || t.Error?
  }

  /** Every complete slot holds its one-shot type, a complete node has complete operands, and a
      call under a complete prefix has already been tried. */
  predicate Sound(e: Expr, env: Arena, sc: Scope)
    decreases e, 0
  {
    match e
    case Lit(_) => true
    case Select(s) => SelectionSound(s, env, sc)
    case Not(a, t) =>
      Sound(a, env, sc) && Agrees(t, Infer(e, env, sc)) && (Complete(t) ==> Complete(TypeOf(a)))
    case Logical(_, l, r, t) =>
      && Sound(l, env, sc) && Sound(r, env, sc) && Agrees(t, Infer(e, env, sc))
      && (Complete(t) ==> Complete(TypeOf(l)) && Complete(TypeOf(r)))
    case Relational(_, l, r, t) =>
      && Sound(l, env, sc) && Sound(r, env, sc) && Agrees(t, Infer(e, env, sc))
      && (Complete(t) ==> Complete(TypeOf(l)) && Complete(TypeOf(r)))
  }

  predicate SelectionSound(s: Selection, env: Arena, sc: Scope)
    decreases s, 0
  {
    match s
    case Single(el, t) => el.Identifier? && el.typ == t && Agrees(t, TypeOfIdentifier(el.name, env, sc))
    case Path(p, el, t) =>
      && SelectionSound(p, env, sc)
      && Agrees(t, InferSelection(s, env, sc))
      && (Complete(t) ==> Complete(p.typ))
      && ElementSound(el, t, p.typ, env, sc)
  }

  predicate ElementSound(el: Element, t: Type, prefix: Type, env: Arena, sc: Scope)
    decreases el, 0
  {
    var target := TargetOf(Deref(prefix, env));
    var tried := Complete(prefix) && PassesElement(target, el);
    && (tried ==> t == el.typ)
    && match el
       case Identifier(_, u) => tried || u == Defer
       case HofCall(_, param, body, u) =>
         if tried then
           && u == TypeOf(body)
           && BodyScope(param, Some(target.of), env, sc).Some?
           && Sound(body, env, BodyScope(param, Some(target.of), env, sc).value)
         else Fresh(body) && u == Defer && Parsed(body)
       case NormalCall(_, params, u) =>
         && (forall i :: 0 <= i < |params| ==> params[i].Lit?)
         && (tried ==> (Complete(u) <==> ContainsApplies(el, target.of)))
         && (!tried ==> u.Defer? || u.Error?)
  }

  // ----- The invariant of the environment -----

  predicate FlagsSound(ft: FieldType, ids: map<string, nat>)
    decreases ft
  {
    match ft
    case OptionalField(u) => FlagsSound(u, ids)
    case Plain(n, params, ok) =>
      (ok ==> Known(n, ids)) && forall i :: 0 <= i < |params| ==> FlagsSound(params[i], ids)
  }

  /** Every flag says whether its name is known. */
  predicate FlagsSettled(ft: FieldType, ids: map<string, nat>)
    decreases ft
  {
    match ft
    case OptionalField(u) => FlagsSettled(u, ids)
    case Plain(n, params, ok) =>
      (ok <==> Known(n, ids)) && forall i :: 0 <= i < |params| ==> FlagsSettled(params[i], ids)
  }

  predicate FlagsSet(ft: FieldType)
    decreases ft
  {
    match ft
    case OptionalField(u) => FlagsSet(u)
    case Plain(n, params, ok) => ok && forall i :: 0 <= i < |params| ==> FlagsSet(params[i])
  }

  /** `Set` and `Array` come with their parameter. */
  predicate WellFormedType(ft: FieldType)
    decreases ft
  {
    match ft
    case OptionalField(u) => WellFormedType(u)
    case Plain(n, params, ok) =>
      (n == "Set" || n == "Array" ==> |params| > 0) && forall i :: 0 <= i < |params| ==> WellFormedType(params[i])
  }

  /** `f` is a state of the declared field `d`. */
  predicate FieldOf(f: Field, d: Field, ids: map<string, nat>) {
    f.name == d.name && ShallowFieldType(f.typ) == ShallowFieldType(d.typ) && FlagsSound(f.typ, ids)
  }

  predicate FieldsOf(fs: seq<Field>, ds: seq<Field>, ids: map<string, nat>) {
    |fs| == |ds| && forall i :: 0 <= i < |fs| ==> FieldOf(fs[i], ds[i], ids)
  }

  predicate SameNames(fs: seq<Fragment>, ds: seq<Fragment>) {
    |fs| == |ds| && forall i :: 0 <= i < |fs| ==> fs[i].name == ds[i].name
  }

  predicate EntryOf(e: Entry, d: Entry, ids: map<string, nat>) {
    if e.ModelEntry? && d.ModelEntry? then
      && e.model.name == d.model.name && e.model.kind == d.model.kind
      && FieldsOf(e.model.fields, d.model.fields, ids)
      && SameNames(e.model.fragments, d.model.fragments)
    else e == d
  }

  /** `env` is a state of the declared environment `env0`. */
  ghost predicate StateOf(env: Arena, env0: Arena) {
    && env0.Valid()
    && env.ids == env0.ids
    && |env.values| == |env0.values|
    && forall i :: 0 <= i < |env.values| ==> EntryOf(env.values[i], env0.values[i], env0.ids)
  }

  ghost predicate ScopeOk(sc: Scope, env: Arena) {
    forall x :: x in sc ==> sc[x] in env.ids
  }
}
