/**
 The typing rules of access expressions, as a relation.

 A value type is a type without references: what an entry of the arena denotes, and optionals, sets
 and arrays of such.  The rules read the arena itself; the one-shot typing computes what they relate.
 */
module TypingRules {
  import opened Wrappers
  import opened Ast
  import opened Passes
  import opened OneShot
  import opened EnvironmentLemmas
  import opened ExprSoundness
  import opened QuietForms
  import opened Faults

  /** A type without references and open slots. */
  predicate Value(t: Type) {
    match t
    case Reference(_) => false
    case Defer => false
    case Error => false
    case OptionalType(u) => Value(u)
    case SetType(u) => Value(u)
    case ArrayType(u) => Value(u)
    case _ => true
  }

  // ----- Names -----

  predicate EntryDenotes(i: nat, env: Arena, t: Type) {
    i < |env.values| &&
    match env.values[i]
    case PrimitiveEntry(n) => t == Primitive(n)
    case InjectedEntry(n) => t == Injected(n)
    case EnumEntry(_) => t == Enumeration(i)
    case ModelEntry(_) => t == Composite(i)
  }

  predicate NameDenotes(n: string, env: Arena, t: Type) {
    n in env.ids && EntryDenotes(env.ids[n], env, t)
  }

  /** A field declared with this type has values of that type. */
  predicate FieldTypeDenotes(ft: FieldType, env: Arena, t: Type)
    decreases ft
  {
    match ft
    case OptionalField(u) => t.OptionalType? && FieldTypeDenotes(u, env, t.inner)
    case Plain(n, params, _) =>
      if n == "Set" then t.SetType? && |params| > 0 && FieldTypeDenotes(params[0], env, t.elem)
      else if n == "Array" then t.ArrayType? && |params| > 0 && FieldTypeDenotes(params[0], env, t.elem)
      else NameDenotes(n, env, t)
  }

  predicate IsContextEntry(i: nat, env: Arena) {
    i < |env.values| && env.values[i].ModelEntry? && env.values[i].model.kind == ContextKind
  }

  predicate HasVariant(i: nat, variant: string, env: Arena) {
    i < |env.values| && env.values[i].EnumEntry? && variant in env.values[i].enum.variants
  }

  /** The enum is the first one with that variant. */
  predicate FirstWithVariant(i: nat, variant: string, env: Arena) {
    HasVariant(i, variant, env) && forall k :: 0 <= k < i ==> !HasVariant(k, variant, env)
  }

  /** A name in scope has the type the scope says; `self` is otherwise refused; then come contexts, and then enum
      variants. */
  predicate IdentifierDenotes(name: string, env: Arena, sc: Scope, t: Type) {
    if name in sc then NameDenotes(sc[name], env, t)
    else if name == "self" then false
    else if name in env.ids && IsContextEntry(env.ids[name], env) then t == Composite(env.ids[name])
    else t.Enumeration? && FirstWithVariant(t.id, name, env)
  }

  predicate EntryNamed(i: nat, env: Arena, n: string) {
    i < |env.values| &&
    match env.values[i]
    case PrimitiveEntry(m) => n == m
    case InjectedEntry(m) => n == m
    case EnumEntry(e) => n == e.name
    case ModelEntry(m) => n == m.name
  }

  /** The name of a type, or of what it is an optional, set or array of. */
  predicate InnermostName(t: Type, env: Arena, n: string) {
    match t
    case Primitive(m) => n == m
    case Injected(m) => n == m
    case Composite(i) => EntryNamed(i, env, n)
    case Enumeration(i) => EntryNamed(i, env, n)
    case OptionalType(u) => InnermostName(u, env, n)
    case SetType(u) => InnermostName(u, env, n)
    case ArrayType(u) => InnermostName(u, env, n)
    case _ => false
  }

  // ----- Fields -----

  predicate FirstField(fields: seq<Field>, k: nat, name: string) {
    k < |fields| && fields[k].name == name && forall i :: 0 <= i < k ==> fields[i].name != name
  }

  predicate NoField(fields: seq<Field>, name: string) {
    forall i :: 0 <= i < |fields| ==> fields[i].name != name
  }

  /** The first field of that name. */
  ghost predicate FieldAmong(fields: seq<Field>, name: string, f: Field) {
    exists k: nat :: FirstField(fields, k, name) && f == fields[k]
  }

  predicate IsModelEntry(name: string, env: Arena) {
    name in env.ids && env.ids[name] < |env.values| && env.values[env.ids[name]].ModelEntry?
  }

  ghost predicate FragmentGives(fr: Fragment, name: string, env: Arena, f: Field) {
    IsModelEntry(fr.name, env) && FieldAmong(env.values[env.ids[fr.name]].model.fields, name, f)
  }

  predicate FragmentLacks(fr: Fragment, name: string, env: Arena) {
    IsModelEntry(fr.name, env) ==> NoField(env.values[env.ids[fr.name]].model.fields, name)
  }

  /** A field of the first fragment that has one of that name. */
  ghost predicate FragmentsGive(frs: seq<Fragment>, name: string, env: Arena, f: Field) {
    exists j :: 0 <= j < |frs| && FragmentGives(frs[j], name, env, f) &&
                forall i :: 0 <= i < j ==> FragmentLacks(frs[i], name, env)
  }

  /** A model's own field, or if there is none one of its fragments. */
  ghost predicate HasField(c: nat, name: string, env: Arena, f: Field) {
    c < |env.values| && env.values[c].ModelEntry? &&
    var m := env.values[c].model;
    || FieldAmong(m.fields, name, f)
    || (NoField(m.fields, name) && FragmentsGive(m.fragments, name, env, f))
  }

  ghost predicate FieldDenotes(c: nat, name: string, env: Arena, t: Type) {
    exists f :: HasField(c, name, env, f) && FieldTypeDenotes(f.typ, env, t)
  }

  // ----- Comparisons -----

  const A_BOOLEAN := Primitive("Boolean")

  predicate Numbers(l: Type, r: Type) {
    l in {Primitive("Int"), Primitive("Float")} && r in {Primitive("Int"), Primitive("Float")}
  }

  /** Equal, or numbers; one optional layer of either does not matter. */
  predicate Alike(l: Type, r: Type) {
    match (l, r)
    case (OptionalType(a), OptionalType(b)) => a == b || Numbers(a, b)
    case (OptionalType(a), _) => a == r || Numbers(a, r)
    case (_, OptionalType(b)) => l == b || Numbers(l, b)
    case _ => l == r || Numbers(l, r)
  }

  predicate Comparable(op: RelationalOperator, l: Type, r: Type) {
    match op
    case In => r == SetType(l) || r == ArrayType(l)
    case Eq => Alike(l, r) || (l == NullType && r.OptionalType?) || (l.OptionalType? && r == NullType)
    case Neq => Alike(l, r) || (l == NullType && r.OptionalType?) || (l.OptionalType? && r == NullType)
    case _ => Alike(l, r)
  }

  // ----- Expressions -----

  /** A literal has the type of its form. */
  predicate LiteralDenotes(l: Literal, t: Type) {
    match l
    case StringLiteral => t == Primitive("String")
    case BooleanLiteral => t == Primitive("Boolean")
    case IntLiteral => t == Primitive("Int")
    case FloatLiteral => t == Primitive("Float")
    case NullLiteral => t == NullType
  }

  /** The expression has a value of that type. */
  ghost predicate Typed(e: Expr, env: Arena, sc: Scope, t: Type)
    decreases e, 0
  {
    match e
    case Lit(l) => LiteralDenotes(l, t)
    case Select(s) => SelectionTyped(s, env, sc, t)
    case Not(x, _) => t == A_BOOLEAN && Typed(x, env, sc, A_BOOLEAN)
    case Logical(_, l, r, _) => t == A_BOOLEAN && Typed(l, env, sc, A_BOOLEAN) && Typed(r, env, sc, A_BOOLEAN)
    case Relational(op, l, r, _) =>
      t == A_BOOLEAN && exists a, b :: Typed(l, env, sc, a) && Typed(r, env, sc, b) && Comparable(op, a, b)
  }

  ghost predicate SelectionTyped(s: Selection, env: Arena, sc: Scope, t: Type)
    decreases s, 1
  {
    match s
    case Single(el, _) => el.Identifier? && IdentifierDenotes(el.name, env, sc, t)
    case Path(_, _, _) => exists u :: Value(u) && PathTyped(s, u, env, sc, t)
  }

  /** The prefix has a value of type `u`. */
  ghost predicate PathTyped(s: Selection, u: Type, env: Arena, sc: Scope, t: Type)
    requires s.Path?
    decreases s, 0
  {
    SelectionTyped(s.prefix, env, sc, u) && ElementTyped(s.elem, u, env, sc, t)
  }

  /** What selecting an element from a value of type `u` yields.  A name selected from an optional of something
      that is no composite is looked up like any identifier. */
  ghost predicate ElementTyped(el: Element, u: Type, env: Arena, sc: Scope, t: Type)
    decreases el, 1
  {
    match el
    case Identifier(n, _) =>
      if u.Composite? then FieldDenotes(u.id, n, env, t)
      else if u.OptionalType? && u.inner.Composite? then FieldDenotes(u.inner.id, n, env, t)
      else u.OptionalType? && IdentifierDenotes(n, env, sc, t)
    case HofCall(_, _, _, _) => exists n :: BodyTyped(el, u, n, env, sc, t)
    case NormalCall(n, params, _) =>
      && n == "contains" && |params| == 1 && t == A_BOOLEAN
      && exists a :: Typed(params[0], env, sc, a) && Contained(u, a)
  }

  /** The parameter of the call ranges over elements whose type bears the name. */
  ghost predicate BodyTyped(el: Element, u: Type, n: string, env: Arena, sc: Scope, t: Type)
    requires el.HofCall?
    decreases el, 0
  {
    (SetOf(u, n, env) || OptionalOf(u, n, env)) && Typed(el.body, env, sc[el.param := n], t)
  }

  predicate SetOf(u: Type, n: string, env: Arena) {
    u.SetType? && InnermostName(u.elem, env, n)
  }

  predicate OptionalOf(u: Type, n: string, env: Arena) {
    u.OptionalType? && !u.inner.Composite? && InnermostName(u.inner, env, n)
  }

  /** The parameter of `contains` is like the elements. */
  predicate Contained(u: Type, a: Type) {
    match u
    case SetType(v) => Alike(v, a)
    case ArrayType(v) => Alike(v, a)
    case OptionalType(v) => !v.Composite? && Alike(v, a)
    case _ => false
  }

  ghost predicate HasType(e: Expr, env: Arena, sc: Scope) {
    exists t :: Value(t) && Typed(e, env, sc, t)
  }

  // ----- What the names of the implementation mean -----

  lemma {:induction false} FirstEnumIs(variant: string, env: Arena, from: nat)
    requires from <= |env.values| && forall k :: 0 <= k < from ==> !HasVariant(k, variant, env)
    ensures var r := FirstEnumWith(variant, env.values, from);
            && (r.Some? ==> FirstWithVariant(r.value, variant, env))
            && (r.None? ==> forall k: nat :: !HasVariant(k, variant, env))
    decreases |env.values| - from
  {
    if from < |env.values| && !HasVariant(from, variant, env) { FirstEnumIs(variant, env, from + 1); }
  }

  /** An identifier resolves to what it denotes, and to nothing if it denotes nothing. */
  lemma IdentifierMeans(name: string, env: Arena, sc: Scope, t: Type)
    requires env.Valid() && ScopeOk(sc, env)
    ensures IdentifierDenotes(name, env, sc, t) <==>
            Complete(TypeOfIdentifier(name, env, sc)) && t == Deref(TypeOfIdentifier(name, env, sc), env)
  {
    FirstEnumIs(name, env, 0);
  }

  /** A name in scope is a reference to its type; `self` is otherwise refused; a context is a reference to it; and any
      other name is the first enum with that variant, or nothing. */
  lemma IdentifierIs(name: string, env: Arena, sc: Scope)
    requires env.Valid() && ScopeOk(sc, env)
    ensures var t := TypeOfIdentifier(name, env, sc);
            if name in sc then t == Reference(env.ids[sc[name]])
            else if name == "self" then Incomplete(t)
            else if name in env.ids && env.values[env.ids[name]].ModelEntry? &&
                    env.values[env.ids[name]].model.kind == ContextKind
            then t == Reference(env.ids[name])
            else
              && (forall i: nat :: t == Enumeration(i) <==>
                    && i < |env.values| && env.values[i].EnumEntry? && name in env.values[i].enum.variants
                    && forall k :: 0 <= k < i && env.values[k].EnumEntry? ==> name !in env.values[k].enum.variants)
              && (Incomplete(t) <==>
                  forall k :: 0 <= k < |env.values| && env.values[k].EnumEntry? ==>
                    name !in env.values[k].enum.variants)
  {
    FirstEnumIs(name, env, 0);
    forall k | 0 <= k < |env.values| && env.values[k].EnumEntry?
      ensures HasVariant(k, name, env) <==> name in env.values[k].enum.variants
    {
    }
  }

  lemma {:induction false} DeclaredMeans(ft: FieldType, env: Arena, t: Type)
    requires env.Valid()
    ensures FieldTypeDenotes(ft, env, t) <==> Complete(Declared(ft, env)) && t == Deref(Declared(ft, env), env)
  {
    match ft
    case OptionalField(u) => if t.OptionalType? { DeclaredMeans(u, env, t.inner); }
    case Plain(n, params, _) =>
      if |params| > 0 {
        if t.SetType? || t.ArrayType? { DeclaredMeans(params[0], env, t.elem); }
      }
  }

  lemma {:induction false} InnermostMeans(t: Type, env: Arena, n: string)
    requires t == Deref(t, env)
    ensures InnermostName(t, env, n) <==> UnderlyingName(t, env) == Some(n)
  {
    match t
    case OptionalType(u) => InnermostMeans(u, env, n);
    case SetType(u) => InnermostMeans(u, env, n);
    case ArrayType(u) => InnermostMeans(u, env, n);
    case _ =>
  }

  lemma {:induction false} DerefTwice(t: Type, env: Arena)
    ensures Deref(Deref(t, env), env) == Deref(t, env)
  {
    match t
    case OptionalType(u) => DerefTwice(u, env);
    case SetType(u) => DerefTwice(u, env);
    case ArrayType(u) => DerefTwice(u, env);
    case _ =>
  }

  lemma {:induction false} FirstNamedMeans(fields: seq<Field>, name: string, f: Field)
    ensures FieldAmong(fields, name, f) <==> FirstNamed(fields, name) == Some(f)
    ensures NoField(fields, name) <==> FirstNamed(fields, name) == None
  {
    if fields != [] {
      var rest := fields[1..];
      assert fields == [fields[0]] + rest;
      FirstNamedMeans(rest, name, f);
      if fields[0].name == name {
        assert FirstField(fields, 0, name);
      } else {
        forall k: nat ensures FirstField(rest, k, name) <==> FirstField(fields, k + 1, name) {
          FirstLater(fields, k, name);
        }
        if FieldAmong(rest, name, f) {
          var k: nat :| FirstField(rest, k, name) && f == rest[k];
          assert FirstField(fields, k + 1, name) && f == fields[k + 1];
        }
        if FieldAmong(fields, name, f) {
          var k: nat :| FirstField(fields, k, name) && f == fields[k];
          assert FirstField(rest, k - 1, name) && f == rest[k - 1];
        }
      }
    }
  }

  lemma FirstLater(fields: seq<Field>, k: nat, name: string)
    requires fields != [] && fields[0].name != name
    ensures FirstField(fields[1..], k, name) <==> FirstField(fields, k + 1, name)
  {
    if FirstField(fields[1..], k, name) {
      forall i | 0 <= i < k + 1 ensures fields[i].name != name { if i > 0 { assert fields[i] == fields[1..][i - 1]; } }
    }
    if FirstField(fields, k + 1, name) {
      forall i | 0 <= i < k ensures fields[1..][i].name != name { assert fields[1..][i] == fields[i + 1]; }
    }
  }

  lemma {:induction false} FragmentsMean(frs: seq<Fragment>, name: string, env: Arena, f: Field)
    ensures FragmentsGive(frs, name, env, f) <==> FirstNamed(FragmentFields(frs, env), name) == Some(f)
  {
    if frs != [] {
      var own := EntryFields(frs[0].name, env);
      FragmentsMean(frs[1..], name, env, f);
      FirstNamedIsFirst(own, FragmentFields(frs[1..], env), name);
      FirstNamedMeans(own, name, f);
      FragmentsStep(frs, name, env, f);
    }
  }

  /** The first fragment gives the field, or lacks it and the others give it. */
  lemma {:induction false} FragmentsStep(frs: seq<Fragment>, name: string, env: Arena, f: Field)
    requires frs != []
    ensures FragmentsGive(frs, name, env, f) <==>
            FragmentGives(frs[0], name, env, f) ||
            (FragmentLacks(frs[0], name, env) && FragmentsGive(frs[1..], name, env, f))
  {
    if FragmentsGive(frs, name, env, f) {
      var j :| 0 <= j < |frs| && FragmentGives(frs[j], name, env, f) &&
               forall i :: 0 <= i < j ==> FragmentLacks(frs[i], name, env);
      if j > 0 {
        assert frs[1..][j - 1] == frs[j];
        assert forall i :: 0 <= i < j - 1 ==> frs[1..][i] == frs[i + 1];
      }
    }
    if FragmentLacks(frs[0], name, env) && FragmentsGive(frs[1..], name, env, f) {
      var j :| 0 <= j < |frs[1..]| && FragmentGives(frs[1..][j], name, env, f) &&
               forall i :: 0 <= i < j ==> FragmentLacks(frs[1..][i], name, env);
      forall i | 0 <= i < j + 1 ensures FragmentLacks(frs[i], name, env) {
        if i > 0 { assert frs[i] == frs[1..][i - 1]; }
      }
      assert FragmentGives(frs[j + 1], name, env, f);
    }
  }

  lemma HasFieldMeans(c: nat, name: string, env: Arena, f: Field)
    ensures HasField(c, name, env, f) <==> FindField(c, name, env) == Some(f)
  {
    if c < |env.values| && env.values[c].ModelEntry? {
      var m := env.values[c].model;
      FirstNamedIsFirst(m.fields, FragmentFields(m.fragments, env), name);
      FirstNamedMeans(m.fields, name, f);
      FragmentsMean(m.fragments, name, env, f);
    }
  }

  lemma FieldMeans(c: nat, name: string, env: Arena, t: Type)
    requires env.Valid()
    ensures FieldDenotes(c, name, env, t) <==>
            Complete(TypeOfField(c, name, env)) && t == Deref(TypeOfField(c, name, env), env)
  {
    if FieldDenotes(c, name, env, t) {
      var f :| HasField(c, name, env, f) && FieldTypeDenotes(f.typ, env, t);
      HasFieldMeans(c, name, env, f);
      DeclaredMeans(f.typ, env, t);
    }
    if FindField(c, name, env).Some? {
      var f := FindField(c, name, env).value;
      HasFieldMeans(c, name, env, f);
      DeclaredMeans(f.typ, env, t);
    }
  }

  lemma AlikeMeans(l: Type, r: Type)
    ensures Alike(l, r) <==> IdenticalMatch(l, r)
  {
  }

  lemma ComparableMeans(op: RelationalOperator, l: Type, r: Type)
    ensures Comparable(op, l, r) <==> OperandsMatch(op, l, r)
  {
    AlikeMeans(l, r);
  }

  // ----- The one-shot typing is what the rules say -----

  /** The value type of an expression, by the one-shot typing. */
  predicate Inferred(e: Expr, env: Arena, sc: Scope, t: Type) {
    Complete(Infer(e, env, sc)) && t == Deref(Infer(e, env, sc), env)
  }

  predicate SelectionInferred(s: Selection, env: Arena, sc: Scope, t: Type) {
    Complete(InferSelection(s, env, sc)) && t == Deref(InferSelection(s, env, sc), env)
  }

  lemma {:induction false} InferredComplete(e: Expr, env: Arena, sc: Scope, t: Type)
    requires env.Valid() && Inferred(e, env, sc, t)
    ensures Complete(t)
  {
    InferRooted(e, env, sc);
    RootedComplete(Infer(e, env, sc), env);
  }

  lemma {:induction false} DerefValue(t: Type, env: Arena)
    requires Complete(Deref(t, env))
    ensures Value(Deref(t, env))
  {
    match t
    case OptionalType(u) => DerefValue(u, env);
    case SetType(u) => DerefValue(u, env);
    case ArrayType(u) => DerefValue(u, env);
    case _ =>
  }

  /** An expression has a type by the rules exactly if the one-shot typing finds one, and it is that one. */
  lemma {:induction false} TypedExactly(e: Expr, env: Arena, sc: Scope, t: Type)
    requires env.Valid() && ScopeOk(sc, env) && Parsed(e)
    ensures Typed(e, env, sc, t) <==> Inferred(e, env, sc, t)
    decreases e, 2
  {
    match e
    case Lit(_) =>
    case Select(s) => SelectionTypedExactly(s, env, sc, t);
    case Not(x, _) => BooleanOperand(x, env, sc);
    case Logical(_, l, r, _) => BooleanOperand(l, env, sc); BooleanOperand(r, env, sc);
    case Relational(op, l, r, _) => if t == A_BOOLEAN { ComparedExactly(e, env, sc); }
  }

  lemma {:induction false} BooleanOperand(x: Expr, env: Arena, sc: Scope)
    requires env.Valid() && ScopeOk(sc, env) && Parsed(x)
    ensures Typed(x, env, sc, A_BOOLEAN) <==> Deref(Infer(x, env, sc), env) == BOOLEAN
    decreases x, 3
  {
    TypedExactly(x, env, sc, A_BOOLEAN);
    DerefComplete(Infer(x, env, sc), env);
  }

  lemma {:induction false} ComparedExactly(e: Expr, env: Arena, sc: Scope)
    requires env.Valid() && ScopeOk(sc, env) && Parsed(e) && e.Relational?
    ensures Typed(e, env, sc, A_BOOLEAN) <==> Infer(e, env, sc) == BOOLEAN
    decreases e, 1
  {
    var a, b := Deref(Infer(e.left, env, sc), env), Deref(Infer(e.right, env, sc), env);
    TypedExactly(e.left, env, sc, a);
    TypedExactly(e.right, env, sc, b);
    ComparableMeans(e.rop, a, b);
    DerefComplete(Infer(e.left, env, sc), env);
    DerefComplete(Infer(e.right, env, sc), env);
    if Typed(e, env, sc, A_BOOLEAN) {
      var l, r :| Typed(e.left, env, sc, l) && Typed(e.right, env, sc, r) && Comparable(e.rop, l, r);
      TypedExactly(e.left, env, sc, l);
      TypedExactly(e.right, env, sc, r);
      InferredComplete(e.left, env, sc, l);
      InferredComplete(e.right, env, sc, r);
    }
  }

  lemma {:induction false} SelectionTypedExactly(s: Selection, env: Arena, sc: Scope, t: Type)
    requires env.Valid() && ScopeOk(sc, env) && SelectionParsed(s)
    ensures SelectionTyped(s, env, sc, t) <==> SelectionInferred(s, env, sc, t)
    decreases s, 2
  {
    match s
    case Single(el, _) => IdentifierMeans(el.name, env, sc, t);
    case Path(p, el, _) =>
      var v := Deref(InferSelection(p, env, sc), env);
      SelectionTypedExactly(p, env, sc, v);
      SelectionInferredOrError(p, env, sc);
      if SelectionInferred(p, env, sc, v) { ElementTypedExactly(s, env, sc, t); }
      if SelectionInferred(p, env, sc, v) {
        InferSelectionRooted(p, env, sc);
        RootedComplete(InferSelection(p, env, sc), env);
        DerefValue(InferSelection(p, env, sc), env);
      }
      PrefixTyped(s, v, env, sc, t);
  }

  lemma {:induction false} PrefixTyped(s: Selection, v: Type, env: Arena, sc: Scope, t: Type)
    requires env.Valid() && ScopeOk(sc, env) && SelectionParsed(s) && s.Path?
    requires v == Deref(InferSelection(s.prefix, env, sc), env)
    requires SelectionInferred(s.prefix, env, sc, v) ==> Value(v)
    ensures SelectionTyped(s, env, sc, t) <==>
            SelectionInferred(s.prefix, env, sc, v) && ElementTyped(s.elem, v, env, sc, t)
    decreases s, 1
  {
    SelectionTypedExactly(s.prefix, env, sc, v);
    if SelectionInferred(s.prefix, env, sc, v) && ElementTyped(s.elem, v, env, sc, t) {
      assert PathTyped(s, v, env, sc, t);
    }
    if SelectionTyped(s, env, sc, t) {
      var u :| Value(u) && PathTyped(s, u, env, sc, t);
      SelectionTypedExactly(s.prefix, env, sc, u);
    }
  }

  lemma {:induction false} ElementTypedExactly(s: Selection, env: Arena, sc: Scope, t: Type)
    requires env.Valid() && ScopeOk(sc, env) && s.Path? && SelectionParsed(s) &&
             Complete(InferSelection(s.prefix, env, sc))
    ensures ElementTyped(s.elem, Deref(InferSelection(s.prefix, env, sc), env), env, sc, t) <==>
            SelectionInferred(s, env, sc, t)
    decreases s, 1
  {
    match s.elem
    case Identifier(_, _) => NameTypedExactly(s, env, sc, t);
    case HofCall(_, _, _, _) => BodyTypedExactly(s, env, sc, t);
    case NormalCall(_, _, _) => CallTypedExactly(s, env, sc, t);
  }

  lemma {:induction false} NameTypedExactly(s: Selection, env: Arena, sc: Scope, t: Type)
    requires env.Valid() && ScopeOk(sc, env) && s.Path? && s.elem.Identifier?
    ensures ElementTyped(s.elem, Deref(InferSelection(s.prefix, env, sc), env), env, sc, t) <==>
            SelectionInferred(s, env, sc, t)
  {
    var u := Deref(InferSelection(s.prefix, env, sc), env);
    NameTyped(s.elem, u, env, sc, t);
    InferPath(s, env, sc);
    IdentifierMeans(s.elem.name, env, sc, t);
    if TargetOf(u).OnComposite? {
      FieldMeans(TargetOf(u).id, s.elem.name, env, t);
      FieldInferred(s, env, sc, t);
    }
  }

  lemma NameTyped(el: Element, u: Type, env: Arena, sc: Scope, t: Type)
    requires el.Identifier?
    ensures ElementTyped(el, u, env, sc, t) <==>
            match TargetOf(u)
            case OnComposite(c) => FieldDenotes(c, el.name, env, t)
            case OnOptional(_) => IdentifierDenotes(el.name, env, sc, t)
            case _ => false
  {
  }

  lemma FieldInferred(s: Selection, env: Arena, sc: Scope, t: Type)
    requires s.Path? && s.elem.Identifier? && Target0(s.prefix, env, sc).OnComposite?
    ensures var f := TypeOfField(Target0(s.prefix, env, sc).id, s.elem.name, env);
            SelectionInferred(s, env, sc, t) <==> Complete(f) && t == Deref(f, env)
  {
  }

  lemma {:induction false} CallTypedExactly(s: Selection, env: Arena, sc: Scope, t: Type)
    requires env.Valid() && s.Path? && SelectionParsed(s) && s.elem.NormalCall?
    ensures ElementTyped(s.elem, Deref(InferSelection(s.prefix, env, sc), env), env, sc, t) <==>
            SelectionInferred(s, env, sc, t)
  {
    var u := Deref(InferSelection(s.prefix, env, sc), env);
    InferPath(s, env, sc);
    CallTyped(s.elem, env, sc, u, t);
  }

  lemma {:induction false} CallTyped(el: Element, env: Arena, sc: Scope, u: Type, t: Type)
    requires el.NormalCall? && ElementParsed(el)
    ensures ElementTyped(el, u, env, sc, t) <==>
            && PassesElement(TargetOf(u), el) && t == BOOLEAN && InferElement(el, env, sc, TargetOf(u).of) == BOOLEAN
  {
    if |el.params| == 1 {
      var a := Infer(el.params[0], env, sc);
      LiteralTyped(el.params[0], env, sc);
      ContainedMeans(u, a, el);
    }
  }

  lemma ContainedMeans(u: Type, a: Type, el: Element)
    requires el.NormalCall?
    ensures Contained(u, a) <==> PassesElement(TargetOf(u), el) && IdenticalMatch(TargetOf(u).of, a)
  {
    if u.SetType? || u.ArrayType? { AlikeMeans(u.elem, a); }
    if u.OptionalType? { AlikeMeans(u.inner, a); }
  }

  lemma LiteralTyped(p: Expr, env: Arena, sc: Scope)
    requires p.Lit?
    ensures forall a :: Typed(p, env, sc, a) <==> a == Infer(p, env, sc)
  {
  }

  lemma {:induction false} BodyTypedExactly(s: Selection, env: Arena, sc: Scope, t: Type)
    requires env.Valid() && ScopeOk(sc, env) && s.Path? && SelectionParsed(s) && s.elem.HofCall?
    requires Complete(InferSelection(s.prefix, env, sc))
    ensures ElementTyped(s.elem, Deref(InferSelection(s.prefix, env, sc), env), env, sc, t) <==>
            SelectionInferred(s, env, sc, t)
    decreases s, 0
  {
    var u := Deref(InferSelection(s.prefix, env, sc), env);
    var target := TargetOf(u);
    InferPath(s, env, sc);
    if PassesElement(target, s.elem) {
      DerefTwice(InferSelection(s.prefix, env, sc), env);
      TargetHasName(s.prefix, env, sc);
      BodyScopeOk(s.elem.param, target.of, env, sc);
      var n := UnderlyingName(target.of, env).value;
      TypedExactly(s.elem.body, env, sc[s.elem.param := n], t);
      OnlyName(s.elem, u, n, env, sc, t);
    }
  }

  lemma OnlyName(el: Element, u: Type, n: string, env: Arena, sc: Scope, t: Type)
    requires el.HofCall? && PassesElement(TargetOf(u), el) && Deref(u, env) == u
    requires UnderlyingName(TargetOf(u).of, env) == Some(n)
    ensures ElementTyped(el, u, env, sc, t) <==> Typed(el.body, env, sc[el.param := n], t)
  {
    forall m ensures InnermostName(TargetOf(u).of, env, m) <==> m == n { InnermostMeans(TargetOf(u).of, env, m); }
    assert BodyTyped(el, u, n, env, sc, t) <==> Typed(el.body, env, sc[el.param := n], t);
  }

  // ----- Literals -----

  /** Which literals a value of a primitive type can be compared with. */
  predicate LiteralFits(n: string, l: Literal) {
    match l
    case StringLiteral => n == "String"
    case BooleanLiteral => n == "Boolean"
    case IntLiteral => n == "Int" || n == "Float"
    case FloatLiteral => n == "Int" || n == "Float"
    case NullLiteral => false
  }

  lemma LiteralComparable(n: string, l: Literal, t: Type)
    requires LiteralDenotes(l, t)
    ensures Comparable(Eq, Primitive(n), t) <==> LiteralFits(n, l)
  {
  }

  /** A comparison of such a value with a literal has a type exactly if the literal fits. */
  lemma LiteralCompared(x: Expr, n: string, l: Literal, env: Arena, sc: Scope)
    requires env.Valid() && ScopeOk(sc, env) && Parsed(x) && Typed(x, env, sc, Primitive(n))
    ensures Complete(Infer(Relational(Eq, x, Lit(l), Defer), env, sc)) <==> LiteralFits(n, l)
  {
    TypedExactly(x, env, sc, Primitive(n));
    TypedExactly(Lit(l), env, sc, LiteralType(l));
    ComparableMeans(Eq, Primitive(n), LiteralType(l));
    LiteralComparable(n, l, LiteralType(l));
  }
}
