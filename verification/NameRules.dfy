/** What names stand for in a program: the first declaration in a fixed order of sites. */
module NameRules {
  import opened Wrappers
  import opened Ast
  import opened Passes
  import opened OneShot
  import opened Declarations
  import opened Typechecker
  import opened TypecheckerTheorems
  import opened Acceptance
  import opened Rounds
  import opened Programs
  import opened TypingRules
  import opened ProgramRules

  // ----- Declarations and their order -----

  /** Where a name is declared. */
  datatype Site =
    | BuiltIn(name: string)
    | EnumSite(module_: nat, k: nat)
    | RootSite(k: nat)
    | TypeSite(module_: nat, k: nat)

  /** Built-in names come first, then the enums of the modules, then the types outside modules, then those of the
      modules. */
  predicate Before(a: Site, b: Site) {
    match (a, b)
    case (BuiltIn(_), BuiltIn(_)) => false
    case (BuiltIn(_), _) => true
    case (EnumSite(i, k), EnumSite(j, l)) => i < j || (i == j && k < l)
    case (EnumSite(_, _), BuiltIn(_)) => false
    case (EnumSite(_, _), _) => true
    case (RootSite(k), RootSite(l)) => k < l
    case (RootSite(_), TypeSite(_, _)) => true
    case (TypeSite(i, k), TypeSite(j, l)) => i < j || (i == j && k < l)
    case _ => false
  }

  const PRIMITIVES := {"Boolean", "Int", "Float", "Decimal", "String", "LocalTime", "LocalDateTime", "LocalDate",
                       "Instant", "Json", "Blob", "Uuid", "Vector"}

  const INJECTED := {"Exograph", "ExographPriv", "Operation"}

  predicate Declares(sys: AstSystem, site: Site, e: Entry) {
    match site
    case BuiltIn(n) => (n in PRIMITIVES && e == PrimitiveEntry(n)) || (n in INJECTED && e == InjectedEntry(n))
    case EnumSite(j, k) => j < |sys.modules| && k < |sys.modules[j].enums| && e == EnumEntry(sys.modules[j].enums[k])
    case RootSite(k) => k < |sys.types| && e == ModelEntry(sys.types[k])
    case TypeSite(j, k) => j < |sys.modules| && k < |sys.modules[j].types| && e == ModelEntry(sys.modules[j].types[k])
  }

  predicate Called(e: Entry, n: string) {
    match e
    case PrimitiveEntry(m) => n == m
    case InjectedEntry(m) => n == m
    case EnumEntry(en) => n == en.name
    case ModelEntry(m) => n == m.name
  }

  /** The site declares the name, and no earlier one does. */
  ghost predicate FirstSite(sys: AstSystem, site: Site, e: Entry, n: string) {
    Declares(sys, site, e) && Called(e, n) &&
    forall s, x :: Declares(sys, s, x) && Called(x, n) && s != site ==> Before(site, s)
  }

  // ----- Sites are positions in the list of entries -----

  function EnumStart(ms: seq<Module>, j: nat): nat
    requires j <= |ms|
  {
    |EnumEntries(ms[..j])|
  }

  function TypeStart(ms: seq<Module>, j: nat): nat
    requires j <= |ms|
  {
    |ModuleTypes(ms[..j])|
  }

  lemma {:induction false} EnumPosition(ms: seq<Module>, j: nat, k: nat)
    requires j < |ms| && k < |ms[j].enums|
    ensures EnumStart(ms, j) + k < |EnumEntries(ms)|
    ensures EnumEntries(ms)[EnumStart(ms, j) + k] == EnumEntry(ms[j].enums[k])
  {
    var n := |ms| - 1;
    if j < n {
      EnumPosition(ms[..n], j, k);
      assert ms[..n][..j] == ms[..j];
    }
  }

  lemma {:induction false} TypePosition(ms: seq<Module>, j: nat, k: nat)
    requires j < |ms| && k < |ms[j].types|
    ensures TypeStart(ms, j) + k < |ModuleTypes(ms)|
    ensures ModuleTypes(ms)[TypeStart(ms, j) + k] == ms[j].types[k]
  {
    var n := |ms| - 1;
    if j < n {
      TypePosition(ms[..n], j, k);
      assert ms[..n][..j] == ms[..j];
    }
  }

  lemma {:induction false} EnumAt(ms: seq<Module>, p: nat) returns (j: nat, k: nat)
    requires p < |EnumEntries(ms)|
    ensures j < |ms| && k < |ms[j].enums| && p == EnumStart(ms, j) + k
  {
    var n := |ms| - 1;
    if p < |EnumEntries(ms[..n])| {
      j, k := EnumAt(ms[..n], p);
      assert ms[..n][..j] == ms[..j];
    } else {
      j, k := n, p - |EnumEntries(ms[..n])|;
    }
  }

  lemma {:induction false} TypeAt(ms: seq<Module>, p: nat) returns (j: nat, k: nat)
    requires p < |ModuleTypes(ms)|
    ensures j < |ms| && k < |ms[j].types| && p == TypeStart(ms, j) + k
  {
    var n := |ms| - 1;
    if p < |ModuleTypes(ms[..n])| {
      j, k := TypeAt(ms[..n], p);
      assert ms[..n][..j] == ms[..j];
    } else {
      j, k := n, p - |ModuleTypes(ms[..n])|;
    }
  }

  lemma {:induction false} StartsGrow(ms: seq<Module>, i: nat, j: nat)
    requires i < j <= |ms|
    ensures EnumStart(ms, i) + |ms[i].enums| <= EnumStart(ms, j)
    ensures TypeStart(ms, i) + |ms[i].types| <= TypeStart(ms, j)
  {
    assert ms[..j][..j - 1] == ms[..j - 1];
    if i < j - 1 { StartsGrow(ms, i, j - 1); }
  }

  /** The position of a site in the list of entries. */
  ghost predicate Position(sys: AstSystem, site: Site, p: nat) {
    var b, c := |PREDEFINED|, |PREDEFINED| + |EnumEntries(sys.modules)|;
    match site
    case BuiltIn(n) => p < b && Called(PREDEFINED[p], n)
    case EnumSite(j, k) => j < |sys.modules| && k < |sys.modules[j].enums| && p == b + EnumStart(sys.modules, j) + k
    case RootSite(k) => k < |sys.types| && p == c + k
    case TypeSite(j, k) =>
      j < |sys.modules| && k < |sys.modules[j].types| && p == c + |sys.types| + TypeStart(sys.modules, j) + k
  }

  lemma {:induction false} SitePosition(sys: AstSystem, site: Site, e: Entry) returns (p: nat)
    requires ParsedSystem(sys) && Declares(sys, site, e)
    ensures Position(sys, site, p) && p < |InitialEntries(sys)| && InitialEntries(sys)[p] == e
  {
    var b, c := |PREDEFINED|, |PREDEFINED| + |EnumEntries(sys.modules)|;
    match site
    case BuiltIn(n) => p := BuiltInPosition(n, e);
    case EnumSite(j, k) =>
      p := b + EnumStart(sys.modules, j) + k;
      EnumEntryAt(sys, j, k, p);
    case RootSite(k) =>
      p := c + k;
      RootEntry(sys, k, p);
    case TypeSite(j, k) =>
      p := c + |sys.types| + TypeStart(sys.modules, j) + k;
      TypeEntry(sys, j, k, p);
  }

  lemma EnumEntryAt(sys: AstSystem, j: nat, k: nat, p: nat)
    requires j < |sys.modules| && k < |sys.modules[j].enums| && p == |PREDEFINED| + EnumStart(sys.modules, j) + k
    ensures p < |InitialEntries(sys)| && InitialEntries(sys)[p] == EnumEntry(sys.modules[j].enums[k])
  {
    EnumPosition(sys.modules, j, k);
  }

  lemma RootEntry(sys: AstSystem, k: nat, p: nat)
    requires ParsedSystem(sys) && k < |sys.types| && p == |PREDEFINED| + |EnumEntries(sys.modules)| + k
    ensures p < |InitialEntries(sys)| && InitialEntries(sys)[p] == ModelEntry(sys.types[k])
  {
    assert AllTypes(sys)[k] == sys.types[k];
  }

  function BuiltInIndex(n: string): nat {
    if n == "Boolean" then 0 else if n == "Int" then 1 else if n == "Float" then 2 else if n == "Decimal" then 3
    else if n == "String" then 4 else if n == "LocalTime" then 5 else if n == "LocalDateTime" then 6
    else if n == "LocalDate" then 7 else if n == "Instant" then 8 else if n == "Json" then 9
    else if n == "Blob" then 10 else if n == "Uuid" then 11 else if n == "Vector" then 12
    else if n == "Exograph" then 13 else if n == "ExographPriv" then 14 else 15
  }

  lemma BuiltInPosition(n: string, e: Entry) returns (p: nat)
    requires (n in PRIMITIVES && e == PrimitiveEntry(n)) || (n in INJECTED && e == InjectedEntry(n))
    ensures p == BuiltInIndex(n) && p < |PREDEFINED| && PREDEFINED[p] == e && Called(e, n)
  {
    p := BuiltInIndex(n);
  }

  lemma PredefinedIndex(p: nat)
    requires p < |PREDEFINED|
    ensures var n := EntryName(PREDEFINED[p]);
            && BuiltInIndex(n) == p
            && ((n in PRIMITIVES && PREDEFINED[p] == PrimitiveEntry(n)) ||
                (n in INJECTED && PREDEFINED[p] == InjectedEntry(n)))
  {
  }

  lemma PositionSite(sys: AstSystem, p: nat) returns (site: Site)
    requires ParsedSystem(sys) && p < |InitialEntries(sys)|
    ensures Position(sys, site, p) && Declares(sys, site, InitialEntries(sys)[p])
  {
    var b, c := |PREDEFINED|, |PREDEFINED| + |EnumEntries(sys.modules)|;
    if p < b {
      PredefinedIndex(p);
      site := BuiltIn(EntryName(PREDEFINED[p]));
      assert InitialEntries(sys)[p] == PREDEFINED[p];
    } else if p < c {
      var j, k := EnumAt(sys.modules, p - b);
      EnumPosition(sys.modules, j, k);
      site := EnumSite(j, k);
    } else if p < c + |sys.types| {
      site := RootSite(p - c);
      assert AllTypes(sys)[p - c] == sys.types[p - c];
    } else {
      var j, k := TypeAt(sys.modules, p - c - |sys.types|);
      site := TypeSite(j, k);
      TypeEntry(sys, j, k, p);
    }
  }

  lemma TypeEntry(sys: AstSystem, j: nat, k: nat, p: nat)
    requires ParsedSystem(sys) && j < |sys.modules| && k < |sys.modules[j].types| && Position(sys, TypeSite(j, k), p)
    ensures p < |InitialEntries(sys)| && InitialEntries(sys)[p] == ModelEntry(sys.modules[j].types[k])
  {
    var c := |PREDEFINED| + |EnumEntries(sys.modules)|;
    TypePosition(sys.modules, j, k);
    assert sys.modules[j].types[k] == ShallowModule(sys.modules[j]).types[k];
    assert AllTypes(sys)[p - c] == sys.modules[j].types[k];
  }

  lemma PositionOrder(sys: AstSystem, a: Site, b: Site, p: nat, q: nat)
    requires Position(sys, a, p) && Position(sys, b, q)
    ensures Before(a, b) ==> p < q
    ensures a == b ==> p == q
    ensures a != b ==> Before(a, b) || Before(b, a) || (a.BuiltIn? && b.BuiltIn?)
  {
    match (a, b)
    case (BuiltIn(n), BuiltIn(m)) => PredefinedIndex(p); PredefinedIndex(q);
    case (EnumSite(i, k), EnumSite(j, l)) => if i < j { StartsGrow(sys.modules, i, j); }
    case (EnumSite(i, k), _) => EnumPosition(sys.modules, i, k);
    case (TypeSite(i, k), TypeSite(j, l)) => if i < j { StartsGrow(sys.modules, i, j); }
    case _ =>
  }

  // ----- What is found under a name -----

  lemma CalledName(e: Entry, n: string)
    ensures Called(e, n) <==> EntryName(e) == n
  {
  }

  /** A first site has the first position of its name. */
  lemma FirstPosition(sys: AstSystem, site: Site, e: Entry, n: string, p: nat)
    requires ParsedSystem(sys) && FirstSite(sys, site, e, n) && Position(sys, site, p)
    ensures forall i :: 0 <= i < p && i < |InitialEntries(sys)| ==> EntryName(InitialEntries(sys)[i]) != n
  {
    forall i | 0 <= i < p && i < |InitialEntries(sys)| ensures EntryName(InitialEntries(sys)[i]) != n {
      var x := InitialEntries(sys)[i];
      CalledName(x, n);
      if EntryName(x) == n {
        var s := PositionSite(sys, i);
        PositionOrder(sys, site, s, p, i);
      }
    }
  }

  /** The entry found under a name is that of the first site. */
  lemma NameFound(sys: AstSystem, site: Site, e: Entry, n: string)
    requires ParsedSystem(sys) && FirstSite(sys, site, e, n)
    ensures var env := InitialTypes(sys); n in env.ids && env.ids[n] < |env.values| && env.values[env.ids[n]] == e
  {
    var p := SitePosition(sys, site, e);
    CalledName(e, n);
    FirstPosition(sys, site, e, n, p);
    FirstIsFound(InitialEntries(sys), p);
  }

  lemma {:induction false} FirstNamedPosition(es: seq<Entry>, i: nat) returns (p: nat)
    requires i < |es|
    ensures p <= i && EntryName(es[p]) == EntryName(es[i])
    ensures forall q :: 0 <= q < p ==> EntryName(es[q]) != EntryName(es[p])
    decreases i
  {
    if q :| 0 <= q < i && EntryName(es[q]) == EntryName(es[i]) { p := FirstNamedPosition(es, q); } else { p := i; }
  }

  /** Every name that is found has a first site. */
  lemma NameHasSite(sys: AstSystem, n: string) returns (site: Site, e: Entry)
    requires ParsedSystem(sys) && n in InitialTypes(sys).ids
    ensures FirstSite(sys, site, e, n)
  {
    var es := InitialEntries(sys);
    NamesFrom(es, n);
    var i :| 0 <= i < |es| && EntryName(es[i]) == n;
    var p := FirstNamedPosition(es, i);
    e := es[p];
    site := PositionSite(sys, p);
    CalledName(e, n);
    forall s, x | Declares(sys, s, x) && Called(x, n) && s != site ensures Before(site, s) {
      var q := SitePosition(sys, s, x);
      CalledName(x, n);
      PositionOrder(sys, site, s, p, q);
      PositionOrder(sys, s, site, q, p);
    }
  }

  lemma {:induction false} FirstOrder(es: seq<Entry>, p: nat, q: nat)
    requires p < q < |es| && forall i :: 0 <= i < p ==> EntryName(es[i]) != EntryName(es[p])
    requires forall i :: 0 <= i < q ==> EntryName(es[i]) != EntryName(es[q])
    ensures var ids := AddAll(es).ids;
            EntryName(es[p]) in ids && EntryName(es[q]) in ids && ids[EntryName(es[p])] < ids[EntryName(es[q])]
  {
    var n := |es| - 1;
    if q < n {
      FirstOrder(es[..n], p, q);
      NamesKept(es, es[p]);
      NamesKept(es, es[q]);
    } else {
      BeforeLast(es, p);
    }
  }

  lemma NamesKept(es: seq<Entry>, e: Entry)
    requires es != [] && EntryName(e) in AddAll(es[..|es| - 1]).ids
    ensures EntryName(e) in AddAll(es).ids && AddAll(es).ids[EntryName(e)] == AddAll(es[..|es| - 1]).ids[EntryName(e)]
  {
  }

  lemma BeforeLast(es: seq<Entry>, p: nat)
    requires p < |es| - 1 && forall i :: 0 <= i < |es| - 1 ==> EntryName(es[i]) != EntryName(es[|es| - 1])
    ensures var (ids, last) := (AddAll(es).ids, EntryName(es[|es| - 1]));
            EntryName(es[p]) in ids && last in ids && ids[EntryName(es[p])] < ids[last]
  {
    var front := es[..|es| - 1];
    AddAllValid(front);
    AddAllHolds(front);
    assert front[p] == es[p];
    LastIsNew(es);
  }

  lemma {:induction false} LastIsNew(es: seq<Entry>)
    requires es != [] && forall i :: 0 <= i < |es| - 1 ==> EntryName(es[i]) != EntryName(es[|es| - 1])
    ensures var front, last := AddAll(es[..|es| - 1]), EntryName(es[|es| - 1]);
            last !in front.ids && AddAll(es).ids == front.ids[last := |front.values|]
  {
    var front, last := es[..|es| - 1], EntryName(es[|es| - 1]);
    if last in AddAll(front).ids {
      NamesFrom(front, last);
    }
  }

  /** Names are numbered in the order of their first sites. */
  lemma NamesInOrder(sys: AstSystem, a: Site, x: Entry, n: string, b: Site, y: Entry, m: string)
    requires ParsedSystem(sys) && FirstSite(sys, a, x, n) && FirstSite(sys, b, y, m) && Before(a, b)
    ensures var ids := InitialTypes(sys).ids; n in ids && m in ids && ids[n] < ids[m]
  {
    var p := SitePosition(sys, a, x);
    var q := SitePosition(sys, b, y);
    CalledName(x, n);
    CalledName(y, m);
    PositionOrder(sys, a, b, p, q);
    FirstPosition(sys, a, x, n, p);
    FirstPosition(sys, b, y, m, q);
    FirstOrder(InitialEntries(sys), p, q);
  }

  // ----- Literals -----

  /** A field declared with the name of a primitive type has values of it. */
  lemma PrimitiveField(sys: AstSystem, n: string, ok: bool)
    requires ParsedSystem(sys) && n in PRIMITIVES
    ensures FieldTypeDenotes(Plain(n, [], ok), InitialTypes(sys), Primitive(n))
  {
    var site, e := BuiltIn(n), PrimitiveEntry(n);
    NameFound(sys, site, e, n);
  }

  /** `self.f`. */
  function OfSelf(f: string): Selection {
    Path(Single(Identifier("self", Defer), Defer), Identifier(f, Defer), Defer)
  }

  /** In a declared model, a field of a primitive type has values of that type. */
  lemma OwnFieldTyped(sys: AstSystem, site: Site, m: Model, k: nat, n: string)
    requires ParsedSystem(sys) && FirstSite(sys, site, ModelEntry(m), m.name)
    requires k < |m.fields| && FirstField(m.fields, k, m.fields[k].name)
    requires m.fields[k].typ == Plain(n, [], false) && n in PRIMITIVES
    ensures Typed(Select(OfSelf(m.fields[k].name)), InitialTypes(sys), map["self" := m.name], Primitive(n))
  {
    var env, s := InitialTypes(sys), OfSelf(m.fields[k].name);
    var sc: Scope := map["self" := m.name];
    NameFound(sys, site, ModelEntry(m), m.name);
    PrimitiveField(sys, n, false);
    var c := env.ids[m.name];
    assert EntryDenotes(c, env, Composite(c));
    assert SelectionTyped(s.prefix, env, sc, Composite(c));
    assert HasField(c, s.elem.name, env, m.fields[k]);
    assert FieldDenotes(c, s.elem.name, env, Primitive(n));
    assert PathTyped(s, Composite(c), env, sc, Primitive(n));
  }

  /** Such a field can be compared with a literal exactly if the literal fits: a boolean with `Boolean`, a string with
      `String`, numbers with `Int` and `Float`. */
  lemma OwnFieldCompared(sys: AstSystem, site: Site, m: Model, k: nat, n: string, l: Literal)
    requires ParsedSystem(sys) && FirstSite(sys, site, ModelEntry(m), m.name)
    requires k < |m.fields| && FirstField(m.fields, k, m.fields[k].name)
    requires m.fields[k].typ == Plain(n, [], false) && n in PRIMITIVES
    ensures var e := Relational(Eq, Select(OfSelf(m.fields[k].name)), Lit(l), Defer);
            Complete(Infer(e, InitialTypes(sys), map["self" := m.name])) <==>
            match l
            case StringLiteral => n == "String"
            case BooleanLiteral => n == "Boolean"
            case IntLiteral => n == "Int" || n == "Float"
            case FloatLiteral => n == "Int" || n == "Float"
            case NullLiteral => false
  {
    AddAllValid(InitialEntries(sys));
    NameFound(sys, site, ModelEntry(m), m.name);
    OwnFieldTyped(sys, site, m, k, n);
    LiteralCompared(Select(OfSelf(m.fields[k].name)), n, l, InitialTypes(sys), map["self" := m.name]);
  }
}
