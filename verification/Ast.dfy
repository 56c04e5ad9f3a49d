/**
 The typed syntax tree of an `.exo` model and the arena of named types.

 One set of datatypes stands for both the untyped and the typed tree: an untyped
 tree is a typed one in which every type slot is `Defer` and every flag `false`
 (the `Shallow` functions produce it).  Spans and doc comments are dropped.
 */
module Ast {
  import opened Wrappers

  /** A type slot's content.  A composite or enum value that the source clones out of
      the arena is represented by its arena index; names are unique in the arena, so
      two such clones taken from one arena are equal exactly when the indices are. */
  datatype Type =
    | Primitive(name: string)
    | Composite(id: nat)
    | Enumeration(id: nat)
    | OptionalType(inner: Type)
    | SetType(elem: Type)
    | ArrayType(elem: Type)
    | Reference(id: nat)
    | Injected(name: string)
    | NullType
    | Defer
    | Error

  const BOOLEAN := Primitive("Boolean")
  const INT := Primitive("Int")
  const FLOAT := Primitive("Float")
  const STRING := Primitive("String")

  /** `Type::is_incomplete`: deferred or erroneous at the innermost level. */
  predicate Incomplete(t: Type) {
    match t
    case Defer => true
    case Error => true
    case OptionalType(u) => Incomplete(u)
    case SetType(u) => Incomplete(u)
    case ArrayType(u) => Incomplete(u)
    case _ => false
  }

  predicate Complete(t: Type) {
    !Incomplete(t)
  }

  predicate IsError(t: Type) {
    match t
    case Error => true
    case OptionalType(u) => IsError(u)
    case SetType(u) => IsError(u)
    case ArrayType(u) => IsError(u)
    case _ => false
  }

  /** Diagnostics, without spans and message texts. */
  datatype Diagnostic =
    | SelfOutsideModel
    | UnknownContextOrVariant(name: string)
    | OnlyContains(name: string)
    | ContainsWithoutParameter
    | ParameterMismatch
    | TopLevelCall(name: string)
    | FieldOnSet(name: string)
    | OnlyContainsOnArray
    | NonComposite(name: string)
    | CallOnComposite(name: string)
    | NoSuchFragment(name: string)
    | NoSuchField(name: string)
    | NegateNonBoolean
    | NonBooleanOperand
    | MismatchedTypes
    | UnknownType(name: string)
    | UnknownAnnotation(name: string)
    | DuplicateAnnotation(name: string)
    | MisusedAnnotation(name: string)
    | BadDefault(name: string)
    | MissingInterceptorAnnotation(name: string)
    | NoSubsystemAnnotation(name: string)
    | ManySubsystemAnnotations(name: string)
    | ModelOutsideModule(name: string)
    | NotAModel(name: string)
    | Duplicate(name: string)

  // ----- Expressions -----

  datatype Literal = StringLiteral | BooleanLiteral | IntLiteral | FloatLiteral | NullLiteral

  function LiteralType(l: Literal): Type {
    match l
    case StringLiteral => STRING
    case BooleanLiteral => BOOLEAN
    case IntLiteral => INT
    case FloatLiteral => FLOAT
    case NullLiteral => NullType
  }

  datatype LogicalOperator = And | Or

  /** Eq and Neq compare with null, Lt, Lte, Gt and Gte do not, In looks into an array or set. */
  datatype RelationalOperator = Eq | Neq | Lt | Lte | Gt | Gte | In

  datatype Expr =
    | Lit(lit: Literal)
    | Not(arg: Expr, typ: Type)
    | Logical(lop: LogicalOperator, left: Expr, right: Expr, typ: Type)
    | Relational(rop: RelationalOperator, left: Expr, right: Expr, typ: Type)
    | Select(sel: Selection)

  datatype Selection =
    | Single(elem: Element, typ: Type)
    | Path(prefix: Selection, elem: Element, typ: Type)

  datatype Element =
    | Identifier(name: string, typ: Type)
    | HofCall(name: string, param: string, body: Expr, typ: Type)
    | NormalCall(name: string, params: seq<Expr>, typ: Type)

  function TypeOf(e: Expr): Type {
    match e
    case Lit(l) => LiteralType(l)
    case Not(_, t) => t
    case Logical(_, _, _, t) => t
    case Relational(_, _, _, t) => t
    case Select(s) => s.typ
  }

  // ----- Declarations -----

  datatype FieldType =
    | Plain(name: string, params: seq<FieldType>, ok: bool)
    | OptionalField(inner: FieldType)

  /** An annotation whose name is in the annotation environment is `declared`; `misused`
      tells whether its target or its parameter names are wrong (both fixed by the program
      text).  `params` are its access-expression parameters. */
  datatype Annotation = Annotation(name: string, declared: bool, misused: bool, params: seq<Expr>)

  datatype AnnotationMap = AnnotationMap(annotations: seq<Annotation>, duplicates: seq<string>)

  /** A default value: none, a literal or function (with a literal of the wrong type being
      an error fixed by the text), or a selection that is typechecked. */
  datatype Default = NoDefault | LiteralDefault(wrongType: bool) | SelectionDefault(sel: Selection)

  /** A model field.  A method or interceptor argument is a field without default. */
  datatype Field = Field(name: string, typ: FieldType, annotations: AnnotationMap, default: Default)

  datatype Fragment = Fragment(name: string, known: bool)

  datatype ModelKind = TypeKind | ContextKind | FragmentKind

  datatype Model = Model(name: string, kind: ModelKind, fields: seq<Field>,
                         fragments: seq<Fragment>, annotations: AnnotationMap)

  datatype Enum = Enum(name: string, variants: seq<string>)

  /** A method, or (with no return type) an interceptor. */
  datatype Callable = Callable(name: string, args: seq<Field>, result: Option<FieldType>, annotations: AnnotationMap)

  datatype Module = Module(name: string, types: seq<Model>, enums: seq<Enum>, methods: seq<Callable>,
                           interceptors: seq<Callable>, annotations: AnnotationMap)

  datatype AstSystem = AstSystem(types: seq<Model>, modules: seq<Module>)

  // ----- The arena of named types -----

  datatype Entry =
    | PrimitiveEntry(name: string)
    | InjectedEntry(name: string)
    | EnumEntry(enum: Enum)
    | ModelEntry(model: Model)

  function EntryName(e: Entry): string {
    match e
    case PrimitiveEntry(n) => n
    case InjectedEntry(n) => n
    case EnumEntry(en) => en.name
    case ModelEntry(m) => m.name
  }

  datatype Arena = Arena(values: seq<Entry>, ids: map<string, nat>) {
    ghost predicate Valid() {
      && (forall k :: k in ids ==> ids[k] < |values| && EntryName(values[ids[k]]) == k)
      && (forall i :: 0 <= i < |values| ==> EntryName(values[i]) in ids && ids[EntryName(values[i])] == i)
    }
  }

  /** What a reference to arena slot `i` denotes.  The arena panics on an index it does not
      hold; indices only ever come from the arena itself. */
  function View(env: Arena, i: nat): Type {
    if i < |env.values| then
      match env.values[i]
      case PrimitiveEntry(n) => Primitive(n)
      case InjectedEntry(n) => Injected(n)
      case EnumEntry(_) => Enumeration(i)
      case ModelEntry(_) => Composite(i)
    else Error
  }

  /** `Type::deref`. */
  function Deref(t: Type, env: Arena): Type {
    match t
    case Reference(i) => View(env, i)
    case OptionalType(u) => OptionalType(Deref(u, env))
    case SetType(u) => SetType(Deref(u, env))
    case ArrayType(u) => ArrayType(Deref(u, env))
    case _ => t
  }

  /** `Type::get_underlying_typename`. */
  function UnderlyingName(t: Type, env: Arena): Option<string> {
    match t
    case Composite(i) => if i < |env.values| then Some(EntryName(env.values[i])) else None
    case Enumeration(i) => if i < |env.values| then Some(EntryName(env.values[i])) else None
    case Reference(i) => if i < |env.values| then Some(EntryName(env.values[i])) else None
    case Primitive(n) => Some(n)
    case Injected(n) => Some(n)
    case OptionalType(u) => UnderlyingName(u, env)
    case SetType(u) => UnderlyingName(u, env)
    case ArrayType(u) => UnderlyingName(u, env)
    case _ => None
  }

  predicate Known(name: string, ids: map<string, nat>) {
    name in ids || name == "Set" || name == "Array"
  }

  /** `AstFieldType::to_typ`.  A `Set` or `Array` without a parameter panics in the source. */
  function ToType(ft: FieldType, env: Arena): Type {
    match ft
    case OptionalField(u) => OptionalType(ToType(u, env))
    case Plain(n, params, ok) =>
      if !ok then Error
      else if n == "Set" then (if |params| > 0 then SetType(ToType(params[0], env)) else Error)
      else if n == "Array" then (if |params| > 0 then ArrayType(ToType(params[0], env)) else Error)
      else if n in env.ids then Reference(env.ids[n])
      else Error
  }

  // ----- `shallow`: every slot deferred -----

  function ShallowExpr(e: Expr): Expr
    decreases e, 0
  {
    match e
    case Lit(_) => e
    case Not(a, _) => Not(ShallowExpr(a), Defer)
    case Logical(op, l, r, _) => Logical(op, ShallowExpr(l), ShallowExpr(r), Defer)
    case Relational(op, l, r, _) => Relational(op, ShallowExpr(l), ShallowExpr(r), Defer)
    case Select(s) => Select(ShallowSelection(s))
  }

  function ShallowSelection(s: Selection): Selection
    decreases s, 0
  {
    match s
    case Single(el, _) => Single(ShallowElement(el), Defer)
    case Path(p, el, _) => Path(ShallowSelection(p), ShallowElement(el), Defer)
  }

  function ShallowElement(el: Element): Element
    decreases el, 0
  {
    match el
    case Identifier(n, _) => Identifier(n, Defer)
    case HofCall(n, p, b, _) => HofCall(n, p, ShallowExpr(b), Defer)
    case NormalCall(n, ps, _) => NormalCall(n, ShallowExprs(ps), Defer)
  }

  function ShallowExprs(es: seq<Expr>): (r: seq<Expr>)
    ensures |r| == |es|
    ensures forall i :: 0 <= i < |es| ==> r[i] == ShallowExpr(es[i])
    decreases es, 1
  {
    if es == [] then [] else [ShallowExpr(es[0])] + ShallowExprs(es[1..])
  }

  function ShallowFieldType(ft: FieldType): FieldType
    decreases ft, 0
  {
    match ft
    case Plain(n, params, _) => Plain(n, ShallowFieldTypes(params), false)
    case OptionalField(u) => OptionalField(ShallowFieldType(u))
  }

  function ShallowFieldTypes(fts: seq<FieldType>): (r: seq<FieldType>)
    ensures |r| == |fts|
    ensures forall i :: 0 <= i < |fts| ==> r[i] == ShallowFieldType(fts[i])
    decreases fts, 1
  {
    if fts == [] then [] else [ShallowFieldType(fts[0])] + ShallowFieldTypes(fts[1..])
  }

  function Map<T, U>(xs: seq<T>, f: T -> U): (ys: seq<U>)
    ensures |ys| == |xs|
    ensures forall i :: 0 <= i < |xs| ==> ys[i] == f(xs[i])
  {
    seq(|xs|, i requires 0 <= i < |xs| => f(xs[i]))
  }

  function ShallowAnnotation(a: Annotation): Annotation {
    a.(params := ShallowExprs(a.params))
  }

  function ShallowAnnotations(m: AnnotationMap): AnnotationMap {
    m.(annotations := Map(m.annotations, ShallowAnnotation))
  }

  function ShallowDefault(d: Default): Default {
    match d
    case SelectionDefault(s) => SelectionDefault(ShallowSelection(s))
    case _ => d
  }

  function ShallowField(f: Field): Field {
    Field(f.name, ShallowFieldType(f.typ), ShallowAnnotations(f.annotations), ShallowDefault(f.default))
  }

  function ShallowFragment(f: Fragment): Fragment {
    f.(known := false)
  }

  function ShallowModel(m: Model): Model {
    Model(m.name, m.kind, Map(m.fields, ShallowField), Map(m.fragments, ShallowFragment),
          ShallowAnnotations(m.annotations))
  }

  function ShallowResult(r: Option<FieldType>): Option<FieldType> {
    match r
    case None => None
    case Some(ft) => Some(ShallowFieldType(ft))
  }

  function ShallowCallable(c: Callable): Callable {
    Callable(c.name, Map(c.args, ShallowField), ShallowResult(c.result), ShallowAnnotations(c.annotations))
  }

  function ShallowModule(m: Module): Module {
    Module(m.name, Map(m.types, ShallowModel), m.enums, Map(m.methods, ShallowCallable),
           Map(m.interceptors, ShallowCallable), ShallowAnnotations(m.annotations))
  }
}
