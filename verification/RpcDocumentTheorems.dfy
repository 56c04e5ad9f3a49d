/** The published document agrees with the schema and with what parsing enforces. */
module RpcDocumentTheorems {
  import opened Wrappers
  import opened Values
  import opened RpcSchema
  import opened RpcParsing
  import opened RpcParams
  import opened RpcDocument

  // ----- Every `$ref` resolves -----

  predicate Resolves(js: JsonSchema, names: set<string>)
    decreases js
  {
    match js
    case RefSchema(path, _) => exists n :: n in names && path == COMPONENT_PREFIX + n
    case InlineSchema(_, _, _, items, properties, _, _, oneOf, _) =>
      && (items.Some? ==> Resolves(items.value, names))
      && (forall k :: k in properties ==> Resolves(properties[k], names))
      && (oneOf.ExactlyOne? ==> forall i :: 0 <= i < |oneOf.variants| ==> Resolves(oneOf.variants[i], names))
  }

  predicate ParamsResolve(p: MethodParams, names: set<string>) {
    match p
    case Descriptors(list) => forall i :: 0 <= i < |list| ==> Resolves(list[i].schema, names)
    case ParamsSchema(js) => Resolves(js, names)
  }

  predicate MethodResolves(m: MethodObject, names: set<string>) {
    ParamsResolve(m.params, names) && Resolves(m.result, names)
  }

  predicate DocumentResolves(doc: Document) {
    var schemas := if doc.components.Some? then doc.components.value else map[];
    && (forall i :: 0 <= i < |doc.methods| ==> MethodResolves(doc.methods[i], schemas.Keys))
    && (forall n :: n in schemas ==> Resolves(schemas[n], schemas.Keys))
  }

  /** No inline variant repeats a property name. */
  predicate Unambiguous(s: TypeSchema)
    decreases s
  {
    match s
    case Array(items) => Unambiguous(items)
    case Optional(inner) => Unambiguous(inner)
    case OneOf(variants) => forall i :: 0 <= i < |variants| ==> UnambiguousVariant(variants[i])
    case _ => true
  }

  predicate UnambiguousVariant(v: Variant)
    decreases v
  {
    v.Inline? ==> Distinct(v.properties) && forall k :: 0 <= k < |v.properties| ==> Unambiguous(v.properties[k].schema)
  }

  lemma LastIs(ds: seq<Declared>, i: nat)
    requires Distinct(ds) && i < |ds|
    ensures Last(ds, ds[i].name) == i
  {
  }

  lemma SamePath(a: string, b: string)
    requires COMPONENT_PREFIX + a == COMPONENT_PREFIX + b
    ensures a == b
  {
    assert a == (COMPONENT_PREFIX + a)[|COMPONENT_PREFIX|..];
    assert b == (COMPONENT_PREFIX + b)[|COMPONENT_PREFIX|..];
  }

  lemma ComponentResolves(r: string, names: set<string>)
    ensures Resolves(Component(r), names) <==> r in names
  {
    if Resolves(Component(r), names) {
      var n :| n in names && Component(r).path == COMPONENT_PREFIX + n;
      SamePath(r, n);
    }
  }

  lemma {:induction false} TypeResolves(s: TypeSchema, names: set<string>)
    ensures RefsWithin(s, names) ==> Resolves(ConvertType(s), names)
    ensures Unambiguous(s) && Resolves(ConvertType(s), names) ==> RefsWithin(s, names)
    decreases s
  {
    match s
    case Object(r) => ComponentResolves(r, names);
    case Array(items) => TypeResolves(items, names);
    case Optional(inner) => TypeResolves(inner, names);
    case OneOf(variants) =>
      forall i | 0 <= i < |variants|
        ensures VariantWithin(variants[i], names) ==> Resolves(ConvertVariant(variants[i]), names)
        ensures UnambiguousVariant(variants[i]) && Resolves(ConvertVariant(variants[i]), names) ==>
                  VariantWithin(variants[i], names)
      {
        VariantResolves(variants[i], names);
      }
      OneOfResolves(s, names);
    case _ =>
  }

  lemma OneOfResolves(s: TypeSchema, names: set<string>)
    requires s.OneOf?
    requires forall i :: 0 <= i < |s.variants| ==>
               && (VariantWithin(s.variants[i], names) ==> Resolves(ConvertVariant(s.variants[i]), names))
               && (UnambiguousVariant(s.variants[i]) && Resolves(ConvertVariant(s.variants[i]), names)
                   ==> VariantWithin(s.variants[i], names))
    ensures RefsWithin(s, names) ==> Resolves(ConvertType(s), names)
    ensures Unambiguous(s) && Resolves(ConvertType(s), names) ==> RefsWithin(s, names)
  {
    if |s.variants| != 1 {
      var js := ConvertType(s).oneOf.variants;
      assert forall i :: 0 <= i < |s.variants| ==> js[i] == ConvertVariant(s.variants[i]);
    }
  }

  lemma {:induction false} VariantResolves(v: Variant, names: set<string>)
    ensures VariantWithin(v, names) ==> Resolves(ConvertVariant(v), names)
    ensures UnambiguousVariant(v) && Resolves(ConvertVariant(v), names) ==> VariantWithin(v, names)
    decreases v
  {
    match v
    case RefTo(r) => ComponentResolves(r, names);
    case Inline(ds, _) =>
      forall i | 0 <= i < |ds|
        ensures RefsWithin(ds[i].schema, names) ==> Resolves(ConvertType(ds[i].schema), names)
        ensures Unambiguous(ds[i].schema) && Resolves(ConvertType(ds[i].schema), names) ==>
                  RefsWithin(ds[i].schema, names)
      {
        TypeResolves(ds[i].schema, names);
      }
      if UnambiguousVariant(v) && Resolves(ConvertVariant(v), names) {
        forall i | 0 <= i < |ds| ensures RefsWithin(ds[i].schema, names) {
          LastIs(ds, i);
          assert ConvertVariant(v).properties[ds[i].name] == ConvertType(ds[i].schema);
        }
      }
  }

  lemma UnwrappedResolves(d: Declared, names: set<string>)
    ensures RefsWithin(d.schema, names) ==> Resolves(ConvertType(Unwrapped(d.schema)), names)
    ensures Unambiguous(d.schema) && Resolves(ConvertType(Unwrapped(d.schema)), names) ==> RefsWithin(d.schema, names)
  {
    TypeResolves(Unwrapped(d.schema), names);
  }

  predicate UnambiguousEach(ds: seq<Declared>) {
    Distinct(ds) && forall i :: 0 <= i < |ds| ==> Unambiguous(ds[i].schema)
  }

  lemma ObjectResolves(ds: seq<Declared>, closed: bool, names: set<string>)
    ensures DeclaredWithin(ds, names) ==> Resolves(ObjectSchema(ds, closed), names)
    ensures UnambiguousEach(ds) && Resolves(ObjectSchema(ds, closed), names) ==> DeclaredWithin(ds, names)
  {
    forall i | 0 <= i < |ds|
      ensures RefsWithin(ds[i].schema, names) ==> Resolves(ConvertType(Unwrapped(ds[i].schema)), names)
      ensures Unambiguous(ds[i].schema) && Resolves(ConvertType(Unwrapped(ds[i].schema)), names) ==>
                RefsWithin(ds[i].schema, names)
    {
      UnwrappedResolves(ds[i], names);
    }
    if UnambiguousEach(ds) && Resolves(ObjectSchema(ds, closed), names) {
      forall i | 0 <= i < |ds| ensures RefsWithin(ds[i].schema, names) {
        LastIs(ds, i);
        assert ObjectSchema(ds, closed).properties[ds[i].name] == ConvertType(Unwrapped(ds[i].schema));
      }
    }
  }

  predicate UnambiguousMethod(m: RpcMethod) {
    UnambiguousEach(m.params) && Unambiguous(m.result)
  }

  lemma MethodRefs(m: RpcMethod, mode: SchemaGeneration, names: set<string>)
    ensures MethodWithin(m, names) ==> MethodResolves(ConvertedMethod(m, mode), names)
    ensures UnambiguousMethod(m) && MethodResolves(ConvertedMethod(m, mode), names) ==> MethodWithin(m, names)
  {
    TypeResolves(m.result, names);
    match mode
    case Mcp => ObjectResolves(m.params, false, names);
    case OpenRpc =>
      var list := ConvertedMethod(m, mode).params.list;
      forall i | 0 <= i < |m.params|
        ensures RefsWithin(m.params[i].schema, names) ==> Resolves(list[i].schema, names)
        ensures UnambiguousMethod(m) && Resolves(list[i].schema, names) ==> RefsWithin(m.params[i].schema, names)
      {
        UnwrappedResolves(m.params[i], names);
      }
  }

  predicate Unrepeated(methods: seq<RpcMethod>, cs: Components) {
    && (forall i :: 0 <= i < |methods| ==> UnambiguousMethod(methods[i]))
    && (forall n :: n in cs ==> UnambiguousEach(cs[n].fields))
  }

  /** In either form, every `$ref` of the document resolves if every type reference does, and,
      where names are not repeated, only then. */
  lemma DocumentClosed(methods: seq<RpcMethod>, cs: Components, mode: SchemaGeneration)
    ensures Closed(methods, cs) ==> DocumentResolves(ConvertedDocument(methods, cs, mode))
    ensures Unrepeated(methods, cs) && DocumentResolves(ConvertedDocument(methods, cs, mode)) ==> Closed(methods, cs)
  {
    var doc, names := ConvertedDocument(methods, cs, mode), cs.Keys;
    forall i | 0 <= i < |methods|
      ensures MethodWithin(methods[i], names) ==> MethodResolves(doc.methods[i], names)
      ensures UnambiguousMethod(methods[i]) && MethodResolves(doc.methods[i], names) ==> MethodWithin(methods[i], names)
    {
      MethodRefs(methods[i], mode, names);
    }
    forall n | n in cs
      ensures DeclaredWithin(cs[n].fields, names) ==> Resolves(ConvertedComponents(cs)[n], names)
      ensures UnambiguousEach(cs[n].fields) && Resolves(ConvertedComponents(cs)[n], names) ==>
                DeclaredWithin(cs[n].fields, names)
    {
      ObjectResolves(cs[n].fields, cs[n].additionalPropertiesFalse, names);
    }
    assert (if doc.components.Some? then doc.components.value else map[]).Keys == names;
  }

  // ----- One set of required parameters -----

  /** The parameters a method object marks as required. */
  function MarkedRequired(m: MethodObject): set<string> {
    match m.params
    case Descriptors(list) => set i | 0 <= i < |list| && list[i].required :: list[i].name
    case ParamsSchema(RefSchema(_, _)) => {}
    case ParamsSchema(js) => if js.required.Some? then set n | n in js.required.value else {}
  }

  /** Both forms mark the same parameters. */
  lemma RequiredAgree(m: RpcMethod)
    ensures MarkedRequired(ConvertedMethod(m, OpenRpc)) == MarkedRequired(ConvertedMethod(m, Mcp))
    ensures forall n :: n in MarkedRequired(ConvertedMethod(m, Mcp)) <==>
                        exists i :: 0 <= i < |m.params| && m.params[i].name == n && Required(m.params[i])
  {
    var open, mcp := ConvertedMethod(m, OpenRpc), ConvertedMethod(m, Mcp);
    forall n
      ensures n in MarkedRequired(open) <==>
              exists i :: 0 <= i < |m.params| && m.params[i].name == n && Required(m.params[i])
    {
      if n in MarkedRequired(open) {
        var i :| 0 <= i < |open.params.list| && open.params.list[i].required && open.params.list[i].name == n;
        assert m.params[i].name == n && Required(m.params[i]);
      }
      if i :| 0 <= i < |m.params| && m.params[i].name == n && Required(m.params[i]) {
        assert open.params.list[i].required && open.params.list[i].name == n;
      }
    }
    assert forall n :: n in MarkedRequired(mcp) <==> n in RequiredNames(m.params);
  }

  /** A parameter is marked required exactly when parsing insists on it. */
  lemma MarkedIsEnforced(fields: map<string, Json>, m: RpcMethod, cs: Components, mode: SchemaGeneration, name: string)
    requires Distinct(m.params) && name in fields && ParamsConform(Some(JObject(fields)), m, cs)
    ensures name in MarkedRequired(ConvertedMethod(m, mode)) <==> !ParamsConform(Some(JObject(fields - {name})), m, cs)
  {
    assert name in Names(m.params);
    var i := Taker(m.params, name);
    OmittedParameter(fields, m, cs, i);
    MarkedIsRequired(m, mode, i);
  }

  lemma MarkedIsRequired(m: RpcMethod, mode: SchemaGeneration, i: nat)
    requires Distinct(m.params) && i < |m.params|
    ensures m.params[i].name in MarkedRequired(ConvertedMethod(m, mode)) <==> Required(m.params[i])
  {
    RequiredAgree(m);
  }
}
