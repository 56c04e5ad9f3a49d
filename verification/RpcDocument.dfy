/** The published document: JSON schemas for methods and components, in two forms. */
module RpcDocument {
  import opened Wrappers
  import opened Values
  import opened RpcSchema

  const COMPONENT_PREFIX := "#/components/schemas/"

  /** A map without properties stands for an absent one: the converter writes no empty map. */
  datatype JsonSchema =
    | RefSchema(path: string, nullable: bool)
    | InlineSchema(
        kind: Option<string>,
        enumValues: Option<seq<string>>,
        format: Option<string>,
        items: Option<JsonSchema>,
        properties: map<string, JsonSchema>,
        required: Option<seq<string>>,
        additionalProperties: Option<bool>,
        oneOf: Alternatives,
        nullable: bool)

  datatype Alternatives = Unrestricted | ExactlyOne(variants: seq<JsonSchema>)

  datatype SchemaGeneration = OpenRpc | Mcp

  datatype Descriptor = Descriptor(name: string, schema: JsonSchema, required: bool)

  datatype MethodParams = Descriptors(list: seq<Descriptor>) | ParamsSchema(schema: JsonSchema)

  datatype MethodObject = MethodObject(name: string, params: MethodParams, result: JsonSchema)

  datatype Document = Document(methods: seq<MethodObject>, components: Option<map<string, JsonSchema>>)

  // ----- Converting a type -----

  const ANY := InlineSchema(None, None, None, None, map[], None, None, Unrestricted, false)

  function OfKind(kind: string): JsonSchema {
    InlineSchema(Some(kind), None, None, None, map[], None, None, Unrestricted, false)
  }

  function Formatted(format: string): JsonSchema {
    InlineSchema(Some("string"), None, Some(format), None, map[], None, None, Unrestricted, false)
  }

  function ArrayOf(items: JsonSchema): JsonSchema {
    InlineSchema(Some("array"), None, None, Some(items), map[], None, None, Unrestricted, false)
  }

  function EnumOf(values: seq<string>): JsonSchema {
    InlineSchema(Some("string"), Some(values), None, None, map[], None, None, Unrestricted, false)
  }

  function ObjectOf(properties: map<string, JsonSchema>, required: Option<seq<string>>,
                    closed: Option<bool>): JsonSchema {
    InlineSchema(Some("object"), None, None, None, properties, required, closed, Unrestricted, false)
  }

  function OneOfSchemas(variants: seq<JsonSchema>): JsonSchema {
    InlineSchema(None, None, None, None, map[], None, None, ExactlyOne(variants), false)
  }

  function Component(typeRef: string): JsonSchema {
    RefSchema(COMPONENT_PREFIX + typeRef, false)
  }

  function WithNullable(s: JsonSchema): JsonSchema {
    match s
    case RefSchema(path, _) => RefSchema(path, true)
    case InlineSchema(kind, enumValues, format, items, properties, required, additional, oneOf, _) =>
      InlineSchema(kind, enumValues, format, items, properties, required, additional, oneOf, true)
  }

  function ConvertScalar(name: string): JsonSchema {
    match name
    case "Int" => OfKind("integer")
    case "Float" => OfKind("number")
    case "String" => OfKind("string")
    case "Boolean" => OfKind("boolean")
    case "ID" => OfKind("string")
    case "Uuid" => Formatted("uuid")
    case "DateTime" => Formatted("date-time")
    case "LocalDateTime" => Formatted("date-time")
    case "LocalDate" => Formatted("date")
    case "LocalTime" => Formatted("time")
    case "Instant" => Formatted("date-time")
    case "Blob" => Formatted("byte")
    case "Decimal" => OfKind("string")
    case "Vector" => ArrayOf(OfKind("number"))
    case _ => ANY
  }

  /** A later property of the same name replaces an earlier one. */
  function Last(ds: seq<Declared>, n: string): (i: nat)
    requires n in Names(ds)
    ensures i < |ds| && ds[i].name == n && n !in Names(ds[i + 1..])
  {
    var top := |ds| - 1;
    if ds[top].name == n then top
    else
      assert n in Names(ds[..top]) by {
        var k :| 0 <= k < |ds| && ds[k].name == n;
        assert ds[..top][k].name == n;
      }
      var i := Last(ds[..top], n);
      assert ds[i + 1..] == ds[..top][i + 1..] + [ds[top]];
      i
  }

  function ConvertType(s: TypeSchema): JsonSchema
    decreases s
  {
    match s
    case Scalar(name) => ConvertScalar(name)
    case Enum(values) => EnumOf(values)
    case Object(r) => Component(r)
    case Array(items) => ArrayOf(ConvertType(items))
    case Optional(inner) => WithNullable(ConvertType(inner))
    case OneOf(variants) =>
      if |variants| == 1 then ConvertVariant(variants[0])
      else OneOfSchemas(seq(|variants|, i requires 0 <= i < |variants| => ConvertVariant(variants[i])))
  }

  function ConvertVariant(v: Variant): JsonSchema
    decreases v
  {
    match v
    case RefTo(r) => Component(r)
    case Inline(ds, required) =>
      ObjectOf(map n | n in Names(ds) :: ConvertType(ds[Last(ds, n)].schema), Some(required), Some(false))
  }

  // ----- Converting declarations: parameters and fields -----

  /** Optionality moves from the schema to the `required` list. */
  function Unwrapped(s: TypeSchema): TypeSchema {
    match s
    case Optional(inner) => inner
    case _ => s
  }

  function ConvertedProperties(ds: seq<Declared>): map<string, JsonSchema> {
    map n | n in Names(ds) :: ConvertType(Unwrapped(ds[Last(ds, n)].schema))
  }

  function RequiredNames(ds: seq<Declared>): (names: seq<string>)
    ensures forall n :: n in names <==> exists i :: 0 <= i < |ds| && ds[i].name == n && Required(ds[i])
  {
    if ds == [] then []
    else
      var top := |ds| - 1;
      assert ds == ds[..top] + [ds[top]];
      RequiredNames(ds[..top]) + if Required(ds[top]) then [ds[top].name] else []
  }

  function ObjectSchema(ds: seq<Declared>, closed: bool): JsonSchema {
    ObjectOf(ConvertedProperties(ds), if RequiredNames(ds) == [] then None else Some(RequiredNames(ds)),
             if closed then Some(false) else None)
  }

  lemma PropertiesNext(ds: seq<Declared>, i: nat)
    requires i < |ds|
    ensures ConvertedProperties(ds[..i + 1]) ==
            ConvertedProperties(ds[..i])[ds[i].name := ConvertType(Unwrapped(ds[i].schema))]
    ensures RequiredNames(ds[..i + 1]) == RequiredNames(ds[..i]) + if Required(ds[i]) then [ds[i].name] else []
  {
    var more, few := ds[..i + 1], ds[..i];
    assert more[..i] == few;
    NamesNext(ds, i);
    forall n | n in Names(more) ensures more[Last(more, n)] == if n == ds[i].name then ds[i] else few[Last(few, n)] {
      LastNext(ds, i, n);
    }
    RequiredNext(ds, i);
  }

  lemma LastNext(ds: seq<Declared>, i: nat, n: string)
    requires i < |ds| && n in Names(ds[..i + 1])
    ensures n == ds[i].name ==> Last(ds[..i + 1], n) == i
    ensures n != ds[i].name ==> n in Names(ds[..i]) && Last(ds[..i + 1], n) == Last(ds[..i], n)
  {
    NamesNext(ds, i);
    assert ds[..i + 1][..i] == ds[..i];
  }

  lemma RequiredNext(ds: seq<Declared>, i: nat)
    requires i < |ds|
    ensures RequiredNames(ds[..i + 1]) == RequiredNames(ds[..i]) + if Required(ds[i]) then [ds[i].name] else []
  {
    assert ds[..i + 1][..i] == ds[..i];
  }

  method ConvertObjectType(t: ObjectType) returns (r: JsonSchema)
    ensures r == ObjectSchema(t.fields, t.additionalPropertiesFalse)
  {
    var ds := t.fields;
    var properties, required := map[], [];
    assert ds[..0] == [];
    for i := 0 to |ds|
      invariant properties == ConvertedProperties(ds[..i]) && required == RequiredNames(ds[..i])
    {
      PropertiesNext(ds, i);
      if Required(ds[i]) { required := required + [ds[i].name]; }
      properties := properties[ds[i].name := ConvertType(Unwrapped(ds[i].schema))];
    }
    assert ds[..|ds|] == ds;
    r := ObjectOf(properties, if required == [] then None else Some(required),
                  if t.additionalPropertiesFalse then Some(false) else None);
  }

  function DescriptorOf(d: Declared): Descriptor {
    Descriptor(d.name, ConvertType(Unwrapped(d.schema)), Required(d))
  }

  function ConvertedMethod(m: RpcMethod, mode: SchemaGeneration): MethodObject {
    MethodObject(m.name,
      match mode
      case OpenRpc => Descriptors(seq(|m.params|, i requires 0 <= i < |m.params| => DescriptorOf(m.params[i])))
      case Mcp => ParamsSchema(ObjectSchema(m.params, false)),
      ConvertType(m.result))
  }

  method ConvertMethod(m: RpcMethod, mode: SchemaGeneration) returns (r: MethodObject)
    ensures r == ConvertedMethod(m, mode)
  {
    var result := ConvertType(m.result);
    var ds := m.params;
    match mode
    case OpenRpc =>
      var descriptors := [];
      for i := 0 to |ds|
        invariant |descriptors| == i && forall k :: 0 <= k < i ==> descriptors[k] == DescriptorOf(ds[k])
      {
        descriptors := descriptors + [Descriptor(ds[i].name, ConvertType(Unwrapped(ds[i].schema)), Required(ds[i]))];
      }
      assert descriptors == ConvertedMethod(m, mode).params.list;
      r := MethodObject(m.name, Descriptors(descriptors), result);
    case Mcp =>
      var properties, required := map[], [];
      assert ds[..0] == [];
      for i := 0 to |ds|
        invariant properties == ConvertedProperties(ds[..i]) && required == RequiredNames(ds[..i])
      {
        PropertiesNext(ds, i);
        if Required(ds[i]) { required := required + [ds[i].name]; }
        properties := properties[ds[i].name := ConvertType(Unwrapped(ds[i].schema))];
      }
      assert ds[..|ds|] == ds;
      r := MethodObject(m.name,
                        ParamsSchema(ObjectOf(properties, if required == [] then None else Some(required), None)),
                        result);
  }

  function ConvertedComponents(cs: Components): map<string, JsonSchema> {
    map n | n in cs :: ObjectSchema(cs[n].fields, cs[n].additionalPropertiesFalse)
  }

  function ConvertedDocument(methods: seq<RpcMethod>, cs: Components, mode: SchemaGeneration): Document {
    Document(seq(|methods|, i requires 0 <= i < |methods| => ConvertedMethod(methods[i], mode)),
             if cs == map[] then None else Some(ConvertedComponents(cs)))
  }

  method ToRpcDocument(schema: Schema, mode: SchemaGeneration) returns (doc: Document)
    ensures doc == ConvertedDocument(schema.methods, schema.components, mode)
  {
    var methods := [];
    for i := 0 to |schema.methods|
      invariant |methods| == i && forall k :: 0 <= k < i ==> methods[k] == ConvertedMethod(schema.methods[k], mode)
    {
      var m := ConvertMethod(schema.methods[i], mode);
      methods := methods + [m];
    }
    var cs := schema.components;
    var components: map<string, JsonSchema> := map[];
    var todo := cs.Keys;
    while todo != {}
      invariant todo <= cs.Keys && components.Keys == cs.Keys - todo
      invariant forall n :: n in components ==> components[n] == ConvertedComponents(cs)[n]
      decreases |todo|
    {
      var n :| n in todo;
      var converted := ConvertObjectType(cs[n]);
      components, todo := components[n := converted], todo - {n};
    }
    assert components == ConvertedComponents(cs);
    doc := Document(methods, if cs == map[] then None else Some(components));
    assert doc.methods == ConvertedDocument(schema.methods, cs, mode).methods;
  }
}
