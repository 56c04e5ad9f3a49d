/** What the published document says of each method and component, by the declared types. */
module RpcDocumentMeaning {
  import opened Wrappers
  import opened Values
  import opened RpcSchema
  import opened RpcDocument
  import opened RpcDocumentTheorems
  import opened RpcAdmitted

  /** The schemas that references lead to. */
  function SchemasOf(doc: Document): Schemas {
    match doc.components
    case None => map[]
    case Some(schemas) => schemas
  }

  /** A parameter in the list of the first form: its name, whether it is required, and what it accepts. */
  ghost predicate DescriptorSays(d: Descriptor, p: Declared, cs: Components, schemas: Schemas) {
    && d.name == p.name
    && d.required == !p.schema.Optional?
    && forall j :: Valid(j, d.schema, schemas) <==> AdmittedIfGiven(j, p.schema, cs)
  }

  /** The parameters in either form. */
  ghost predicate ParamsSay(params: MethodParams, ds: seq<Declared>, mode: SchemaGeneration, cs: Components,
                            schemas: Schemas) {
    match mode
    case OpenRpc =>
      params.Descriptors? && |params.list| == |ds| &&
      forall i :: 0 <= i < |ds| ==> DescriptorSays(params.list[i], ds[i], cs, schemas)
    case Mcp =>
      params.ParamsSchema? &&
      forall j :: Valid(j, params.schema, schemas) <==> j.JObject? && FieldsAdmitted(j, ds, false, cs)
  }

  ghost predicate MethodSays(p: MethodObject, m: RpcMethod, mode: SchemaGeneration, cs: Components, schemas: Schemas) {
    && p.name == m.name
    && (forall j :: Valid(j, p.result, schemas) <==> Admitted(j, m.result, cs))
    && ParamsSay(p.params, m.params, mode, cs, schemas)
  }

  /** The components are those of the schema, each accepting the objects of its type. */
  ghost predicate ComponentsSay(doc: Document, cs: Components) {
    && (doc.components.None? <==> cs == map[])
    && SchemasOf(doc).Keys == cs.Keys
    && forall n, j :: n in cs ==>
         (Valid(j, SchemasOf(doc)[n], SchemasOf(doc)) <==>
          j.JObject? && FieldsAdmitted(j, cs[n].fields, cs[n].additionalPropertiesFalse, cs))
  }

  /** The document has the schema's methods, in order, and its components; and it says of each what is declared. */
  lemma DocumentSays(methods: seq<RpcMethod>, cs: Components, mode: SchemaGeneration)
    ensures var doc := ConvertedDocument(methods, cs, mode);
            && |doc.methods| == |methods|
            && (forall i :: 0 <= i < |methods| ==> MethodSays(doc.methods[i], methods[i], mode, cs, SchemasOf(doc)))
            && ComponentsSay(doc, cs)
  {
    var doc := ConvertedDocument(methods, cs, mode);
    SchemasAre(methods, cs, mode);
    forall i | 0 <= i < |methods| ensures MethodSays(doc.methods[i], methods[i], mode, cs, SchemasOf(doc)) {
      ConvertedMethodSays(methods[i], mode, cs);
    }
    forall n, j | n in cs
      ensures Valid(j, SchemasOf(doc)[n], SchemasOf(doc)) <==>
              j.JObject? && FieldsAdmitted(j, cs[n].fields, cs[n].additionalPropertiesFalse, cs)
    {
      ObjectSays(j, cs[n].fields, cs[n].additionalPropertiesFalse, cs);
    }
  }

  lemma SchemasAre(methods: seq<RpcMethod>, cs: Components, mode: SchemaGeneration)
    ensures SchemasOf(ConvertedDocument(methods, cs, mode)) == ConvertedComponents(cs)
  {
    if cs == map[] { assert ConvertedComponents(cs) == map[]; }
  }

  lemma ObjectSays(j: Json, ds: seq<Declared>, closed: bool, cs: Components)
    ensures Valid(j, ObjectSchema(ds, closed), ConvertedComponents(cs)) <==>
            j.JObject? && FieldsAdmitted(j, ds, closed, cs)
  {
    InlineValidExactly(j, ObjectSchema(ds, closed), ConvertedComponents(cs));
    if j.JObject? { ValidFields(j, ds, closed, cs); }
  }

  lemma ConvertedMethodSays(m: RpcMethod, mode: SchemaGeneration, cs: Components)
    ensures MethodSays(ConvertedMethod(m, mode), m, mode, cs, ConvertedComponents(cs))
  {
    var p, schemas := ConvertedMethod(m, mode), ConvertedComponents(cs);
    forall j ensures Valid(j, p.result, schemas) <==> Admitted(j, m.result, cs) { ValidAdmitted(j, m.result, cs); }
    match mode
    case OpenRpc =>
      forall i | 0 <= i < |m.params| ensures DescriptorSays(p.params.list[i], m.params[i], cs, schemas) {
        ConvertedDescriptorSays(m.params[i], cs);
      }
    case Mcp =>
      forall j ensures Valid(j, p.params.schema, schemas) <==> j.JObject? && FieldsAdmitted(j, m.params, false, cs) {
        ObjectSays(j, m.params, false, cs);
      }
  }

  lemma ConvertedDescriptorSays(p: Declared, cs: Components)
    ensures DescriptorSays(DescriptorOf(p), p, cs, ConvertedComponents(cs))
  {
    forall j ensures Valid(j, DescriptorOf(p).schema, ConvertedComponents(cs)) <==> AdmittedIfGiven(j, p.schema, cs) {
      ValidAdmitted(j, Unwrapped(p.schema), cs);
    }
  }

  // ----- What validity does not see -----

  /** The format of a scalar, which only informs. */
  predicate FormatIs(name: string, format: Option<string>) {
    match format
    case Some("uuid") => name == "Uuid"
    case Some("date-time") => name in {"DateTime", "LocalDateTime", "Instant"}
    case Some("date") => name == "LocalDate"
    case Some("time") => name == "LocalTime"
    case Some("byte") => name == "Blob"
    case Some(_) => false
    case None => name !in {"Uuid", "DateTime", "LocalDateTime", "Instant", "LocalDate", "LocalTime", "Blob"}
  }

  /** Formats are published, also of the items of an array, and references lead into the components. */
  lemma Published(name: string, items: TypeSchema, typeRef: string)
    ensures ConvertType(Scalar(name)).InlineSchema? && FormatIs(name, ConvertType(Scalar(name)).format)
    ensures ConvertType(Array(items)).InlineSchema? && ConvertType(Array(items)).items == Some(ConvertType(items))
    ensures ConvertType(Object(typeRef)) == RefSchema("#/components/schemas/" + typeRef, false)
  {
  }
}
