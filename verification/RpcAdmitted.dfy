/** What the published document accepts, and what that is in terms of the declared types. */
module RpcAdmitted {
  import opened Wrappers
  import opened Values
  import opened RpcSchema
  import opened RpcDocument
  import opened RpcDocumentTheorems

  type Schemas = map<string, JsonSchema>

  // ----- JSON Schema validity, for the keywords the converter writes -----

  predicate KindAccepts(kind: Option<string>, j: Json) {
    match kind
    case None => true
    case Some("integer") => j.JNumber? && !j.n.FloatNumber?
    case Some("number") => j.JNumber?
    case Some("string") => j.JString?
    case Some("boolean") => j.JBool?
    case Some("array") => j.JArray?
    case Some("object") => j.JObject?
    case _ => false
  }

  /** A reference leads to an object schema: nothing else is published as a component. */
  predicate Valid(j: Json, js: JsonSchema, schemas: Schemas)
    decreases j, 1, js
  {
    match js
    case RefSchema(path, nullable) =>
      (nullable && j.JNull?) ||
      exists n ::
        n in schemas && path == COMPONENT_PREFIX + n && schemas[n].InlineSchema? && ValidObject(j, schemas[n], schemas)
    case InlineSchema(_, enumValues, _, items, _, _, _, oneOf, nullable) =>
      (nullable && j.JNull?) ||
      (&& ValidObject(j, js, schemas)
       && (enumValues.Some? ==> j.JString? && j.s in enumValues.value)
       && (items.Some? && j.JArray? ==> forall i :: 0 <= i < |j.items| ==> Valid(j.items[i], items.value, schemas))
       && (oneOf.ExactlyOne? ==> ExactlyOneValid(j, oneOf.variants, schemas)))
  }

  predicate ExactlyOneValid(j: Json, list: seq<JsonSchema>, schemas: Schemas)
    decreases j, 1, list, 1
  {
    exists i :: 0 <= i < |list| && OnlyValid(j, list, i, schemas)
  }

  /** The `i`-th schema accepts the value, and no other does. */
  predicate OnlyValid(j: Json, list: seq<JsonSchema>, i: nat, schemas: Schemas)
    requires i < |list|
    decreases j, 1, list, 0
  {
    Valid(j, list[i], schemas) && forall k :: 0 <= k < |list| && k != i ==> !Valid(j, list[k], schemas)
  }

  /** The `type`, `required`, `properties` and `additionalProperties` keywords. */
  predicate ValidObject(j: Json, js: JsonSchema, schemas: Schemas)
    requires js.InlineSchema?
    decreases j, 0
  {
    && KindAccepts(js.kind, j)
    && (j.JObject? ==>
          && (js.required.Some? ==> forall n :: n in js.required.value ==> n in j.fields)
          && (js.additionalProperties == Some(false) ==> j.fields.Keys <= js.properties.Keys)
          && (forall k :: k in j.fields && k in js.properties ==> Valid(j.fields[k], js.properties[k], schemas)))
  }

  lemma NullableValid(j: Json, js: JsonSchema, schemas: Schemas)
    ensures Valid(j, WithNullable(js), schemas) <==> j.JNull? || Valid(j, js, schemas)
  {
  }

  lemma InlineValidExactly(j: Json, js: JsonSchema, schemas: Schemas)
    requires js.InlineSchema? && !js.nullable && js.enumValues.None? && js.items.None? && js.oneOf.Unrestricted?
    ensures Valid(j, js, schemas) <==> ValidObject(j, js, schemas)
  {
  }

  lemma ComponentValid(j: Json, r: string, cs: Components)
    requires r in cs
    ensures Valid(j, Component(r), ConvertedComponents(cs)) <==>
            ValidObject(j, ObjectSchema(cs[r].fields, cs[r].additionalPropertiesFalse), ConvertedComponents(cs))
  {
    var schemas := ConvertedComponents(cs);
    if Valid(j, Component(r), schemas) {
      var n :| n in schemas && COMPONENT_PREFIX + r == COMPONENT_PREFIX + n && ValidObject(j, schemas[n], schemas);
      SamePath(r, n);
    }
  }

  lemma RequiredListed(j: Json, ds: seq<Declared>, closed: bool)
    requires j.JObject?
    ensures (ObjectSchema(ds, closed).required.Some? ==>
             forall n :: n in ObjectSchema(ds, closed).required.value ==> n in j.fields)
            <==> forall n :: n in RequiredNames(ds) ==> n in j.fields
  {
  }

  // ----- What the document accepts, by the declared types -----

  predicate ScalarAdmitted(j: Json, name: string) {
    match name
    case "Int" => j.JNumber? && !j.n.FloatNumber?
    case "Float" => j.JNumber?
    case "Boolean" => j.JBool?
    case "Vector" => j.JArray? && forall i :: 0 <= i < |j.items| ==> j.items[i].JNumber?
    case "String" => j.JString?
    case "ID" => j.JString?
    case "Uuid" => j.JString?
    case "DateTime" => j.JString?
    case "LocalDateTime" => j.JString?
    case "LocalDate" => j.JString?
    case "LocalTime" => j.JString?
    case "Instant" => j.JString?
    case "Blob" => j.JString?
    case "Decimal" => j.JString?
    case _ => true
  }

  predicate Admitted(j: Json, s: TypeSchema, cs: Components)
    decreases j, 1, s
  {
    match s
    case Scalar(name) => ScalarAdmitted(j, name)
    case Enum(values) => j.JString? && j.s in values
    case Array(items) => j.JArray? && forall i :: 0 <= i < |j.items| ==> Admitted(j.items[i], items, cs)
    case Optional(inner) => j.JNull? || Admitted(j, inner, cs)
    case Object(r) => r in cs && j.JObject? && FieldsAdmitted(j, cs[r].fields, cs[r].additionalPropertiesFalse, cs)
    case OneOf(variants) => OneAdmits(j, variants, cs)
  }

  /** Exactly one of the alternatives admits the value. */
  predicate OneAdmits(j: Json, variants: seq<Variant>, cs: Components)
    decreases j, 1, variants, 1
  {
    exists i :: 0 <= i < |variants| && OnlyAdmits(j, variants, i, cs)
  }

  predicate OnlyAdmits(j: Json, variants: seq<Variant>, i: nat, cs: Components)
    requires i < |variants|
    decreases j, 1, variants, 0
  {
    VariantAdmits(j, variants[i], cs) &&
    forall k :: 0 <= k < |variants| && k != i ==> !VariantAdmits(j, variants[k], cs)
  }

  predicate VariantAdmits(j: Json, v: Variant, cs: Components)
    decreases j, 1, v
  {
    match v
    case RefTo(r) => r in cs && j.JObject? && FieldsAdmitted(j, cs[r].fields, cs[r].additionalPropertiesFalse, cs)
    case Inline(ds, required) => j.JObject? && PropertiesAdmitted(j, ds, required, cs)
  }

  /** The last declaration of its name. */
  predicate LastOf(ds: seq<Declared>, i: nat, k: string) {
    i < |ds| && ds[i].name == k && forall l :: i < l < |ds| ==> ds[l].name != k
  }

  /** All required fields are there, only declared ones if the type is closed, and each is admitted by the last
      declaration of its name, whose optionality does not count. */
  predicate FieldsAdmitted(j: Json, ds: seq<Declared>, closed: bool, cs: Components)
    requires j.JObject?
    decreases j, 0
  {
    && (forall i :: 0 <= i < |ds| && !ds[i].schema.Optional? ==> ds[i].name in j.fields)
    && (closed ==> forall k :: k in j.fields ==> HasDeclaration(ds, k))
    && (forall k :: k in j.fields ==> FieldAdmitted(j.fields[k], k, ds, cs))
  }

  predicate HasDeclaration(ds: seq<Declared>, k: string) {
    exists i :: 0 <= i < |ds| && ds[i].name == k
  }

  predicate FieldAdmitted(j: Json, k: string, ds: seq<Declared>, cs: Components)
    decreases j, 3
  {
    forall i :: 0 <= i < |ds| && LastOf(ds, i, k) ==> AdmittedIfGiven(j, ds[i].schema, cs)
  }

  predicate AdmittedIfGiven(j: Json, s: TypeSchema, cs: Components)
    decreases j, 2
  {
    match s
    case Optional(inner) => Admitted(j, inner, cs)
    case _ => Admitted(j, s, cs)
  }

  predicate PropertiesAdmitted(j: Json, ds: seq<Declared>, required: seq<string>, cs: Components)
    requires j.JObject?
    decreases j, 0
  {
    && (forall n :: n in required ==> n in j.fields)
    && (forall k :: k in j.fields ==> HasDeclaration(ds, k))
    && (forall k :: k in j.fields ==> PropertyAdmitted(j.fields[k], k, ds, cs))
  }

  predicate PropertyAdmitted(j: Json, k: string, ds: seq<Declared>, cs: Components)
    decreases j, 3
  {
    forall i :: 0 <= i < |ds| && LastOf(ds, i, k) ==> Admitted(j, ds[i].schema, cs)
  }

  lemma LastOfExactly(ds: seq<Declared>, i: nat, k: string)
    ensures LastOf(ds, i, k) <==> k in Names(ds) && i == Last(ds, k)
  {
    if k in Names(ds) {
      var t := Last(ds, k);
      forall l | t < l < |ds| ensures ds[l].name != k { assert ds[t + 1..][l - t - 1] == ds[l]; }
    }
  }

  /** The document accepts exactly the admitted values. */
  lemma {:induction false} ValidAdmitted(j: Json, s: TypeSchema, cs: Components)
    ensures Valid(j, ConvertType(s), ConvertedComponents(cs)) <==> Admitted(j, s, cs)
    decreases j, 1, s
  {
    var schemas := ConvertedComponents(cs);
    match s
    case Scalar(name) => ScalarValid(j, name, schemas);
    case Enum(_) =>
    case Array(items) =>
      if j.JArray? {
        forall i | 0 <= i < |j.items|
          ensures Valid(j.items[i], ConvertType(items), schemas) <==> Admitted(j.items[i], items, cs)
        {
          ValidAdmitted(j.items[i], items, cs);
        }
      }
    case Optional(inner) =>
      NullableValid(j, ConvertType(inner), schemas);
      ValidAdmitted(j, inner, cs);
    case Object(r) => ComponentAdmitted(j, r, cs);
    case OneOf(variants) =>
      forall i | 0 <= i < |variants|
        ensures Valid(j, ConvertVariant(variants[i]), schemas) <==> VariantAdmits(j, variants[i], cs)
      {
        ValidVariant(j, variants[i], cs);
      }
      OneOfValid(j, variants, cs);
  }

  lemma ScalarValid(j: Json, name: string, schemas: Schemas)
    ensures Valid(j, ConvertScalar(name), schemas) <==> ScalarAdmitted(j, name)
  {
    if name == "Vector" {
      VectorValid(j, schemas);
    } else {
      var js := ConvertScalar(name);
      assert js.items.None? && js.properties == map[] && js.required.None? && js.additionalProperties.None?;
      InlineValidExactly(j, js, schemas);
    }
  }

  lemma VectorValid(j: Json, schemas: Schemas)
    ensures Valid(j, ConvertScalar("Vector"), schemas) <==> ScalarAdmitted(j, "Vector")
  {
    if j.JArray? {
      forall i | 0 <= i < |j.items| ensures Valid(j.items[i], OfKind("number"), schemas) <==> j.items[i].JNumber? {}
    }
  }

  lemma {:induction false} OneOfValid(j: Json, variants: seq<Variant>, cs: Components)
    requires forall i :: 0 <= i < |variants| ==>
               (Valid(j, ConvertVariant(variants[i]), ConvertedComponents(cs)) <==> VariantAdmits(j, variants[i], cs))
    ensures Valid(j, ConvertType(OneOf(variants)), ConvertedComponents(cs)) <==> OneAdmits(j, variants, cs)
  {
    if |variants| == 1 {
      assert OnlyAdmits(j, variants, 0, cs) <==> VariantAdmits(j, variants[0], cs);
    } else {
      var list, schemas := ConvertType(OneOf(variants)).oneOf.variants, ConvertedComponents(cs);
      forall i | 0 <= i < |variants| ensures OnlyValid(j, list, i, schemas) <==> OnlyAdmits(j, variants, i, cs) {
        assert forall k :: 0 <= k < |variants| ==> list[k] == ConvertVariant(variants[k]);
      }
      OneOfSchemasValid(j, list, schemas);
    }
  }

  lemma {:induction false} OneOfSchemasValid(j: Json, list: seq<JsonSchema>, schemas: Schemas)
    ensures Valid(j, OneOfSchemas(list), schemas) <==> ExactlyOneValid(j, list, schemas)
  {
    assert ValidObject(j, OneOfSchemas(list), schemas);
  }

  lemma OneAdmitsObject(j: Json, variants: seq<Variant>, cs: Components)
    requires OneAdmits(j, variants, cs)
    ensures j.JObject?
  {
    var i :| 0 <= i < |variants| && OnlyAdmits(j, variants, i, cs);
    assert VariantAdmits(j, variants[i], cs);
  }

  lemma {:induction false} ValidVariant(j: Json, v: Variant, cs: Components)
    ensures Valid(j, ConvertVariant(v), ConvertedComponents(cs)) <==> VariantAdmits(j, v, cs)
    decreases j, 1, v
  {
    match v
    case RefTo(r) => ComponentAdmitted(j, r, cs);
    case Inline(ds, required) =>
      InlineValidExactly(j, ConvertVariant(v), ConvertedComponents(cs));
      if j.JObject? { ValidProperties(j, ds, required, cs); }
  }

  lemma {:induction false} ValidProperties(j: Json, ds: seq<Declared>, required: seq<string>, cs: Components)
    requires j.JObject?
    ensures ValidObject(j, ConvertVariant(Inline(ds, required)), ConvertedComponents(cs)) <==>
            PropertiesAdmitted(j, ds, required, cs)
    decreases j, 0
  {
    var js := ConvertVariant(Inline(ds, required));
    forall k | k in j.fields
      ensures HasDeclaration(ds, k) <==> k in Names(ds)
      ensures k in Names(ds) ==>
                (Valid(j.fields[k], js.properties[k], ConvertedComponents(cs)) <==>
                 PropertyAdmitted(j.fields[k], k, ds, cs))
    {
      if k in Names(ds) {
        ValidAdmitted(j.fields[k], ds[Last(ds, k)].schema, cs);
        LastProperty(j.fields[k], k, ds, cs);
      }
    }
  }

  lemma {:induction false} LastProperty(j: Json, k: string, ds: seq<Declared>, cs: Components)
    requires k in Names(ds)
    ensures PropertyAdmitted(j, k, ds, cs) <==> Admitted(j, ds[Last(ds, k)].schema, cs)
    ensures FieldAdmitted(j, k, ds, cs) <==> Admitted(j, Unwrapped(ds[Last(ds, k)].schema), cs)
  {
    forall i: nat ensures LastOf(ds, i, k) <==> i == Last(ds, k) { LastOfExactly(ds, i, k); }
    assert LastOf(ds, Last(ds, k), k);
  }

  lemma {:induction false} ComponentAdmitted(j: Json, r: string, cs: Components)
    ensures Valid(j, Component(r), ConvertedComponents(cs)) <==>
            r in cs && j.JObject? && FieldsAdmitted(j, cs[r].fields, cs[r].additionalPropertiesFalse, cs)
    decreases j, 0, 1
  {
    if r in cs {
      ComponentValid(j, r, cs);
      if j.JObject? { ValidFields(j, cs[r].fields, cs[r].additionalPropertiesFalse, cs); }
    } else {
      NoComponent(j, r, cs);
    }
  }

  lemma NoComponent(j: Json, r: string, cs: Components)
    requires r !in cs
    ensures !Valid(j, Component(r), ConvertedComponents(cs))
  {
    var schemas := ConvertedComponents(cs);
    if Valid(j, Component(r), schemas) {
      var n :| n in schemas && COMPONENT_PREFIX + r == COMPONENT_PREFIX + n && ValidObject(j, schemas[n], schemas);
      SamePath(r, n);
    }
  }

  lemma {:induction false} ValidFields(j: Json, ds: seq<Declared>, closed: bool, cs: Components)
    requires j.JObject?
    ensures ValidObject(j, ObjectSchema(ds, closed), ConvertedComponents(cs)) <==> FieldsAdmitted(j, ds, closed, cs)
    decreases j, 0, 0
  {
    var js := ObjectSchema(ds, closed);
    RequiredListed(j, ds, closed);
    forall k | k in j.fields
      ensures HasDeclaration(ds, k) <==> k in Names(ds)
      ensures if k in Names(ds) then
                Valid(j.fields[k], js.properties[k], ConvertedComponents(cs)) <==> FieldAdmitted(j.fields[k], k, ds, cs)
              else FieldAdmitted(j.fields[k], k, ds, cs)
    {
      if k in Names(ds) {
        ValidAdmitted(j.fields[k], Unwrapped(ds[Last(ds, k)].schema), cs);
        LastProperty(j.fields[k], k, ds, cs);
      } else {
        NoLast(j.fields[k], k, ds, cs);
      }
    }
  }

  lemma {:induction false} NoLast(j: Json, k: string, ds: seq<Declared>, cs: Components)
    requires k !in Names(ds)
    ensures FieldAdmitted(j, k, ds, cs)
  {
  }
}
