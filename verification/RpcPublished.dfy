/** What the published document accepts against what parsing accepts. */
module RpcPublished {
  import opened Wrappers
  import opened Values
  import opened RpcSchema
  import opened RpcParsing
  import opened RpcParams
  import opened RpcDocument
  import opened RpcDocumentTheorems
  import opened RpcAdmitted

  // ----- Which schemas and values are in question -----

  /** The scalars whose published schema says no more than the parser takes. */
  predicate PublishedScalar(name: string) {
    ConvertScalar(name) != ANY && name != "Vector"
  }

  predicate Published(s: TypeSchema)
    decreases s
  {
    match s
    case Scalar(name) => PublishedScalar(name)
    case Array(items) => Published(items)
    case Optional(inner) => Published(inner)
    case _ => true
  }

  predicate PublishedEach(ds: seq<Declared>) {
    Distinct(ds) && forall i :: 0 <= i < |ds| ==> Published(ds[i].schema)
  }

  predicate PublishedComponents(cs: Components) {
    forall n :: n in cs ==> PublishedEach(cs[n].fields)
  }

  /** No object of a component type has an undeclared field. */
  predicate OnlyDeclared(j: Json, s: TypeSchema, cs: Components)
    decreases j, 1, s
  {
    match s
    case Optional(inner) => OnlyDeclared(j, inner, cs)
    case Array(items) => j.JArray? ==> forall i :: 0 <= i < |j.items| ==> OnlyDeclared(j.items[i], items, cs)
    case Object(r) => j.JObject? && r in cs ==> OnlyDeclaredFields(j, cs[r].fields, cs)
    case _ => true
  }

  predicate OnlyDeclaredFields(j: Json, ds: seq<Declared>, cs: Components)
    requires j.JObject?
    decreases j, 0
  {
    forall k :: k in j.fields ==> k in Names(ds) && OnlyDeclared(j.fields[k], ds[Taker(ds, k)].schema, cs)
  }

  // ----- The theorem -----

  /** Under which scalars a valid value is always parsed: exactly the published ones. */
  lemma ScalarPublished(name: string, schemas: Schemas)
    ensures PublishedScalar(name) <==>
            forall j :: Valid(j, ConvertScalar(name), schemas) && IntegersFit(j) ==> ScalarConforms(j, name)
  {
    if !PublishedScalar(name) {
      assert name != "Int" && name != "Float" && name != "Boolean" && name != "Decimal";
      var j := JArray([]);
      assert IntegersFit(j) && Valid(j, ConvertScalar(name), schemas) && !ScalarConforms(j, name);
    }
  }

  /** A value that the document accepts and parsing takes, too: its integers fit where they are expected, strings or
      numbers stand for scalars without a schema of their own, and all fields are declared. */
  predicate Parsable(j: Json, s: TypeSchema, cs: Components)
    decreases j, 1, s
  {
    match s
    case Optional(inner) => j.JNull? || Parsable(j, inner, cs)
    case Scalar(name) => ScalarParsable(j, name)
    case Array(items) => j.JArray? ==> forall i :: 0 <= i < |j.items| ==> Parsable(j.items[i], items, cs)
    case Object(r) => j.JObject? && r in cs ==> ParsableFields(j, cs[r].fields, cs)
    case Enum(_) => true
    case OneOf(_) => true
  }

  predicate ScalarParsable(j: Json, name: string) {
    if name == "Int" then j.JNumber? && j.n.PosInt? ==> j.n.u <= I64_MAX
    else PublishedScalar(name) || j.JString? || j.JNumber?
  }

  predicate ParsableFields(j: Json, ds: seq<Declared>, cs: Components)
    requires j.JObject?
    decreases j, 0
  {
    forall k :: k in j.fields ==> k in Names(ds) && Parsable(j.fields[k], ds[Taker(ds, k)].schema, cs)
  }

  /** Of the values that the document accepts, exactly the parsable ones are parsed. */
  lemma {:induction false} ValidConforms(j: Json, s: TypeSchema, cs: Components)
    requires Valid(j, ConvertType(s), ConvertedComponents(cs)) && DistinctComponents(cs)
    ensures Conforms(j, s, cs) <==> Parsable(j, s, cs)
    decreases j, 1, s
  {
    var schemas := ConvertedComponents(cs);
    ValidAdmitted(j, s, cs);
    match s
    case Scalar(name) =>
    case Enum(_) =>
    case OneOf(variants) => OneAdmitsObject(j, variants, cs);
    case Optional(inner) =>
      NullableValid(j, ConvertType(inner), schemas);
      if !j.JNull? { ValidConforms(j, inner, cs); }
    case Array(items) =>
      forall i | 0 <= i < |j.items| ensures Conforms(j.items[i], items, cs) <==> Parsable(j.items[i], items, cs) {
        ValidConforms(j.items[i], items, cs);
      }
    case Object(r) =>
      ComponentValid(j, r, cs);
      FieldsValid(j, cs[r].fields, cs[r].additionalPropertiesFalse, cs);
  }

  lemma {:induction false} FieldsValid(j: Json, ds: seq<Declared>, closed: bool, cs: Components)
    requires j.JObject? && ValidObject(j, ObjectSchema(ds, closed), ConvertedComponents(cs))
    requires Distinct(ds) && DistinctComponents(cs)
    ensures FieldsConform(j, ds, cs) <==> ParsableFields(j, ds, cs)
    decreases j, 0
  {
    forall k | k in j.fields && k in Names(ds)
      ensures Conforms(j.fields[k], ds[Taker(ds, k)].schema, cs) <==> Parsable(j.fields[k], ds[Taker(ds, k)].schema, cs)
    {
      LastIs(ds, Taker(ds, k));
      FieldValid(j.fields[k], ds[Taker(ds, k)].schema, cs);
    }
  }

  lemma {:induction false} FieldValid(j: Json, s: TypeSchema, cs: Components)
    requires Valid(j, ConvertType(Unwrapped(s)), ConvertedComponents(cs)) && DistinctComponents(cs)
    ensures Conforms(j, s, cs) <==> Parsable(j, s, cs)
    decreases j, 2
  {
    ValidConforms(j, Unwrapped(s), cs);
  }

  /** Sufficient: all scalars have a schema of their own, all integers fit i64 and all fields are declared. */
  lemma {:induction false} PublishedParsable(j: Json, s: TypeSchema, cs: Components)
    requires Published(s) && PublishedComponents(cs) && IntegersFit(j) && OnlyDeclared(j, s, cs)
    ensures Parsable(j, s, cs)
    decreases j, 1, s
  {
    match s
    case Optional(inner) => PublishedParsable(j, inner, cs);
    case Array(items) =>
      if j.JArray? {
        forall i | 0 <= i < |j.items| ensures Parsable(j.items[i], items, cs) {
          PublishedParsable(j.items[i], items, cs);
        }
      }
    case Object(r) =>
      if j.JObject? && r in cs {
        assert PublishedEach(cs[r].fields);
        PublishedFields(j, cs[r].fields, cs);
      }
    case _ =>
  }

  lemma {:induction false} PublishedFields(j: Json, ds: seq<Declared>, cs: Components)
    requires j.JObject? && PublishedEach(ds) && PublishedComponents(cs)
    requires IntegersFit(j) && OnlyDeclaredFields(j, ds, cs)
    ensures ParsableFields(j, ds, cs)
    decreases j, 0
  {
    forall k | k in j.fields ensures Parsable(j.fields[k], ds[Taker(ds, k)].schema, cs) {
      PublishedParsable(j.fields[k], ds[Taker(ds, k)].schema, cs);
    }
  }

  // ----- The two forms of a method's parameters -----

  /** Arguments by name against a list of descriptors. */
  predicate ValidByName(fields: map<string, Json>, list: seq<Descriptor>, schemas: Schemas) {
    && (forall i :: 0 <= i < |list| && list[i].required ==> list[i].name in fields)
    && (forall i :: 0 <= i < |list| && list[i].name in fields ==> Valid(fields[list[i].name], list[i].schema, schemas))
  }

  /** Every parameter is listed with the schema that the object gives it. */
  predicate ListedAlike(list: seq<Descriptor>, ds: seq<Declared>, properties: map<string, JsonSchema>) {
    && |list| == |ds|
    && forall i :: 0 <= i < |ds| ==>
         && list[i] == DescriptorOf(ds[i])
         && ds[i].name in properties
         && properties[ds[i].name] == list[i].schema
  }

  lemma Listed(m: RpcMethod)
    requires Distinct(m.params)
    ensures ListedAlike(ConvertedMethod(m, OpenRpc).params.list, m.params, ConvertedProperties(m.params))
  {
    var ds := m.params;
    forall i | 0 <= i < |ds| ensures Last(ds, ds[i].name) == i { LastIs(ds, i); }
  }

  /** Where no parameter repeats a name, the two forms of a method's parameters accept the same calls. */
  lemma FormsAgree(fields: map<string, Json>, m: RpcMethod, schemas: Schemas)
    requires Distinct(m.params)
    ensures ValidByName(fields, ConvertedMethod(m, OpenRpc).params.list, schemas) <==>
            Valid(JObject(fields), ConvertedMethod(m, Mcp).params.schema, schemas)
  {
    Listed(m);
    ListedForms(fields, m.params, ConvertedMethod(m, OpenRpc).params.list, schemas);
  }

  lemma ListedForms(fields: map<string, Json>, ds: seq<Declared>, list: seq<Descriptor>, schemas: Schemas)
    requires ListedAlike(list, ds, ConvertedProperties(ds))
    ensures ValidByName(fields, list, schemas) <==> Valid(JObject(fields), ObjectSchema(ds, false), schemas)
  {
    var js := ObjectSchema(ds, false);
    InlineValidExactly(JObject(fields), js, schemas);
    if ValidObject(JObject(fields), js, schemas) { ObjectByName(fields, ds, list, schemas); }
    if ValidByName(fields, list, schemas) { ByNameObject(fields, ds, list, schemas); }
  }

  lemma ObjectByName(fields: map<string, Json>, ds: seq<Declared>, list: seq<Descriptor>, schemas: Schemas)
    requires ValidObject(JObject(fields), ObjectSchema(ds, false), schemas)
    requires ListedAlike(list, ds, ConvertedProperties(ds))
    ensures ValidByName(fields, list, schemas)
  {
    forall i | 0 <= i < |list| && list[i].required ensures list[i].name in fields {
      assert ds[i].name in RequiredNames(ds);
    }
  }

  lemma ByNameObject(fields: map<string, Json>, ds: seq<Declared>, list: seq<Descriptor>, schemas: Schemas)
    requires ValidByName(fields, list, schemas) && ListedAlike(list, ds, ConvertedProperties(ds))
    ensures ValidObject(JObject(fields), ObjectSchema(ds, false), schemas)
  {
    var js := ObjectSchema(ds, false);
    forall k | k in fields && k in js.properties ensures Valid(fields[k], js.properties[k], schemas) {
      var i := Last(ds, k);
      assert list[i].name == k;
    }
    forall n | n in RequiredNames(ds) ensures n in fields {
      var i :| 0 <= i < |ds| && ds[i].name == n && Required(ds[i]);
      assert list[i].required && list[i].name == n;
    }
  }

  /** Of the calls that satisfy the published parameters, in either form, exactly the parsable ones are accepted. */
  lemma ValidCallAccepted(fields: map<string, Json>, m: RpcMethod, cs: Components)
    requires || Valid(JObject(fields), ConvertedMethod(m, Mcp).params.schema, ConvertedComponents(cs))
             || ValidByName(fields, ConvertedMethod(m, OpenRpc).params.list, ConvertedComponents(cs))
    requires Distinct(m.params) && DistinctComponents(cs)
    ensures ParamsConform(Some(JObject(fields)), m, cs) <==> ParsableFields(JObject(fields), m.params, cs)
  {
    var j, js, schemas := JObject(fields), ObjectSchema(m.params, false), ConvertedComponents(cs);
    FormsAgree(fields, m, schemas);
    assert ConvertedMethod(m, Mcp).params.schema == js;
    InlineValidExactly(j, js, schemas);
    FieldsValid(j, m.params, false, cs);
    RequiredSupplied(j, m.params, schemas);
    SuppliedConforms(fields, m, cs);
  }

  // ----- Which accepted values are valid in the document -----

  /** The document admits null for it. */
  predicate NullAdmitted(s: TypeSchema) {
    s.Optional? || (s.Scalar? && ConvertScalar(s.name) == ANY)
  }

  /** An accepted value that the document admits, too: strings where it says so, all required fields, and no null for an
      optional field.  Of alternatives, that exactly one admits it: parsing takes any object for them. */
  predicate Strict(j: Json, s: TypeSchema, cs: Components)
    decreases j, 1, s
  {
    match s
    case Optional(inner) => j.JNull? || Strict(j, inner, cs)
    case Scalar(name) => name != "Vector" && (ConvertScalar(name).kind == Some("string") ==> j.JString?)
    case Enum(_) => true
    case Array(items) => j.JArray? ==> forall i :: 0 <= i < |j.items| ==> Strict(j.items[i], items, cs)
    case Object(r) => j.JObject? && r in cs ==> StrictFields(j, cs[r].fields, cs)
    case OneOf(variants) => OneAdmits(j, variants, cs)
  }

  predicate StrictFields(j: Json, ds: seq<Declared>, cs: Components)
    requires j.JObject?
    decreases j, 0
  {
    && (forall n :: n in RequiredNames(ds) ==> n in j.fields)
    && (forall k :: k in j.fields && k in Names(ds) ==> StrictField(j.fields[k], ds[Taker(ds, k)].schema, cs))
  }

  /** The document takes the optionality off the schema of a field. */
  predicate StrictField(j: Json, s: TypeSchema, cs: Components)
    decreases j, 2
  {
    if j.JNull? && s.Optional? then NullAdmitted(Unwrapped(s)) else Strict(j, Unwrapped(s), cs)
  }

  predicate DistinctComponents(cs: Components) {
    forall n :: n in cs ==> Distinct(cs[n].fields)
  }

  lemma {:induction false} NullValid(s: TypeSchema, cs: Components)
    ensures Valid(JNull, ConvertType(s), ConvertedComponents(cs)) <==> NullAdmitted(s)
  {
    ValidAdmitted(JNull, s, cs);
    match s
    case Scalar(name) => NullScalar(name);
    case OneOf(variants) => if OneAdmits(JNull, variants, cs) { OneAdmitsObject(JNull, variants, cs); }
    case _ =>
  }

  lemma NullScalar(name: string)
    ensures ScalarAdmitted(JNull, name) <==> ConvertScalar(name) == ANY
  {
    if ConvertScalar(name) != ANY { assert ConvertScalar(name).kind.Some?; }
  }

  /** Of the values that are parsed, exactly the strict ones are valid in the document. */
  lemma {:induction false} AcceptedValid(j: Json, s: TypeSchema, cs: Components)
    requires Conforms(j, s, cs) && DistinctComponents(cs)
    ensures Valid(j, ConvertType(s), ConvertedComponents(cs)) <==> Strict(j, s, cs)
    decreases j, 1, s
  {
    var schemas := ConvertedComponents(cs);
    match s
    case Optional(inner) =>
      NullableValid(j, ConvertType(inner), schemas);
      if !j.JNull? { AcceptedValid(j, inner, cs); }
    case Array(items) =>
      forall i | 0 <= i < |j.items|
        ensures Valid(j.items[i], ConvertType(items), schemas) <==> Strict(j.items[i], items, cs)
      {
        AcceptedValid(j.items[i], items, cs);
      }
    case Object(r) =>
      ComponentValid(j, r, cs);
      AcceptedFieldsValid(j, cs[r].fields, cs[r].additionalPropertiesFalse, cs);
    case Scalar(name) => AcceptedScalar(j, name, schemas);
    case OneOf(_) => ValidAdmitted(j, s, cs);
    case Enum(_) =>
  }

  lemma AcceptedScalar(j: Json, name: string, schemas: Schemas)
    requires ScalarConforms(j, name)
    ensures Valid(j, ConvertScalar(name), schemas) <==>
            name != "Vector" && (ConvertScalar(name).kind == Some("string") ==> j.JString?)
  {
  }

  lemma {:induction false} AcceptedFieldsValid(j: Json, ds: seq<Declared>, closed: bool, cs: Components)
    requires j.JObject? && FieldsConform(j, ds, cs) && Distinct(ds) && DistinctComponents(cs)
    ensures ValidObject(j, ObjectSchema(ds, closed), ConvertedComponents(cs)) <==> StrictFields(j, ds, cs)
    decreases j, 0
  {
    var js, schemas := ObjectSchema(ds, closed), ConvertedComponents(cs);
    forall k | k in j.fields
      ensures k in Names(ds) && k in js.properties
      ensures Valid(j.fields[k], js.properties[k], schemas) <==> StrictField(j.fields[k], ds[Taker(ds, k)].schema, cs)
    {
      LastIs(ds, Taker(ds, k));
      AcceptedField(j.fields[k], ds[Taker(ds, k)].schema, cs);
    }
    RequiredListed(j, ds, closed);
  }

  lemma {:induction false} AcceptedField(j: Json, s: TypeSchema, cs: Components)
    requires Conforms(j, s, cs) && DistinctComponents(cs)
    ensures Valid(j, ConvertType(Unwrapped(s)), ConvertedComponents(cs)) <==> StrictField(j, s, cs)
    decreases j, 2
  {
    if j.JNull? && s.Optional? {
      NullValid(s.inner, cs);
    } else {
      AcceptedValid(j, Unwrapped(s), cs);
    }
  }

  /** Of the calls that are accepted, exactly the strict ones satisfy the published parameters, in either form. */
  lemma AcceptedCallValid(fields: map<string, Json>, m: RpcMethod, cs: Components)
    requires ParamsConform(Some(JObject(fields)), m, cs) && Distinct(m.params) && DistinctComponents(cs)
    ensures Valid(JObject(fields), ConvertedMethod(m, Mcp).params.schema, ConvertedComponents(cs)) <==>
            StrictFields(JObject(fields), m.params, cs)
    ensures ValidByName(fields, ConvertedMethod(m, OpenRpc).params.list, ConvertedComponents(cs)) <==>
            StrictFields(JObject(fields), m.params, cs)
  {
    var js := ObjectSchema(m.params, false);
    assert ConvertedMethod(m, Mcp).params.schema == js;
    InlineValidExactly(JObject(fields), js, ConvertedComponents(cs));
    AcceptedFieldsValid(JObject(fields), m.params, false, cs);
    FormsAgree(fields, m, ConvertedComponents(cs));
  }

  lemma SuppliedConforms(fields: map<string, Json>, m: RpcMethod, cs: Components)
    requires NoneMissing(JObject(fields), m.params, |m.params|)
    ensures ParamsConform(Some(JObject(fields)), m, cs) <==> FieldsConform(JObject(fields), m.params, cs)
  {
  }

  lemma RequiredSupplied(j: Json, ds: seq<Declared>, schemas: Schemas)
    requires j.JObject? && Distinct(ds) && ValidObject(j, ObjectSchema(ds, false), schemas)
    ensures NoneMissing(j, ds, |ds|)
  {
    TakesByName(j, ds);
    forall i | 0 <= i < |ds| && Required(ds[i]) ensures Takes(j, ds, i) {
      assert ds[i].name in RequiredNames(ds);
    }
  }

  /** Leaving out a field that the document marks required makes the object invalid, yet it is parsed. */
  lemma FieldRequirementUnenforced(j: Json, r: string, cs: Components, name: string)
    requires j.JObject? && Conforms(j, Object(r), cs) && Valid(j, Component(r), ConvertedComponents(cs))
    ensures Conforms(JObject(j.fields - {name}), Object(r), cs)
    ensures Valid(JObject(j.fields - {name}), Component(r), ConvertedComponents(cs)) <==>
            name !in RequiredNames(cs[r].fields)
  {
    OmittedField(j, r, cs, name);
    ComponentValid(j, r, cs);
    ComponentValid(JObject(j.fields - {name}), r, cs);
    RequiredDropped(j, cs[r].fields, cs[r].additionalPropertiesFalse, ConvertedComponents(cs), name);
  }

  lemma RequiredDropped(j: Json, ds: seq<Declared>, closed: bool, schemas: Schemas, name: string)
    requires j.JObject? && ValidObject(j, ObjectSchema(ds, closed), schemas)
    ensures ValidObject(JObject(j.fields - {name}), ObjectSchema(ds, closed), schemas) <==> name !in RequiredNames(ds)
  {
    var js := ObjectSchema(ds, closed);
    if name in RequiredNames(ds) { assert name in js.required.value; }
  }

  /** Parsing refuses every undeclared field, whatever the document says of it. */
  lemma {:induction false} ConformingIsDeclared(j: Json, s: TypeSchema, cs: Components)
    requires Conforms(j, s, cs)
    ensures OnlyDeclared(j, s, cs)
    decreases j, 1, s
  {
    match s
    case Optional(inner) => if !j.JNull? { ConformingIsDeclared(j, inner, cs); } else { NullDeclared(j, inner, cs); }
    case Array(items) =>
      forall i | 0 <= i < |j.items| ensures OnlyDeclared(j.items[i], items, cs) {
        ConformingIsDeclared(j.items[i], items, cs);
      }
    case Object(r) =>
      var ds := cs[r].fields;
      forall k | k in j.fields ensures OnlyDeclared(j.fields[k], ds[Taker(ds, k)].schema, cs) {
        ConformingIsDeclared(j.fields[k], ds[Taker(ds, k)].schema, cs);
      }
    case _ =>
  }

  lemma {:induction false} NullDeclared(j: Json, s: TypeSchema, cs: Components)
    requires j.JNull?
    ensures OnlyDeclared(j, s, cs)
    decreases s
  {
    if s.Optional? { NullDeclared(j, s.inner, cs); }
  }
}
