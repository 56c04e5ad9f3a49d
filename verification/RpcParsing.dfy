/** Parsing raw JSON parameters against a method's schema: what conforms, and what it becomes. */
module RpcParsing {
  import opened Wrappers
  import opened Values
  import opened RpcSchema

  /** A step from a value into one of its parts. */
  datatype Step = Field(name: string) | Index(i: nat)

  type Path = seq<Step>

  datatype Complaint =
    | TypeMismatch
    | InvalidEnumValue
    | UnresolvedType
    | UnknownFields(names: set<string>)

  datatype ParseError =
    | TakesNoParameters
    | NotAnObject
    | MissingRequiredParameter(name: string)
    | UnknownParameters(names: set<string>)
    | AtValue(path: Path, what: Complaint)

  // ----- What conforms -----

  predicate ScalarConforms(j: Json, name: string) {
    match name
    case "Int" => j.JNumber? && AsI64(j.n).Some?
    case "Float" => j.JNumber?
    case "Boolean" => j.JBool?
    case _ => j.JString? || j.JNumber?
  }

  predicate Conforms(j: Json, s: TypeSchema, cs: Components)
    decreases j, 1, s
  {
    match s
    case Optional(inner) => j.JNull? || Conforms(j, inner, cs)
    case Scalar(name) => ScalarConforms(j, name)
    case Enum(values) => j.JString? && j.s in values
    case Object(r) => r in cs && j.JObject? && FieldsConform(j, cs[r].fields, cs)
    case OneOf(_) => j.JObject?
    case Array(items) => j.JArray? && forall i :: 0 <= i < |j.items| ==> Conforms(j.items[i], items, cs)
  }

  /** Every key is declared, and its value conforms to the declaration that takes it. */
  predicate FieldsConform(j: Json, ds: seq<Declared>, cs: Components)
    requires j.JObject?
    decreases j, 0
  {
    forall k :: k in j.fields ==> k in Names(ds) && Conforms(j.fields[k], ds[Taker(ds, k)].schema, cs)
  }

  // ----- What a conforming value becomes -----

  function TagScalar(j: Json, name: string, text: Number -> string): Val
    requires ScalarConforms(j, name)
  {
    match name
    case "Int" => VNumber(I64(AsI64(j.n).value))
    case "Float" => VNumber(F64(AsF64(j.n)))
    case "Decimal" => VString(if j.JString? then j.s else text(j.n))
    case "Boolean" => VBool(j.b)
    case _ => JsonToVal(j)
  }

  /** `text` prints a number, for decimals given as numbers. */
  function Tag(j: Json, s: TypeSchema, cs: Components, text: Number -> string): Val
    requires Conforms(j, s, cs)
    decreases j, 1, s
  {
    match s
    case Optional(inner) => if j.JNull? then VNull else Tag(j, inner, cs, text)
    case Scalar(name) => TagScalar(j, name, text)
    case Enum(_) => VEnum(j.s)
    case Object(r) => VObject(TagFields(j, cs[r].fields, cs, text))
    case OneOf(_) => JsonToVal(j)
    case Array(items) => VList(seq(|j.items|, i requires 0 <= i < |j.items| => Tag(j.items[i], items, cs, text)))
  }

  function TagFields(j: Json, ds: seq<Declared>, cs: Components, text: Number -> string): (vals: map<string, Val>)
    requires j.JObject? && FieldsConform(j, ds, cs)
    ensures vals.Keys == j.fields.Keys
    decreases j, 0
  {
    map k | k in j.fields :: Tag(j.fields[k], ds[Taker(ds, k)].schema, cs, text)
  }

  // ----- Why a value is refused -----

  /** The value itself, not one of its parts, is refused. */
  predicate Refused(j: Json, s: TypeSchema, cs: Components, what: Complaint) {
    match s
    case Optional(_) => false
    case Scalar(name) => !ScalarConforms(j, name) && what == TypeMismatch
    case Enum(values) => if j.JString? then j.s !in values && what == InvalidEnumValue else what == TypeMismatch
    case OneOf(_) => !j.JObject? && what == TypeMismatch
    case Array(_) => !j.JArray? && what == TypeMismatch
    case Object(r) =>
      if r !in cs then what == UnresolvedType
      else if !j.JObject? then what == TypeMismatch
      else
        var unknown := j.fields.Keys - Names(cs[r].fields);
        unknown != {} && what == UnknownFields(unknown) && KnownFieldsConform(j, cs[r].fields, |cs[r].fields|, cs)
  }

  /** The `i`-th declaration takes a key of the object. */
  predicate Takes(j: Json, ds: seq<Declared>, i: nat)
    requires j.JObject? && i < |ds|
  {
    ds[i].name in j.fields && ds[i].name !in Names(ds[..i])
  }

  /** The fields taken by the first `n` declarations conform. */
  predicate KnownFieldsConform(j: Json, ds: seq<Declared>, n: nat, cs: Components)
    requires j.JObject? && n <= |ds|
  {
    forall i :: 0 <= i < n && Takes(j, ds, i) ==> Conforms(j.fields[ds[i].name], ds[i].schema, cs)
  }

  lemma AllKnownConform(j: Json, ds: seq<Declared>, cs: Components)
    requires j.JObject?
    ensures FieldsConform(j, ds, cs) <==> j.fields.Keys <= Names(ds) && KnownFieldsConform(j, ds, |ds|, cs)
  {
    if FieldsConform(j, ds, cs) {
      forall i | 0 <= i < |ds| && Takes(j, ds, i) ensures Conforms(j.fields[ds[i].name], ds[i].schema, cs) {
        TakerIs(ds, i);
      }
    }
    if j.fields.Keys <= Names(ds) && KnownFieldsConform(j, ds, |ds|, cs) {
      forall k | k in j.fields ensures Conforms(j.fields[k], ds[Taker(ds, k)].schema, cs) {
        assert Takes(j, ds, Taker(ds, k));
      }
    }
  }

  /** The first problem of the value is at the path. */
  predicate Blamed(j: Json, s: TypeSchema, cs: Components, path: Path, what: Complaint)
    decreases j, 1, s
  {
    match s
    case Optional(inner) => !j.JNull? && Blamed(j, inner, cs, path, what)
    case Array(items) =>
      if path == [] then Refused(j, s, cs, what)
      else
        j.JArray? && path[0].Index? && path[0].i < |j.items| &&
        (forall i :: 0 <= i < path[0].i ==> Conforms(j.items[i], items, cs)) &&
        Blamed(j.items[path[0].i], items, cs, path[1..], what)
    case Object(r) =>
      if path == [] then Refused(j, s, cs, what)
      else r in cs && j.JObject? && FieldBlamed(j, cs[r].fields, cs, path, what)
    case _ => path == [] && Refused(j, s, cs, what)
  }

  /** The first declaration whose value has a problem takes the key the path starts with. */
  predicate FieldBlamed(j: Json, ds: seq<Declared>, cs: Components, path: Path, what: Complaint)
    requires j.JObject?
    decreases j, 0
  {
    path != [] && path[0].Field? && path[0].name in j.fields && path[0].name in Names(ds) &&
    var i := Taker(ds, path[0].name);
    KnownFieldsConform(j, ds, i, cs) && Blamed(j.fields[path[0].name], ds[i].schema, cs, path[1..], what)
  }

  // ----- Parsing a value -----

  method ParseScalar(j: Json, name: string, path: Path, text: Number -> string) returns (r: Result<Val, ParseError>)
    ensures if ScalarConforms(j, name) then r == Ok(TagScalar(j, name, text)) else r == Err(AtValue(path, TypeMismatch))
  {
    r := Err(AtValue(path, TypeMismatch));
    if name == "Int" {
      if j.JNumber? && AsI64(j.n).Some? { r := Ok(VNumber(I64(AsI64(j.n).value))); }
    } else if name == "Float" {
      if j.JNumber? { r := Ok(VNumber(F64(AsF64(j.n)))); }
    } else if name == "Decimal" {
      if j.JString? { r := Ok(VString(j.s)); }
      if j.JNumber? { r := Ok(VString(text(j.n))); }
    } else if name == "Boolean" {
      if j.JBool? { r := Ok(VBool(j.b)); }
    } else {
      if j.JString? { r := Ok(VString(j.s)); }
      if j.JNumber? { r := Ok(VNumber(if AsI64(j.n).Some? then I64(AsI64(j.n).value) else F64(AsF64(j.n)))); }
    }
  }

  /** The parse of a value is its tagged form, or the path of its first problem. */
  ghost predicate ParseOutcome(r: Result<Val, ParseError>, j: Json, s: TypeSchema, cs: Components, at: Path,
                               text: Number -> string) {
    && (r.Ok? ==> Conforms(j, s, cs) && r.value == Tag(j, s, cs, text))
    && (r.Err? ==> r.error.AtValue? && at <= r.error.path && Blamed(j, s, cs, r.error.path[|at|..], r.error.what))
  }

  method ParseValue(j: Json, s: TypeSchema, cs: Components, at: Path, text: Number -> string)
      returns (r: Result<Val, ParseError>)
    ensures ParseOutcome(r, j, s, cs, at, text)
    decreases j, 1, s
  {
    match s
    case Optional(inner) =>
      if j.JNull? { return Ok(VNull); }
      r := ParseValue(j, inner, cs, at, text);
    case Scalar(name) =>
      r := ParseScalar(j, name, at, text);
    case Enum(values) =>
      if !j.JString? { return Err(AtValue(at, TypeMismatch)); }
      if j.s !in values { return Err(AtValue(at, InvalidEnumValue)); }
      r := Ok(VEnum(j.s));
    case Object(typeRef) =>
      if typeRef !in cs { return Err(AtValue(at, UnresolvedType)); }
      if !j.JObject? { return Err(AtValue(at, TypeMismatch)); }
      r := ParseFields(j, typeRef, cs, at, text);
    case OneOf(_) =>
      r := if j.JObject? then Ok(JsonToVal(j)) else Err(AtValue(at, TypeMismatch));
    case Array(items) =>
      if !j.JArray? { return Err(AtValue(at, TypeMismatch)); }
      r := ParseItems(j, items, cs, at, text);
  }

  method ParseItems(j: Json, items: TypeSchema, cs: Components, at: Path, text: Number -> string)
      returns (r: Result<Val, ParseError>)
    requires j.JArray?
    ensures ParseOutcome(r, j, Array(items), cs, at, text)
    decreases j, 0
  {
    var vals := [];
    for i := 0 to |j.items|
      invariant |vals| == i
      invariant forall k :: 0 <= k < i ==>
                  Conforms(j.items[k], items, cs) && vals[k] == Tag(j.items[k], items, cs, text)
    {
      var v := ParseValue(j.items[i], items, cs, at + [Index(i)], text);
      if v.Err? {
        PathBelow(at, Index(i), v.error.path);
        return v;
      }
      vals := vals + [v.value];
    }
    assert vals == Tag(j, Array(items), cs, text).items;
    r := Ok(VList(vals));
  }

  method ParseFields(j: Json, typeRef: string, cs: Components, at: Path, text: Number -> string)
      returns (r: Result<Val, ParseError>)
    requires j.JObject? && typeRef in cs
    ensures ParseOutcome(r, j, Object(typeRef), cs, at, text)
    decreases j, 0
  {
    var ds := cs[typeRef].fields;
    var supplied, result := j.fields, map[];
    for i := 0 to |ds|
      invariant Collected(supplied, result, j, ds, i, cs, text)
    {
      var name := ds[i].name;
      if name in supplied {
        assert Takes(j, ds, i);
        TakerIs(ds, i);
        var v := ParseValue(j.fields[name], ds[i].schema, cs, at + [Field(name)], text);
        if v.Err? {
          PathBelow(at, Field(name), v.error.path);
          return v;
        }
        CollectTaken(supplied, result, j, ds, i, cs, text);
        supplied, result := supplied - {name}, result[name := v.value];
      } else {
        CollectSkipped(supplied, result, j, ds, i, cs, text);
      }
    }
    Collection(supplied, result, j, ds, cs, text);
    if supplied != map[] { return Err(AtValue(at, UnknownFields(supplied.Keys))); }
    r := Ok(VObject(result));
  }

  /** The state of collecting an object's fields when the first `n` declarations are done. */
  ghost predicate Collected(supplied: map<string, Json>, result: map<string, Val>, j: Json, ds: seq<Declared>, n: nat,
                            cs: Components, text: Number -> string)
    requires j.JObject? && n <= |ds|
  {
    KnownFieldsConform(j, ds, n, cs) &&
    supplied == (map k | k in j.fields && k !in Names(ds[..n]) :: j.fields[k]) &&
    result.Keys == j.fields.Keys * Names(ds[..n]) &&
    forall k :: k in result ==> CollectedAt(result[k], k, j, ds, cs, text)
  }

  ghost predicate CollectedAt(v: Val, k: string, j: Json, ds: seq<Declared>, cs: Components, text: Number -> string)
    requires j.JObject? && k in j.fields
  {
    k in Names(ds) && Conforms(j.fields[k], ds[Taker(ds, k)].schema, cs) &&
    v == Tag(j.fields[k], ds[Taker(ds, k)].schema, cs, text)
  }

  lemma CollectTaken(supplied: map<string, Json>, result: map<string, Val>, j: Json, ds: seq<Declared>, i: nat,
                     cs: Components, text: Number -> string)
    requires j.JObject? && i < |ds|
    requires Collected(supplied, result, j, ds, i, cs, text)
    requires ds[i].name in supplied && Conforms(j.fields[ds[i].name], ds[i].schema, cs)
    ensures Collected(supplied - {ds[i].name}, result[ds[i].name := Tag(j.fields[ds[i].name], ds[i].schema, cs, text)],
                      j, ds, i + 1, cs, text)
  {
    NamesNext(ds, i);
    TakerIs(ds, i);
  }

  lemma CollectSkipped(supplied: map<string, Json>, result: map<string, Val>, j: Json, ds: seq<Declared>, i: nat,
                       cs: Components, text: Number -> string)
    requires j.JObject? && i < |ds|
    requires Collected(supplied, result, j, ds, i, cs, text)
    requires ds[i].name !in supplied
    ensures Collected(supplied, result, j, ds, i + 1, cs, text)
  {
    NamesNext(ds, i);
  }

  lemma Collection(supplied: map<string, Json>, result: map<string, Val>, j: Json, ds: seq<Declared>,
                   cs: Components, text: Number -> string)
    requires j.JObject?
    requires Collected(supplied, result, j, ds, |ds|, cs, text)
    ensures supplied.Keys == j.fields.Keys - Names(ds)
    ensures supplied == map[] ==> FieldsConform(j, ds, cs) && result == TagFields(j, ds, cs, text)
    ensures supplied != map[] ==> supplied.Keys != {}
    ensures KnownFieldsConform(j, ds, |ds|, cs)
  {
    assert ds[..|ds|] == ds;
    if supplied != map[] {
      var k :| k in supplied;
      assert k in supplied.Keys;
    }
    assert forall k :: k in j.fields ==> k in Names(ds) || k in supplied;
    if supplied == map[] { CollectedAll(result, j, ds, cs, text); }
  }

  lemma CollectedAll(result: map<string, Val>, j: Json, ds: seq<Declared>, cs: Components, text: Number -> string)
    requires j.JObject? && result.Keys == j.fields.Keys
    requires forall k :: k in result ==> CollectedAt(result[k], k, j, ds, cs, text)
    ensures FieldsConform(j, ds, cs) && result == TagFields(j, ds, cs, text)
  {
    forall k | k in j.fields ensures CollectedAt(result[k], k, j, ds, cs, text) {}
  }

  lemma PathBelow(at: Path, step: Step, path: Path)
    requires at + [step] <= path
    ensures at <= path && path[|at|..] == [step] + path[|at| + 1..]
  {
    assert path[..|at| + 1] == at + [step];
    assert at == path[..|at|];
  }
}
