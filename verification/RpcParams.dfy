/** Parsing a method's parameters, and what its outcome means. */
module RpcParams {
  import opened Wrappers
  import opened Values
  import opened RpcSchema
  import opened RpcParsing

  /** The supplied keys as one object; absent and null parameters supply none. */
  function Supplied(params: Option<Json>): (j: Option<Json>)
    ensures j.Some? ==> j.value.JObject?
  {
    match params
    case None => Some(JObject(map[]))
    case Some(JNull) => Some(JObject(map[]))
    case Some(JObject(fields)) => params
    case _ => None
  }

  predicate NoneMissing(j: Json, ds: seq<Declared>, n: nat)
    requires j.JObject? && n <= |ds|
  {
    forall i :: 0 <= i < n && Required(ds[i]) ==> Takes(j, ds, i)
  }

  predicate ParamsConform(params: Option<Json>, m: RpcMethod, cs: Components) {
    Supplied(params).Some? &&
    FieldsConform(Supplied(params).value, m.params, cs) &&
    NoneMissing(Supplied(params).value, m.params, |m.params|)
  }

  /** The error names the first problem of the supplied keys, in the order of the declared parameters. */
  ghost predicate SuppliedBlamed(j: Json, ds: seq<Declared>, cs: Components, e: ParseError)
    requires j.JObject?
  {
    match e
    case TakesNoParameters => ds == [] && j.fields != map[]
    case NotAnObject => false
    case MissingRequiredParameter(name) =>
      exists i :: 0 <= i < |ds| && ds[i].name == name && Required(ds[i]) && !Takes(j, ds, i) &&
                  NoneMissing(j, ds, i) && KnownFieldsConform(j, ds, i, cs)
    case UnknownParameters(names) =>
      names == j.fields.Keys - Names(ds) && names != {} && ds != [] &&
      NoneMissing(j, ds, |ds|) && KnownFieldsConform(j, ds, |ds|, cs)
    case AtValue(path, what) =>
      FieldBlamed(j, ds, cs, path, what) && NoneMissing(j, ds, Taker(ds, path[0].name))
  }

  ghost predicate ParamsBlamed(params: Option<Json>, m: RpcMethod, cs: Components, e: ParseError) {
    if Supplied(params).None? then e == if m.params == [] then TakesNoParameters else NotAnObject
    else SuppliedBlamed(Supplied(params).value, m.params, cs, e)
  }

  method ParseParams(m: RpcMethod, params: Option<Json>, cs: Components, text: Number -> string)
    returns (r: Result<map<string, Val>, ParseError>)
    ensures r.Ok? <==> ParamsConform(params, m, cs)
    ensures r.Ok? ==> r.value == TagFields(Supplied(params).value, m.params, cs, text)
    ensures r.Err? ==> ParamsBlamed(params, m, cs, r.error)
  {
    if m.params == [] {
      match params {
        case None => return Ok(map[]);
        case Some(JNull) => return Ok(map[]);
        case Some(JObject(fields)) => return if fields == map[] then Ok(map[]) else Err(TakesNoParameters);
        case _ => return Err(TakesNoParameters);
      }
    }
    match params {
      case None => r := ParseSupplied(JObject(map[]), m.params, cs, text);
      case Some(JNull) => r := ParseSupplied(JObject(map[]), m.params, cs, text);
      case Some(JObject(fields)) => r := ParseSupplied(params.value, m.params, cs, text);
      case _ => return Err(NotAnObject);
    }
    if r.Err? { ParamsBlamedRefutes(params, m, cs, r.error); }
  }

  /** The loop over the declared parameters. */
  method ParseSupplied(j: Json, ds: seq<Declared>, cs: Components, text: Number -> string)
    returns (r: Result<map<string, Val>, ParseError>)
    requires j.JObject? && ds != []
    ensures r.Ok? ==> FieldsConform(j, ds, cs) && NoneMissing(j, ds, |ds|) && r.value == TagFields(j, ds, cs, text)
    ensures r.Err? ==> SuppliedBlamed(j, ds, cs, r.error)
  {
    var supplied, result := j.fields, map[];
    for i := 0 to |ds|
      invariant Collected(supplied, result, j, ds, i, cs, text)
      invariant NoneMissing(j, ds, i)
    {
      var name := ds[i].name;
      if name in supplied {
        assert Takes(j, ds, i);
        TakerIs(ds, i);
        var v := ParseValue(supplied[name], ds[i].schema, cs, [Field(name)], text);
        if v.Err? {
          PathBelow([], Field(name), v.error.path);
          return Err(v.error);
        }
        CollectTaken(supplied, result, j, ds, i, cs, text);
        supplied, result := supplied - {name}, result[name := v.value];
      } else {
        if Required(ds[i]) { return Err(MissingRequiredParameter(name)); }
        CollectSkipped(supplied, result, j, ds, i, cs, text);
      }
    }
    Collection(supplied, result, j, ds, cs, text);
    if supplied != map[] { return Err(UnknownParameters(supplied.Keys)); }
    r := Ok(result);
  }

  // ----- Errors are real, and there is only one -----

  lemma {:induction false} BlamedRefutes(j: Json, s: TypeSchema, cs: Components, path: Path, what: Complaint)
    requires Blamed(j, s, cs, path, what)
    ensures !Conforms(j, s, cs)
    decreases j, 1, s
  {
    match s
    case Optional(inner) => BlamedRefutes(j, inner, cs, path, what);
    case Array(items) => if path != [] { BlamedRefutes(j.items[path[0].i], items, cs, path[1..], what); }
    case Object(r) =>
      if path != [] { FieldBlamedRefutes(j, cs[r].fields, cs, path, what); }
    case _ =>
  }

  lemma {:induction false} FieldBlamedRefutes(j: Json, ds: seq<Declared>, cs: Components, path: Path, what: Complaint)
    requires j.JObject? && FieldBlamed(j, ds, cs, path, what)
    ensures !FieldsConform(j, ds, cs)
    decreases j, 0
  {
    var n := path[0].name;
    BlamedRefutes(j.fields[n], ds[Taker(ds, n)].schema, cs, path[1..], what);
  }

  /** Parameters are refused only when they do not conform: with `ParseParams`, exactly then. */
  lemma ParamsBlamedRefutes(params: Option<Json>, m: RpcMethod, cs: Components, e: ParseError)
    requires ParamsBlamed(params, m, cs, e)
    ensures !ParamsConform(params, m, cs)
  {
    if Supplied(params).Some? && e.AtValue? {
      FieldBlamedRefutes(Supplied(params).value, m.params, cs, e.path, e.what);
    }
  }

  /** A value has at most one first problem. */
  lemma {:induction false} OneProblem(j: Json, s: TypeSchema, cs: Components, p: Path, w: Complaint, p': Path,
                                      w': Complaint)
    requires Blamed(j, s, cs, p, w) && Blamed(j, s, cs, p', w')
    ensures p == p' && w == w'
    decreases j, 1, s
  {
    match s
    case Optional(inner) => OneProblem(j, inner, cs, p, w, p', w');
    case Array(items) =>
      if p != [] && p' != [] {
        var i, i' := p[0].i, p'[0].i;
        BlamedRefutes(j.items[i], items, cs, p[1..], w);
        BlamedRefutes(j.items[i'], items, cs, p'[1..], w');
        OneProblem(j.items[i], items, cs, p[1..], w, p'[1..], w');
        assert p == [p[0]] + p[1..] && p' == [p'[0]] + p'[1..];
      }
    case Object(r) =>
      if r in cs && j.JObject? {
        var ds := cs[r].fields;
        if p != [] { NotKnown(j, ds, cs, p, w); }
        if p' != [] { NotKnown(j, ds, cs, p', w'); }
        if p != [] && p' != [] { OneFieldProblem(j, ds, cs, p, w, p', w'); }
      }
    case _ =>
  }

  lemma NotKnown(j: Json, ds: seq<Declared>, cs: Components, p: Path, w: Complaint)
    requires j.JObject? && FieldBlamed(j, ds, cs, p, w)
    ensures Takes(j, ds, Taker(ds, p[0].name))
    ensures forall n: nat :: Taker(ds, p[0].name) < n <= |ds| ==> !KnownFieldsConform(j, ds, n, cs)
  {
    var i := Taker(ds, p[0].name);
    assert Takes(j, ds, i);
    BlamedRefutes(j.fields[p[0].name], ds[i].schema, cs, p[1..], w);
  }

  lemma {:induction false} OneFieldProblem(j: Json, ds: seq<Declared>, cs: Components,
                                           p: Path, w: Complaint, p': Path, w': Complaint)
    requires j.JObject? && FieldBlamed(j, ds, cs, p, w) && FieldBlamed(j, ds, cs, p', w')
    ensures p == p' && w == w'
    decreases j, 0
  {
    var i, i' := Taker(ds, p[0].name), Taker(ds, p'[0].name);
    NotKnown(j, ds, cs, p, w);
    NotKnown(j, ds, cs, p', w');
    assert i == i';
    OneProblem(j.fields[p[0].name], ds[i].schema, cs, p[1..], w, p'[1..], w');
    assert p == [p[0]] + p[1..] && p' == [p'[0]] + p'[1..];
  }

  // ----- Conformance, declaratively -----

  /** With distinct names: known keys only, every required parameter, each value conforming to its declaration. */
  lemma DistinctConform(params: Option<Json>, m: RpcMethod, cs: Components)
    requires Distinct(m.params) && Supplied(params).Some?
    ensures var fields, ds := Supplied(params).value.fields, m.params;
            ParamsConform(params, m, cs) <==>
            && (forall k :: k in fields ==> exists i :: 0 <= i < |ds| && ds[i].name == k)
            && (forall i :: 0 <= i < |ds| && Required(ds[i]) ==> ds[i].name in fields)
            && (forall i :: 0 <= i < |ds| && ds[i].name in fields ==> Conforms(fields[ds[i].name], ds[i].schema, cs))
  {
    var j, ds := Supplied(params).value, m.params;
    AllKnownConform(j, ds, cs);
    TakesByName(j, ds);
  }

  lemma TakesByName(j: Json, ds: seq<Declared>)
    requires j.JObject? && Distinct(ds)
    ensures forall i :: 0 <= i < |ds| ==> (Takes(j, ds, i) <==> ds[i].name in j.fields)
  {
  }

  /** A required parameter repeating an earlier name can never be supplied. */
  lemma RepeatedRequired(params: Option<Json>, m: RpcMethod, cs: Components, i: nat, k: nat)
    requires i < k < |m.params| && m.params[i].name == m.params[k].name && Required(m.params[k])
    ensures !ParamsConform(params, m, cs)
  {
    assert m.params[..k][i].name == m.params[k].name;
    assert Supplied(params).Some? ==> !Takes(Supplied(params).value, m.params, k);
  }

  /** Leaving out one supplied parameter is noticed exactly when it is required. */
  lemma OmittedParameter(fields: map<string, Json>, m: RpcMethod, cs: Components, i: nat)
    requires Distinct(m.params) && i < |m.params| && m.params[i].name in fields
    requires ParamsConform(Some(JObject(fields)), m, cs)
    ensures ParamsConform(Some(JObject(fields - {m.params[i].name})), m, cs) <==> !Required(m.params[i])
  {
    FewerFieldsConform(JObject(fields), m.params, cs, m.params[i].name);
    MissingWithout(fields, m.params, i);
  }

  lemma MissingWithout(fields: map<string, Json>, ds: seq<Declared>, i: nat)
    requires Distinct(ds) && i < |ds| && ds[i].name in fields
    requires NoneMissing(JObject(fields), ds, |ds|)
    ensures NoneMissing(JObject(fields - {ds[i].name}), ds, |ds|) <==> !Required(ds[i])
  {
    var j, fewer := JObject(fields), JObject(fields - {ds[i].name});
    assert !Takes(fewer, ds, i);
    if !Required(ds[i]) {
      forall k | 0 <= k < |ds| && Required(ds[k]) ensures Takes(fewer, ds, k) {
        assert Takes(j, ds, k);
        assert k < i || i < k;
      }
    }
  }

  /** Leaving out a field of an object is never noticed, required or not. */
  lemma OmittedField(j: Json, typeRef: string, cs: Components, name: string)
    requires j.JObject? && Conforms(j, Object(typeRef), cs)
    ensures Conforms(JObject(j.fields - {name}), Object(typeRef), cs)
  {
    FewerFieldsConform(j, cs[typeRef].fields, cs, name);
  }

  lemma FewerFieldsConform(j: Json, ds: seq<Declared>, cs: Components, name: string)
    requires j.JObject? && FieldsConform(j, ds, cs)
    ensures FieldsConform(JObject(j.fields - {name}), ds, cs)
  {
  }

  // ----- References -----

  /** When all references resolve, no value is refused for an unresolved type. */
  lemma {:induction false} ClosedNeverUnresolved(j: Json, s: TypeSchema, cs: Components, path: Path, what: Complaint)
    requires ComponentsClosed(cs) && RefsWithin(s, cs.Keys)
    requires Blamed(j, s, cs, path, what)
    ensures what != UnresolvedType
    decreases j, s
  {
    match s
    case Optional(inner) => ClosedNeverUnresolved(j, inner, cs, path, what);
    case Array(items) => if path != [] { ClosedNeverUnresolved(j.items[path[0].i], items, cs, path[1..], what); }
    case Object(r) =>
      if path != [] {
        var ds := cs[r].fields;
        var i := Taker(ds, path[0].name);
        assert DeclaredWithin(ds, cs.Keys);
        ClosedNeverUnresolved(j.fields[path[0].name], ds[i].schema, cs, path[1..], what);
      }
    case _ =>
  }

  lemma ClosedParams(params: Option<Json>, methods: seq<RpcMethod>, i: nat, cs: Components, e: ParseError)
    requires Closed(methods, cs) && i < |methods|
    requires ParamsBlamed(params, methods[i], cs, e)
    ensures !(e.AtValue? && e.what.UnresolvedType?)
  {
    if e.AtValue? {
      assert MethodWithin(methods[i], cs.Keys);
      var j, ds := Supplied(params).value, methods[i].params;
      var n := e.path[0].name;
      ClosedNeverUnresolved(j.fields[n], ds[Taker(ds, n)].schema, cs, e.path[1..], e.what);
    }
  }

  // ----- Parsing only re-tags -----

  /** The value's JSON form survives: floats are written as floats, decimals as strings, other integers fit i64. */
  predicate Lossless(j: Json, s: TypeSchema, cs: Components)
    requires Conforms(j, s, cs)
    decreases j, 1, s
  {
    match s
    case Optional(inner) => j.JNull? || Lossless(j, inner, cs)
    case Scalar(name) =>
      if name == "Float" then j.n.FloatNumber? else if name == "Decimal" then j.JString? else IntegersFit(j)
    case Enum(_) => true
    case Object(r) => LosslessFields(j, cs[r].fields, cs)
    case OneOf(_) => IntegersFit(j)
    case Array(items) => forall i :: 0 <= i < |j.items| ==> Lossless(j.items[i], items, cs)
  }

  predicate LosslessFields(j: Json, ds: seq<Declared>, cs: Components)
    requires j.JObject? && FieldsConform(j, ds, cs)
    decreases j, 0
  {
    forall k :: k in j.fields ==> Lossless(j.fields[k], ds[Taker(ds, k)].schema, cs)
  }

  /** Writing a parsed value back as JSON returns the original exactly when it is lossless. */
  lemma {:induction false} RetagRoundTrip(j: Json, s: TypeSchema, cs: Components, text: Number -> string)
    requires Conforms(j, s, cs)
    ensures ToJson(Tag(j, s, cs, text)).Some?
    ensures ToJson(Tag(j, s, cs, text)) == Some(j) <==> Lossless(j, s, cs)
    decreases j, 1, s
  {
    match s
    case Optional(inner) => if !j.JNull? { RetagRoundTrip(j, inner, cs, text); }
    case Scalar(name) => JsonToValRoundTrip(j);
    case Enum(_) =>
    case Object(r) => RetagFields(j, cs[r].fields, cs, text);
    case OneOf(_) => JsonToValRoundTrip(j);
    case Array(items) =>
      forall i | 0 <= i < |j.items|
        ensures ToJson(Tag(j.items[i], items, cs, text)).Some?
        ensures ToJson(Tag(j.items[i], items, cs, text)) == Some(j.items[i]) <==> Lossless(j.items[i], items, cs)
      {
        RetagRoundTrip(j.items[i], items, cs, text);
      }
      var back := ToJson(Tag(j, s, cs, text));
      if Lossless(j, s, cs) { assert back.value.items == j.items; }
      if back == Some(j) {
        forall i | 0 <= i < |j.items| ensures Lossless(j.items[i], items, cs) {
          assert back.value.items[i] == j.items[i];
        }
      }
  }

  lemma {:induction false} RetagFields(j: Json, ds: seq<Declared>, cs: Components, text: Number -> string)
    requires j.JObject? && FieldsConform(j, ds, cs)
    ensures ToJson(VObject(TagFields(j, ds, cs, text))).Some?
    ensures ToJson(VObject(TagFields(j, ds, cs, text))) == Some(j) <==> LosslessFields(j, ds, cs)
    decreases j, 0
  {
    var vals := TagFields(j, ds, cs, text);
    forall k | k in j.fields
      ensures ToJson(vals[k]).Some?
      ensures ToJson(vals[k]) == Some(j.fields[k]) <==> Lossless(j.fields[k], ds[Taker(ds, k)].schema, cs)
    {
      RetagRoundTrip(j.fields[k], ds[Taker(ds, k)].schema, cs, text);
    }
    var back := ToJson(VObject(vals));
    if LosslessFields(j, ds, cs) { assert back.value.fields == j.fields; }
    if back == Some(j) {
      forall k | k in j.fields ensures Lossless(j.fields[k], ds[Taker(ds, k)].schema, cs) {
        assert back.value.fields[k] == j.fields[k];
      }
    }
  }

  /** No `Float` or `Decimal` outside one-of schemas, whose contents are not typed. */
  predicate NoFloats(s: TypeSchema)
    decreases s
  {
    match s
    case Scalar(name) => name != "Float" && name != "Decimal"
    case Array(items) => NoFloats(items)
    case Optional(inner) => NoFloats(inner)
    case _ => true
  }

  predicate NoFloatFields(ds: seq<Declared>) {
    forall i :: 0 <= i < |ds| ==> NoFloats(ds[i].schema)
  }

  /** Without floats and decimals, a value whose integers fit i64 is parsed without loss. */
  lemma {:induction false} NoFloatsLossless(j: Json, s: TypeSchema, cs: Components)
    requires Conforms(j, s, cs) && IntegersFit(j)
    requires NoFloats(s) && forall n :: n in cs ==> NoFloatFields(cs[n].fields)
    ensures Lossless(j, s, cs)
    decreases j, s
  {
    match s
    case Optional(inner) => if !j.JNull? { NoFloatsLossless(j, inner, cs); }
    case Array(items) =>
      forall i | 0 <= i < |j.items| ensures Lossless(j.items[i], items, cs) { NoFloatsLossless(j.items[i], items, cs); }
    case Object(r) =>
      var ds := cs[r].fields;
      assert NoFloatFields(ds);
      forall k | k in j.fields ensures Lossless(j.fields[k], ds[Taker(ds, k)].schema, cs) {
        NoFloatsLossless(j.fields[k], ds[Taker(ds, k)].schema, cs);
      }
    case _ =>
  }
}
