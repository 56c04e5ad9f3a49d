/** What parsing makes of JSON parameters, as a relation between the JSON value, its schema and the value it becomes. */
module RpcMeaning {
  import opened Wrappers
  import opened Values
  import opened RpcSchema
  import opened RpcParsing
  import opened RpcParams

  // ----- Values -----

  /** A number without a type: an integer that fits i64, or else the nearest float. */
  predicate NumberMeans(n: Number, v: Val) {
    match n
    case PosInt(u) => v == VNumber(if u <= 0x7FFF_FFFF_FFFF_FFFF then I64(u) else F64(Nearest(u)))
    case NegInt(i) => v == VNumber(I64(i))
    case FloatNumber(f) => v == VNumber(F64(f))
  }

  /** A value without a type keeps its form. */
  predicate UntypedMeans(j: Json, v: Val)
    decreases j
  {
    match j
    case JNull => v == VNull
    case JBool(b) => v == VBool(b)
    case JNumber(n) => NumberMeans(n, v)
    case JString(s) => v == VString(s)
    case JArray(items) =>
      v.VList? && |v.items| == |items| && forall i :: 0 <= i < |items| ==> UntypedMeans(items[i], v.items[i])
    case JObject(fields) =>
      v.VObject? && v.fields.Keys == fields.Keys && forall k :: k in fields ==> UntypedMeans(fields[k], v.fields[k])
  }

  /** `text` prints a number, for decimals given as numbers. */
  predicate ScalarMeans(j: Json, name: string, text: Number -> string, v: Val) {
    if name == "Int" then j.JNumber? && !j.n.FloatNumber? && v.VNumber? && v.n.I64? && NumberMeans(j.n, v)
    else if name == "Float" then j.JNumber? && v == VNumber(F64(FloatOf(j.n)))
    else if name == "Boolean" then j.JBool? && v == VBool(j.b)
    else if name == "Decimal" then
      (j.JString? && v == VString(j.s)) || (j.JNumber? && v == VString(text(j.n)))
    else (j.JString? && v == VString(j.s)) || (j.JNumber? && NumberMeans(j.n, v))
  }

  function FloatOf(n: Number): Float {
    match n
    case PosInt(u) => Nearest(u)
    case NegInt(i) => Nearest(i)
    case FloatNumber(f) => f
  }

  /** The first declaration of a name. */
  predicate FirstOf(ds: seq<Declared>, i: nat, k: string) {
    i < |ds| && ds[i].name == k && forall l :: 0 <= l < i ==> ds[l].name != k
  }

  predicate Means(j: Json, s: TypeSchema, cs: Components, text: Number -> string, v: Val)
    decreases j, 1, s
  {
    match s
    case Optional(inner) => if j == JNull then v == VNull else Means(j, inner, cs, text, v)
    case Scalar(name) => ScalarMeans(j, name, text, v)
    case Enum(values) => j.JString? && j.s in values && v == VEnum(j.s)
    case Array(items) =>
      j.JArray? && v.VList? && |v.items| == |j.items| &&
      forall i :: 0 <= i < |j.items| ==> Means(j.items[i], items, cs, text, v.items[i])
    case Object(r) => j.JObject? && v.VObject? && r in cs && FieldsMean(j, cs[r].fields, cs, text, v.fields)
    case OneOf(_) => j.JObject? && UntypedMeans(j, v)
  }

  /** Key by key, each by its first declaration. */
  predicate FieldsMean(j: Json, ds: seq<Declared>, cs: Components, text: Number -> string, vals: map<string, Val>)
    requires j.JObject?
    decreases j, 0
  {
    vals.Keys == j.fields.Keys && forall k :: k in j.fields ==> KeyMeans(j.fields[k], k, ds, cs, text, vals[k])
  }

  predicate KeyMeans(j: Json, k: string, ds: seq<Declared>, cs: Components, text: Number -> string, v: Val)
    decreases j, 2
  {
    exists i :: 0 <= i < |ds| && FirstOf(ds, i, k) && Means(j, ds[i].schema, cs, text, v)
  }

  // ----- Parsing computes it -----

  lemma {:induction false} UntypedExactly(j: Json, v: Val)
    ensures UntypedMeans(j, v) <==> v == JsonToVal(j)
    decreases j
  {
    match j
    case JArray(items) =>
      if v.VList? && |v.items| == |items| {
        forall i | 0 <= i < |items| ensures UntypedMeans(items[i], v.items[i]) <==> v.items[i] == JsonToVal(items[i]) {
          UntypedExactly(items[i], v.items[i]);
        }
        if UntypedMeans(j, v) { assert v.items == JsonToVal(j).items; }
      }
    case JObject(fields) =>
      if v.VObject? && v.fields.Keys == fields.Keys {
        forall k | k in fields ensures UntypedMeans(fields[k], v.fields[k]) <==> v.fields[k] == JsonToVal(fields[k]) {
          UntypedExactly(fields[k], v.fields[k]);
        }
        if UntypedMeans(j, v) { assert v.fields == JsonToVal(j).fields; }
      }
    case _ =>
  }

  lemma ScalarExactly(j: Json, name: string, text: Number -> string, v: Val)
    ensures ScalarMeans(j, name, text, v) <==> ScalarConforms(j, name) && v == TagScalar(j, name, text)
  {
  }

  lemma FirstExactly(ds: seq<Declared>, i: nat, k: string)
    ensures FirstOf(ds, i, k) <==> k in Names(ds) && i == Taker(ds, k)
  {
    if FirstOf(ds, i, k) {
      assert ds[i].name !in Names(ds[..i]);
      TakerIs(ds, i);
    }
    if k in Names(ds) {
      var t := Taker(ds, k);
      forall l | 0 <= l < t ensures ds[l].name != k { assert ds[..t][l] == ds[l]; }
    }
  }

  /** A value conforms and is parsed to `v` exactly if `v` is what it means. */
  lemma {:induction false} MeansExactly(j: Json, s: TypeSchema, cs: Components, text: Number -> string, v: Val)
    ensures Means(j, s, cs, text, v) <==> Conforms(j, s, cs) && v == Tag(j, s, cs, text)
    decreases j, 1, s
  {
    match s
    case Optional(inner) => MeansExactly(j, inner, cs, text, v);
    case Scalar(name) => ScalarExactly(j, name, text, v);
    case Enum(_) =>
    case Array(items) =>
      if j.JArray? && v.VList? && |v.items| == |j.items| { ItemsExactly(j, items, cs, text, v.items); }
    case Object(r) => if j.JObject? && v.VObject? && r in cs { FieldsExactly(j, cs[r].fields, cs, text, v.fields); }
    case OneOf(_) => UntypedExactly(j, v);
  }

  lemma {:induction false} ItemsExactly(j: Json, items: TypeSchema, cs: Components, text: Number -> string,
                                        vals: seq<Val>)
    requires j.JArray? && |vals| == |j.items|
    ensures (forall i :: 0 <= i < |j.items| ==> Means(j.items[i], items, cs, text, vals[i])) <==>
            Conforms(j, Array(items), cs) && VList(vals) == Tag(j, Array(items), cs, text)
    decreases j, 0
  {
    forall i | 0 <= i < |j.items|
      ensures Means(j.items[i], items, cs, text, vals[i]) <==>
              Conforms(j.items[i], items, cs) && vals[i] == Tag(j.items[i], items, cs, text)
    {
      MeansExactly(j.items[i], items, cs, text, vals[i]);
    }
    if forall i :: 0 <= i < |j.items| ==> Means(j.items[i], items, cs, text, vals[i]) {
      assert vals == Tag(j, Array(items), cs, text).items;
    }
  }

  lemma {:induction false} FieldsExactly(j: Json, ds: seq<Declared>, cs: Components, text: Number -> string,
                                         vals: map<string, Val>)
    requires j.JObject?
    ensures FieldsMean(j, ds, cs, text, vals) <==> FieldsConform(j, ds, cs) && vals == TagFields(j, ds, cs, text)
    decreases j, 0
  {
    if vals.Keys == j.fields.Keys {
      forall k | k in j.fields
        ensures KeyMeans(j.fields[k], k, ds, cs, text, vals[k]) <==>
                k in Names(ds) && Conforms(j.fields[k], ds[Taker(ds, k)].schema, cs) &&
                vals[k] == Tag(j.fields[k], ds[Taker(ds, k)].schema, cs, text)
      {
        FieldExactly(j.fields[k], k, ds, cs, text, vals[k]);
      }
    }
  }

  lemma {:induction false} FieldExactly(j: Json, k: string, ds: seq<Declared>, cs: Components, text: Number -> string,
                                        v: Val)
    ensures KeyMeans(j, k, ds, cs, text, v) <==>
            k in Names(ds) && Conforms(j, ds[Taker(ds, k)].schema, cs) && v == Tag(j, ds[Taker(ds, k)].schema, cs, text)
    decreases j, 2
  {
    OnlyFirst(j, k, ds, cs, text, v);
    if k in Names(ds) { MeansExactly(j, ds[Taker(ds, k)].schema, cs, text, v); }
  }

  lemma {:induction false} OnlyFirst(j: Json, k: string, ds: seq<Declared>, cs: Components, text: Number -> string,
                                     v: Val)
    ensures KeyMeans(j, k, ds, cs, text, v) <==> k in Names(ds) && Means(j, ds[Taker(ds, k)].schema, cs, text, v)
  {
    forall i: nat ensures FirstOf(ds, i, k) <==> k in Names(ds) && i == Taker(ds, k) { FirstExactly(ds, i, k); }
    if k in Names(ds) { assert FirstOf(ds, Taker(ds, k), k); }
  }

  // ----- Why a value is refused -----

  /** The value means something. */
  ghost predicate Fine(j: Json, s: TypeSchema, cs: Components, text: Number -> string) {
    exists v :: Means(j, s, cs, text, v)
  }

  lemma FineExactly(j: Json, s: TypeSchema, cs: Components, text: Number -> string)
    ensures Fine(j, s, cs, text) <==> Conforms(j, s, cs)
  {
    if v :| Means(j, s, cs, text, v) { MeansExactly(j, s, cs, text, v); }
    if Conforms(j, s, cs) { MeansExactly(j, s, cs, text, Tag(j, s, cs, text)); }
  }

  /** The keys that the first `n` declarations take have values that mean something. */
  ghost predicate FineBelow(fields: map<string, Json>, ds: seq<Declared>, n: nat, cs: Components,
                            text: Number -> string)
    requires n <= |ds|
  {
    forall i :: 0 <= i < n && ds[i].name in fields && FirstOf(ds, i, ds[i].name) ==>
                  Fine(fields[ds[i].name], ds[i].schema, cs, text)
  }

  lemma FineBelowExactly(j: Json, ds: seq<Declared>, n: nat, cs: Components, text: Number -> string)
    requires j.JObject? && n <= |ds|
    ensures FineBelow(j.fields, ds, n, cs, text) <==> KnownFieldsConform(j, ds, n, cs)
  {
    forall i | 0 <= i < n
      ensures Takes(j, ds, i) <==> ds[i].name in j.fields && FirstOf(ds, i, ds[i].name)
      ensures Takes(j, ds, i) ==>
                (Fine(j.fields[ds[i].name], ds[i].schema, cs, text) <==>
                 Conforms(j.fields[ds[i].name], ds[i].schema, cs))
    {
      TakesExactly(j, ds, i);
      if Takes(j, ds, i) { FineExactly(j.fields[ds[i].name], ds[i].schema, cs, text); }
    }
  }

  lemma TakesExactly(j: Json, ds: seq<Declared>, i: nat)
    requires j.JObject? && i < |ds|
    ensures Takes(j, ds, i) <==> ds[i].name in j.fields && FirstOf(ds, i, ds[i].name)
  {
    forall l | 0 <= l < i ensures ds[..i][l] == ds[l] {}
  }

  predicate DeclaredKey(ds: seq<Declared>, k: string) {
    exists i :: 0 <= i < |ds| && ds[i].name == k
  }

  /** The keys without a declaration. */
  ghost predicate AreUndeclared(names: set<string>, fields: map<string, Json>, ds: seq<Declared>) {
    forall k :: k in names <==> k in fields && !DeclaredKey(ds, k)
  }

  /** The first problem of the value, and the path to it. */
  ghost predicate Complains(j: Json, s: TypeSchema, cs: Components, text: Number -> string, path: Path, what: Complaint)
    decreases j, 1, s
  {
    match s
    case Optional(inner) => j != JNull && Complains(j, inner, cs, text, path, what)
    case Scalar(_) => path == [] && what == TypeMismatch && !Fine(j, s, cs, text)
    case Enum(values) =>
      path == [] && if j.JString? then j.s !in values && what == InvalidEnumValue else what == TypeMismatch
    case OneOf(_) => path == [] && what == TypeMismatch && !j.JObject?
    case Array(items) =>
      if !j.JArray? then path == [] && what == TypeMismatch
      else
        |path| > 0 && path[0].Index? && path[0].i < |j.items| &&
        (forall i :: 0 <= i < path[0].i ==> Fine(j.items[i], items, cs, text)) &&
        Complains(j.items[path[0].i], items, cs, text, path[1..], what)
    case Object(r) =>
      if r !in cs then path == [] && what == UnresolvedType
      else if !j.JObject? then path == [] && what == TypeMismatch
      else if path == [] then
        && what.UnknownFields? && what.names != {} && AreUndeclared(what.names, j.fields, cs[r].fields)
        && FineBelow(j.fields, cs[r].fields, |cs[r].fields|, cs, text)
      else FieldComplains(j, cs[r].fields, cs, text, path, what)
  }

  ghost predicate FieldComplains(j: Json, ds: seq<Declared>, cs: Components, text: Number -> string, path: Path,
                                 what: Complaint)
    requires j.JObject? && path != []
    decreases j, 0
  {
    path[0].Field? && path[0].name in j.fields &&
    exists i: nat :: FirstOf(ds, i, path[0].name) && FineBelow(j.fields, ds, i, cs, text) &&
                     ComplainsIn(j, ds[i].schema, cs, text, path, what)
  }

  ghost predicate ComplainsIn(j: Json, s: TypeSchema, cs: Components, text: Number -> string, path: Path,
                              what: Complaint)
    requires j.JObject? && path != [] && path[0].Field? && path[0].name in j.fields
    decreases j, -1
  {
    Complains(j.fields[path[0].name], s, cs, text, path[1..], what)
  }

  lemma {:induction false} UndeclaredExactly(names: set<string>, fields: map<string, Json>, ds: seq<Declared>)
    ensures AreUndeclared(names, fields, ds) <==> names == fields.Keys - Names(ds)
  {
    forall k ensures DeclaredKey(ds, k) <==> k in Names(ds) {}
  }

  /** The complaint of a refused value is the one that is reported. */
  lemma {:induction false} ComplainsExactly(j: Json, s: TypeSchema, cs: Components, text: Number -> string, path: Path,
                                            what: Complaint)
    ensures Complains(j, s, cs, text, path, what) <==> Blamed(j, s, cs, path, what)
    decreases j, 1, s
  {
    match s
    case Optional(inner) => ComplainsExactly(j, inner, cs, text, path, what);
    case Scalar(_) => FineExactly(j, s, cs, text);
    case Enum(_) =>
    case OneOf(_) =>
    case Array(items) =>
      if j.JArray? && path != [] && path[0].Index? && path[0].i < |j.items| {
        forall i | 0 <= i < |j.items| ensures Fine(j.items[i], items, cs, text) <==> Conforms(j.items[i], items, cs) {
          FineExactly(j.items[i], items, cs, text);
        }
        ComplainsExactly(j.items[path[0].i], items, cs, text, path[1..], what);
      }
    case Object(r) =>
      if r in cs && j.JObject? {
        if path == [] {
          if what.UnknownFields? { UndeclaredExactly(what.names, j.fields, cs[r].fields); }
          FineBelowExactly(j, cs[r].fields, |cs[r].fields|, cs, text);
        } else {
          FieldComplainsExactly(j, cs[r].fields, cs, text, path, what);
        }
      }
  }

  lemma {:induction false} FieldComplainsExactly(j: Json, ds: seq<Declared>, cs: Components, text: Number -> string,
                                                 path: Path, what: Complaint)
    requires j.JObject? && path != []
    ensures FieldComplains(j, ds, cs, text, path, what) <==> FieldBlamed(j, ds, cs, path, what)
    decreases j, 0
  {
    if path[0].Field? && path[0].name in j.fields {
      var k := path[0].name;
      forall i: nat ensures FirstOf(ds, i, k) <==> k in Names(ds) && i == Taker(ds, k) { FirstExactly(ds, i, k); }
      if k in Names(ds) {
        var i := Taker(ds, k);
        assert FirstOf(ds, i, k);
        FineBelowExactly(j, ds, i, cs, text);
        ComplainsExactly(j.fields[k], ds[i].schema, cs, text, path[1..], what);
      }
    }
  }

  // ----- The parameters of a method -----

  /** Absent and null parameters are none. */
  predicate SuppliesFields(params: Option<Json>, fields: map<string, Json>) {
    match params
    case None => fields == map[]
    case Some(JNull) => fields == map[]
    case Some(JObject(fs)) => fields == fs
    case _ => false
  }

  /** A declaration that is not optional has its key, which it takes itself. */
  predicate HasRequired(fields: map<string, Json>, ds: seq<Declared>, n: nat)
    requires n <= |ds|
  {
    forall i :: 0 <= i < n && !ds[i].schema.Optional? ==> ds[i].name in fields && FirstOf(ds, i, ds[i].name)
  }

  lemma HasRequiredExactly(j: Json, ds: seq<Declared>, n: nat)
    requires j.JObject? && n <= |ds|
    ensures HasRequired(j.fields, ds, n) <==> NoneMissing(j, ds, n)
  {
    forall i | 0 <= i < n ensures Takes(j, ds, i) <==> ds[i].name in j.fields && FirstOf(ds, i, ds[i].name) {
      TakesExactly(j, ds, i);
    }
  }

  ghost predicate ParamsMean(params: Option<Json>, m: RpcMethod, cs: Components, text: Number -> string,
                             vals: map<string, Val>) {
    exists fields :: SuppliesFields(params, fields) && FieldsMean(JObject(fields), m.params, cs, text, vals) &&
                     HasRequired(fields, m.params, |m.params|)
  }

  /** Parameters conform and are parsed to `vals` exactly if that is what they mean. */
  lemma ParamsExactly(params: Option<Json>, m: RpcMethod, cs: Components, text: Number -> string, vals: map<string,
                      Val>)
    ensures ParamsMean(params, m, cs, text, vals) <==>
            ParamsConform(params, m, cs) && vals == TagFields(Supplied(params).value, m.params, cs, text)
  {
    if Supplied(params).Some? {
      var j := Supplied(params).value;
      assert SuppliesFields(params, j.fields) && JObject(j.fields) == j;
      FieldsExactly(j, m.params, cs, text, vals);
      HasRequiredExactly(j, m.params, |m.params|);
    }
  }

  /** What is reported of parameters that are refused. */
  ghost predicate ParamsComplain(params: Option<Json>, m: RpcMethod, cs: Components, text: Number -> string,
                                 e: ParseError) {
    if params.Some? && params.value != JNull && !params.value.JObject? then
      e == if m.params == [] then TakesNoParameters else NotAnObject
    else exists fields :: SuppliesFields(params, fields) && FieldsRefused(fields, m.params, cs, text, e)
  }

  ghost predicate FieldsRefused(fields: map<string, Json>, ds: seq<Declared>, cs: Components, text: Number -> string,
                                e: ParseError) {
    match e
    case TakesNoParameters => ds == [] && fields != map[]
    case NotAnObject => false
    case MissingRequiredParameter(name) => exists i: nat :: MissingAt(fields, ds, i, name, cs, text)
    case UnknownParameters(names) =>
      && ds != [] && names != {} && AreUndeclared(names, fields, ds)
      && HasRequired(fields, ds, |ds|) && FineBelow(fields, ds, |ds|, cs, text)
    case AtValue(path, what) =>
      && path != [] && FieldComplains(JObject(fields), ds, cs, text, path, what)
      && forall i: nat :: FirstOf(ds, i, path[0].name) ==> HasRequired(fields, ds, i)
  }

  /** The first declaration with a problem is that one, and its key is missing. */
  ghost predicate MissingAt(fields: map<string, Json>, ds: seq<Declared>, i: nat, name: string, cs: Components,
                            text: Number -> string) {
    && i < |ds| && ds[i].name == name && !ds[i].schema.Optional? && !(name in fields && FirstOf(ds, i, name))
    && HasRequired(fields, ds, i) && FineBelow(fields, ds, i, cs, text)
  }

  lemma MissingExactly(j: Json, ds: seq<Declared>, name: string, cs: Components, text: Number -> string)
    requires j.JObject?
    ensures (exists i: nat :: MissingAt(j.fields, ds, i, name, cs, text)) <==>
            SuppliedBlamed(j, ds, cs, MissingRequiredParameter(name))
  {
    forall i: nat | i < |ds|
      ensures MissingAt(j.fields, ds, i, name, cs, text) <==>
              ds[i].name == name && Required(ds[i]) && !Takes(j, ds, i) && NoneMissing(j, ds, i) &&
              KnownFieldsConform(j, ds, i, cs)
    {
      TakesExactly(j, ds, i);
      HasRequiredExactly(j, ds, i);
      FineBelowExactly(j, ds, i, cs, text);
    }
    if i :| 0 <= i < |ds| && ds[i].name == name && Required(ds[i]) && !Takes(j, ds, i) && NoneMissing(j, ds, i) &&
            KnownFieldsConform(j, ds, i, cs) {
      assert MissingAt(j.fields, ds, i, name, cs, text);
    }
  }

  lemma FieldsRefusedExactly(j: Json, ds: seq<Declared>, cs: Components, text: Number -> string, e: ParseError)
    requires j.JObject?
    ensures FieldsRefused(j.fields, ds, cs, text, e) <==> SuppliedBlamed(j, ds, cs, e)
  {
    match e
    case TakesNoParameters =>
    case NotAnObject =>
    case MissingRequiredParameter(name) => MissingExactly(j, ds, name, cs, text);
    case UnknownParameters(names) =>
      UndeclaredExactly(names, j.fields, ds);
      HasRequiredExactly(j, ds, |ds|);
      FineBelowExactly(j, ds, |ds|, cs, text);
    case AtValue(path, what) =>
      if path != [] {
        assert JObject(j.fields) == j;
        FieldComplainsExactly(j, ds, cs, text, path, what);
        if FieldBlamed(j, ds, cs, path, what) { RequiredBefore(j, ds, path[0].name); }
      }
  }

  lemma RequiredBefore(j: Json, ds: seq<Declared>, k: string)
    requires j.JObject? && k in Names(ds)
    ensures (forall i: nat :: FirstOf(ds, i, k) ==> HasRequired(j.fields, ds, i)) <==> NoneMissing(j, ds, Taker(ds, k))
  {
    forall i: nat ensures FirstOf(ds, i, k) <==> i == Taker(ds, k) { FirstExactly(ds, i, k); }
    assert FirstOf(ds, Taker(ds, k), k);
    HasRequiredExactly(j, ds, Taker(ds, k));
  }

  /** The reported error is that complaint. */
  lemma ParamsComplainExactly(params: Option<Json>, m: RpcMethod, cs: Components, text: Number -> string, e: ParseError)
    ensures ParamsComplain(params, m, cs, text, e) <==> ParamsBlamed(params, m, cs, e)
  {
    if Supplied(params).Some? {
      var j := Supplied(params).value;
      assert SuppliesFields(params, j.fields);
      FieldsRefusedExactly(j, m.params, cs, text, e);
    }
  }
}
