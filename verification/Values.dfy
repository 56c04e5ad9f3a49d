/** JSON values, resolver values (`Val`), and the conversions between them. */
module Values {
  import opened Wrappers

  const I64_MAX: int := 0x7FFF_FFFF_FFFF_FFFF
  const U64_MAX: int := 0xFFFF_FFFF_FFFF_FFFF

  type Uint64 = n: int | 0 <= n <= U64_MAX
  type Negative64 = n: int | -I64_MAX - 1 <= n < 0 witness -1
  type Int64 = n: int | -I64_MAX - 1 <= n <= I64_MAX
  type Int32 = n: int | -0x8000_0000 <= n <= 0x7FFF_FFFF

  /** A finite float: the nearest one to an integer, or any other, told apart by a token. */
  datatype Float = Nearest(n: int) | Token(id: int)

  /** `serde_json::Number`. */
  datatype Number = PosInt(u: Uint64) | NegInt(i: Negative64) | FloatNumber(f: Float)

  function AsI64(n: Number): Option<Int64> {
    match n
    case PosInt(u) => if u <= I64_MAX then Some(u) else None
    case NegInt(i) => Some(i)
    case FloatNumber(_) => None
  }

  function AsF64(n: Number): Float {
    match n
    case PosInt(u) => Nearest(u)
    case NegInt(i) => Nearest(i)
    case FloatNumber(f) => f
  }

  datatype Json =
    | JNull
    | JBool(b: bool)
    | JNumber(n: Number)
    | JString(s: string)
    | JArray(items: seq<Json>)
    | JObject(fields: map<string, Json>)

  datatype ValNumber = I32(short: Int32) | I64(i: Int64) | U64(u: Uint64) | F32(f: Float) | F64(f: Float)

  datatype Val =
    | VNull
    | VBool(b: bool)
    | VNumber(n: ValNumber)
    | VString(s: string)
    | VList(items: seq<Val>)
    | VObject(fields: map<string, Val>)
    | VEnum(name: string)
    | VBinary

  // ----- Conversions -----

  /** `TryFrom<serde_json::Number> for ValNumber`. */
  function FromNumber(n: Number): ValNumber {
    match n
    case PosInt(u) => if u <= I64_MAX then I64(u) else U64(u)
    case NegInt(i) => I64(i)
    case FloatNumber(f) => F64(f)
  }

  /** `TryFrom<ValNumber> for serde_json::Number`, all floats being finite. */
  function ToNumber(v: ValNumber): Number {
    match v
    case I32(i) => if i < 0 then NegInt(i) else PosInt(i)
    case I64(i) => if i < 0 then NegInt(i) else PosInt(i)
    case U64(u) => PosInt(u)
    case F32(f) => FloatNumber(f)
    case F64(f) => FloatNumber(f)
  }

  /** `From<serde_json::Value> for Val`. */
  function FromJson(j: Json): Val
    decreases j
  {
    match j
    case JNull => VNull
    case JBool(b) => VBool(b)
    case JNumber(n) => VNumber(FromNumber(n))
    case JString(s) => VString(s)
    case JArray(items) => VList(seq(|items|, i requires 0 <= i < |items| => FromJson(items[i])))
    case JObject(fields) => VObject(map k | k in fields :: FromJson(fields[k]))
  }

  /** `TryInto<serde_json::Value> for Val`: binaries have no JSON form. */
  function ToJson(v: Val): Option<Json>
    decreases v
  {
    match v
    case VNull => Some(JNull)
    case VBool(b) => Some(JBool(b))
    case VNumber(n) => Some(JNumber(ToNumber(n)))
    case VString(s) => Some(JString(s))
    case VEnum(s) => Some(JString(s))
    case VBinary => None
    case VList(items) =>
      if forall i :: 0 <= i < |items| ==> ToJson(items[i]).Some?
      then Some(JArray(seq(|items|, i requires 0 <= i < |items| => ToJson(items[i]).value)))
      else None
    case VObject(fields) =>
      if forall k :: k in fields ==> ToJson(fields[k]).Some?
      then Some(JObject(map k | k in fields :: ToJson(fields[k]).value))
      else None
  }

  /** `json_to_val`: an integer beyond i64 becomes a float. */
  function JsonToVal(j: Json): Val
    decreases j
  {
    match j
    case JNull => VNull
    case JBool(b) => VBool(b)
    case JNumber(n) => VNumber(if AsI64(n).Some? then I64(AsI64(n).value) else F64(AsF64(n)))
    case JString(s) => VString(s)
    case JArray(items) => VList(seq(|items|, i requires 0 <= i < |items| => JsonToVal(items[i])))
    case JObject(fields) => VObject(map k | k in fields :: JsonToVal(fields[k]))
  }

  /** Every integer fits i64. */
  predicate IntegersFit(j: Json)
    decreases j
  {
    match j
    case JNumber(n) => n.PosInt? ==> n.u <= I64_MAX
    case JArray(items) => forall i :: 0 <= i < |items| ==> IntegersFit(items[i])
    case JObject(fields) => forall k :: k in fields ==> IntegersFit(fields[k])
    case _ => true
  }

  // ----- Round trips -----

  /** Every JSON value survives the way to a `Val` and back. */
  lemma {:induction false} FromJsonRoundTrip(j: Json)
    ensures ToJson(FromJson(j)) == Some(j)
    decreases j
  {
    match j
    case JArray(items) =>
      forall i | 0 <= i < |items| ensures ToJson(FromJson(items[i])) == Some(items[i]) { FromJsonRoundTrip(items[i]); }
      assert ToJson(FromJson(j)).value.items == items;
    case JObject(fields) =>
      forall k | k in fields ensures ToJson(FromJson(fields[k])) == Some(fields[k]) { FromJsonRoundTrip(fields[k]); }
      assert ToJson(FromJson(j)).value.fields == fields;
    case _ =>
  }

  /** The two conversions from JSON agree exactly on values whose integers all fit i64. */
  lemma {:induction false} ConversionsAgree(j: Json)
    ensures JsonToVal(j) == FromJson(j) <==> IntegersFit(j)
    decreases j
  {
    match j
    case JArray(items) =>
      forall i | 0 <= i < |items| ensures JsonToVal(items[i]) == FromJson(items[i]) <==> IntegersFit(items[i]) {
        ConversionsAgree(items[i]);
      }
      if JsonToVal(j) == FromJson(j) {
        forall i | 0 <= i < |items| ensures IntegersFit(items[i]) {
          assert JsonToVal(j).items[i] == FromJson(j).items[i];
        }
      }
    case JObject(fields) =>
      forall k | k in fields ensures JsonToVal(fields[k]) == FromJson(fields[k]) <==> IntegersFit(fields[k]) {
        ConversionsAgree(fields[k]);
      }
      if JsonToVal(j) == FromJson(j) {
        forall k | k in fields ensures IntegersFit(fields[k]) {
          assert JsonToVal(j).fields[k] == FromJson(j).fields[k];
        }
      }
    case _ =>
  }

  /** The untyped conversion loses nothing exactly when the integers fit i64. */
  lemma {:induction false} JsonToValRoundTrip(j: Json)
    ensures ToJson(JsonToVal(j)).Some?
    ensures ToJson(JsonToVal(j)) == Some(j) <==> IntegersFit(j)
    decreases j
  {
    match j
    case JArray(items) =>
      forall i | 0 <= i < |items|
        ensures ToJson(JsonToVal(items[i])).Some? &&
                (ToJson(JsonToVal(items[i])) == Some(items[i]) <==> IntegersFit(items[i]))
      {
        JsonToValRoundTrip(items[i]);
      }
      if ToJson(JsonToVal(j)) == Some(j) {
        forall i | 0 <= i < |items| ensures IntegersFit(items[i]) {
          assert ToJson(JsonToVal(j)).value.items[i] == items[i];
        }
      }
      if IntegersFit(j) {
        assert ToJson(JsonToVal(j)).value.items == items;
      }
    case JObject(fields) =>
      forall k | k in fields
        ensures ToJson(JsonToVal(fields[k])).Some? &&
                (ToJson(JsonToVal(fields[k])) == Some(fields[k]) <==> IntegersFit(fields[k]))
      {
        JsonToValRoundTrip(fields[k]);
      }
      if ToJson(JsonToVal(j)) == Some(j) {
        forall k | k in fields ensures IntegersFit(fields[k]) {
          assert ToJson(JsonToVal(j)).value.fields[k] == fields[k];
        }
      }
      if IntegersFit(j) {
        assert ToJson(JsonToVal(j)).value.fields == fields;
      }
    case _ =>
  }
}
