/** What the conversions between JSON and resolver values do, as relations. */
module ValueMeaning {
  import opened Wrappers
  import opened Values

  /** An integer as a JSON number. */
  predicate IntegerOf(n: Number, i: int) {
    match n
    case PosInt(u) => i == u
    case NegInt(k) => i == k
    case FloatNumber(_) => false
  }

  /** A number read from JSON: i64 if it fits, else u64; floats stay floats. */
  predicate NumberRead(n: Number, v: ValNumber) {
    match v
    case I64(i) => IntegerOf(n, i)
    case U64(u) => IntegerOf(n, u) && u > 0x7FFF_FFFF_FFFF_FFFF
    case F64(f) => n == FloatNumber(f)
    case _ => false
  }

  predicate Read(j: Json, v: Val)
    decreases j
  {
    match v
    case VNull => j == JNull
    case VBool(b) => j == JBool(b)
    case VNumber(n) => j.JNumber? && NumberRead(j.n, n)
    case VString(s) => j == JString(s)
    case VList(items) =>
      j.JArray? && |j.items| == |items| && forall i :: 0 <= i < |j.items| ==> Read(j.items[i], items[i])
    case VObject(fields) =>
      j.JObject? && j.fields.Keys == fields.Keys && forall k :: k in j.fields ==> Read(j.fields[k], fields[k])
    case _ => false
  }

  lemma {:induction false} ReadExactly(j: Json, v: Val)
    ensures Read(j, v) <==> v == FromJson(j)
    decreases j
  {
    match j
    case JArray(items) =>
      if v.VList? && |v.items| == |items| {
        forall i | 0 <= i < |items| ensures Read(items[i], v.items[i]) <==> v.items[i] == FromJson(items[i]) {
          ReadExactly(items[i], v.items[i]);
        }
        if Read(j, v) { assert v.items == FromJson(j).items; }
      }
    case JObject(fields) =>
      if v.VObject? && v.fields.Keys == fields.Keys {
        forall k | k in fields ensures Read(fields[k], v.fields[k]) <==> v.fields[k] == FromJson(fields[k]) {
          ReadExactly(fields[k], v.fields[k]);
        }
        if Read(j, v) { assert v.fields == FromJson(j).fields; }
      }
    case _ =>
  }

  predicate NumberWritten(v: ValNumber, n: Number) {
    match v
    case I32(i) => IntegerOf(n, i)
    case I64(i) => IntegerOf(n, i)
    case U64(u) => IntegerOf(n, u)
    case F32(f) => n == FloatNumber(f)
    case F64(f) => n == FloatNumber(f)
  }

  /** Enum values are written as strings; binaries cannot be written. */
  predicate Written(v: Val, j: Json)
    decreases v
  {
    match v
    case VNull => j == JNull
    case VBool(b) => j == JBool(b)
    case VNumber(n) => j.JNumber? && NumberWritten(n, j.n)
    case VString(s) => j == JString(s)
    case VEnum(s) => j == JString(s)
    case VBinary => false
    case VList(items) =>
      j.JArray? && |j.items| == |items| && forall i :: 0 <= i < |items| ==> Written(items[i], j.items[i])
    case VObject(fields) =>
      j.JObject? && j.fields.Keys == fields.Keys && forall k :: k in fields ==> Written(fields[k], j.fields[k])
  }

  lemma {:induction false} WrittenExactly(v: Val, j: Json)
    ensures Written(v, j) <==> ToJson(v) == Some(j)
    decreases v
  {
    match v
    case VList(items) =>
      if j.JArray? && |j.items| == |items| {
        forall i | 0 <= i < |items| ensures Written(items[i], j.items[i]) <==> ToJson(items[i]) == Some(j.items[i]) {
          WrittenExactly(items[i], j.items[i]);
        }
        if Written(v, j) { assert j.items == ToJson(v).value.items; }
      }
    case VObject(fields) =>
      if j.JObject? && j.fields.Keys == fields.Keys {
        forall k | k in fields ensures Written(fields[k], j.fields[k]) <==> ToJson(fields[k]) == Some(j.fields[k]) {
          WrittenExactly(fields[k], j.fields[k]);
        }
        if Written(v, j) { assert j.fields == ToJson(v).value.fields; }
      }
    case _ =>
  }
}
