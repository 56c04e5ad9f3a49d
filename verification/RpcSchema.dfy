/** RPC schemas: methods with parameters, and the object types their schemas name. */
module RpcSchema {
  import opened Wrappers

  datatype TypeSchema =
    | Scalar(name: string)
    | Enum(values: seq<string>)
    | Object(typeRef: string)
    | Array(items: TypeSchema)
    | Optional(inner: TypeSchema)
    | OneOf(variants: seq<Variant>)

  datatype Variant =
    | Inline(properties: seq<Declared>, required: seq<string>)
    | RefTo(typeRef: string)

  /** A parameter of a method, a field of an object type, or a property of a variant. */
  datatype Declared = Declared(name: string, schema: TypeSchema)

  datatype ObjectType = ObjectType(fields: seq<Declared>, additionalPropertiesFalse: bool)

  datatype RpcMethod = RpcMethod(name: string, params: seq<Declared>, result: TypeSchema)

  type Components = map<string, ObjectType>

  predicate Required(d: Declared) {
    !d.schema.Optional?
  }

  function Names(ds: seq<Declared>): (names: set<string>)
    ensures forall n :: n in names <==> exists i :: 0 <= i < |ds| && ds[i].name == n
  {
    set i | 0 <= i < |ds| :: ds[i].name
  }

  predicate Distinct(ds: seq<Declared>) {
    forall i, j :: 0 <= i < j < |ds| ==> ds[i].name != ds[j].name
  }

  /** The declaration that takes a supplied key: the first one of that name. */
  function Taker(ds: seq<Declared>, n: string): (i: nat)
    requires n in Names(ds)
    ensures i < |ds| && ds[i].name == n && n !in Names(ds[..i])
  {
    if ds[0].name == n then 0
    else
      assert n in Names(ds[1..]) by {
        var k :| 0 <= k < |ds| && ds[k].name == n;
        assert ds[1..][k - 1].name == n;
      }
      var i := Taker(ds[1..], n);
      assert ds[..i + 1][1..] == ds[1..][..i];
      i + 1
  }

  lemma TakerIs(ds: seq<Declared>, i: nat)
    requires i < |ds| && ds[i].name !in Names(ds[..i])
    ensures Taker(ds, ds[i].name) == i
  {
    var t := Taker(ds, ds[i].name);
    forall k | 0 <= k < i ensures ds[k].name != ds[i].name { assert ds[..i][k] == ds[k]; }
    forall k | 0 <= k < t ensures ds[k].name != ds[i].name { assert ds[..t][k] == ds[k]; }
  }

  lemma NamesNext(ds: seq<Declared>, i: nat)
    requires i < |ds|
    ensures Names(ds[..i + 1]) == Names(ds[..i]) + {ds[i].name}
  {
    assert ds[..i + 1] == ds[..i] + [ds[i]];
    assert forall k :: 0 <= k < i ==> ds[..i + 1][k] == ds[..i][k];
    assert ds[..i + 1][i] == ds[i];
  }

  // ----- References -----

  /** Every type a schema names is among `names`. */
  predicate RefsWithin(s: TypeSchema, names: set<string>)
    decreases s
  {
    match s
    case Scalar(_) => true
    case Enum(_) => true
    case Object(r) => r in names
    case Array(items) => RefsWithin(items, names)
    case Optional(inner) => RefsWithin(inner, names)
    case OneOf(variants) => forall i :: 0 <= i < |variants| ==> VariantWithin(variants[i], names)
  }

  predicate VariantWithin(v: Variant, names: set<string>)
    decreases v
  {
    match v
    case Inline(properties, _) => forall k :: 0 <= k < |properties| ==> RefsWithin(properties[k].schema, names)
    case RefTo(r) => r in names
  }

  predicate DeclaredWithin(ds: seq<Declared>, names: set<string>) {
    forall i :: 0 <= i < |ds| ==> RefsWithin(ds[i].schema, names)
  }

  predicate ComponentsClosed(components: Components) {
    forall n :: n in components ==> DeclaredWithin(components[n].fields, components.Keys)
  }

  predicate MethodWithin(m: RpcMethod, names: set<string>) {
    DeclaredWithin(m.params, names) && RefsWithin(m.result, names)
  }

  /** Every reference of the schema resolves. */
  predicate Closed(methods: seq<RpcMethod>, components: Components) {
    ComponentsClosed(components) && forall i :: 0 <= i < |methods| ==> MethodWithin(methods[i], components.Keys)
  }

  lemma {:induction false} MoreNames(s: TypeSchema, few: set<string>, many: set<string>)
    requires RefsWithin(s, few) && few <= many
    ensures RefsWithin(s, many)
    decreases s
  {
    match s
    case Array(items) => MoreNames(items, few, many);
    case Optional(inner) => MoreNames(inner, few, many);
    case OneOf(variants) =>
      forall i | 0 <= i < |variants| ensures VariantWithin(variants[i], many) {
        assert VariantWithin(variants[i], few);
        if variants[i].Inline? {
          forall k | 0 <= k < |variants[i].properties| ensures RefsWithin(variants[i].properties[k].schema, many) {
            MoreNames(variants[i].properties[k].schema, few, many);
          }
        }
      }
    case _ =>
  }

  lemma MoreNamesEach(ds: seq<Declared>, few: set<string>, many: set<string>)
    requires DeclaredWithin(ds, few) && few <= many
    ensures DeclaredWithin(ds, many)
  {
    forall i | 0 <= i < |ds| ensures RefsWithin(ds[i].schema, many) { MoreNames(ds[i].schema, few, many); }
  }

  /** Merging keeps references resolved, also where a component is replaced. */
  lemma MergeKeepsClosed(ms: seq<RpcMethod>, cs: Components, ms': seq<RpcMethod>, cs': Components)
    requires Closed(ms, cs) && Closed(ms', cs')
    ensures Closed(ms + ms', cs + cs')
  {
    var many := (cs + cs').Keys;
    forall n | n in cs + cs' ensures DeclaredWithin((cs + cs')[n].fields, many) {
      if n in cs' { MoreNamesEach(cs'[n].fields, cs'.Keys, many); } else { MoreNamesEach(cs[n].fields, cs.Keys, many); }
    }
    forall i | 0 <= i < |ms + ms'| ensures MethodWithin((ms + ms')[i], many) {
      if i < |ms| {
        MoreNamesEach(ms[i].params, cs.Keys, many);
        MoreNames(ms[i].result, cs.Keys, many);
      } else {
        var m := ms'[i - |ms|];
        MoreNamesEach(m.params, cs'.Keys, many);
        MoreNames(m.result, cs'.Keys, many);
      }
    }
  }

  class Schema {
    var methods: seq<RpcMethod>
    var components: Components

    constructor ()
      ensures methods == [] && components == map[]
    {
      methods, components := [], map[];
    }

    method AddMethod(m: RpcMethod)
      modifies this`methods
      ensures methods == old(methods) + [m]
    {
      methods := methods + [m];
    }

    method AddObjectType(name: string, t: ObjectType)
      modifies this`components
      ensures components == old(components)[name := t]
    {
      components := components[name := t];
    }

    /** The first method of a name. */
    method Method(name: string) returns (r: Option<RpcMethod>)
      ensures r.None? <==> forall i :: 0 <= i < |methods| ==> methods[i].name != name
      ensures r.Some? ==> exists i :: 0 <= i < |methods| && methods[i] == r.value && r.value.name == name &&
                                      forall k :: 0 <= k < i ==> methods[k].name != name
    {
      for i := 0 to |methods|
        invariant forall k :: 0 <= k < i ==> methods[k].name != name
      {
        if methods[i].name == name { return Some(methods[i]); }
      }
      return None;
    }

    method Merge(other: Schema)
      modifies this
      ensures methods == old(methods) + old(other.methods)
      ensures components == old(components) + old(other.components)
      ensures old(Closed(methods, components)) && old(Closed(other.methods, other.components)) ==>
                Closed(methods, components)
    {
      if Closed(methods, components) && Closed(other.methods, other.components) {
        MergeKeepsClosed(methods, components, other.methods, other.components);
      }
      methods := methods + other.methods;
      components := components + other.components;
    }
  }
}
