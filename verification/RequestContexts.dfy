/**
 Request contexts: a user's request, overrides of its context fields, and requests made internally.

 Every override and the user's request cache what they hand out.  A chain is described twice:
 by its layers alone, which say what a lookup means, and with the caches, which say what it answers.
 */
module RequestContexts {
  import opened Wrappers
  import opened Values

  datatype ContextError = SourceNotFound(annotation: string) | Failed(message: string)

  type Extracted = Result<Option<Val>, ContextError>

  /** How a context field of a context type is to be looked up.  `coerce` fits the value to the field's type. */
  datatype Lookup = Lookup(
    contextType: string, annotation: string, annotationKey: Option<string>, field: string,
    coerce: Val -> Result<Val, ContextError>)

  /** An extractor for an annotation (header, cookie, JWT, ...): what it finds under a key. */
  type Extractor = string -> Result<Option<Json>, ContextError>

  datatype Layers =
    | User(extractors: map<string, Extractor>)
    | Overridden(base: Layers, fields: Json)
    | Internal(base: Layers)

  type Key = (string, string)

  type Cache = map<Key, Option<Val>>

  // ----- What a lookup means -----

  function SourceKey(l: Lookup): Key {
    (l.annotation, if l.annotationKey.Some? then l.annotationKey.value else l.field)
  }

  function FieldKey(l: Lookup): Key {
    (l.contextType, l.field)
  }

  function Get(j: Json, k: string): Option<Json> {
    if j.JObject? && k in j.fields then Some(j.fields[k]) else None
  }

  /** The overriding value of a context type's field, an explicit null included. */
  function Overriding(fields: Json, k: Key): Option<Val> {
    match Get(fields, k.0)
    case None => None
    case Some(contextFields) =>
      match Get(contextFields, k.1)
      case None => None
      case Some(value) => Some(FromJson(value))
  }

  function Coerced(v: Val, l: Lookup): Extracted {
    match l.coerce(v)
    case Ok(c) => Ok(Some(c))
    case Err(e) => Err(e)
  }

  function FromSource(extractors: map<string, Extractor>, l: Lookup): Extracted {
    if l.annotation !in extractors then Err(SourceNotFound(l.annotation))
    else
      match extractors[l.annotation](SourceKey(l).1)
      case Err(e) => Err(e)
      case Ok(None) => Ok(None)
      case Ok(Some(j)) => Coerced(FromJson(j), l)
  }

  /** The innermost override that defines the field decides, else the user's request. */
  function Uncached(layers: Layers, l: Lookup): Extracted {
    match layers
    case User(extractors) => FromSource(extractors, l)
    case Internal(base) => Uncached(base, l)
    case Overridden(base, fields) =>
      match Overriding(fields, FieldKey(l))
      case Some(v) => Coerced(v, l)
      case None => Uncached(base, l)
  }

  /** The overrides of a chain, innermost first. */
  function Overrides(layers: Layers): seq<Json> {
    match layers
    case User(_) => []
    case Internal(base) => Overrides(base)
    case Overridden(base, fields) => [fields] + Overrides(base)
  }

  function BaseExtractors(layers: Layers): map<string, Extractor> {
    match layers
    case User(extractors) => extractors
    case Internal(base) => BaseExtractors(base)
    case Overridden(base, _) => BaseExtractors(base)
  }

  /** Internal requests change nothing, and the innermost override that defines the field wins. */
  lemma {:induction false} InnermostOverrideDecides(layers: Layers, l: Lookup, i: nat)
    requires var os := Overrides(layers);
             && i < |os| && Overriding(os[i], FieldKey(l)).Some?
             && forall k :: 0 <= k < i ==> Overriding(os[k], FieldKey(l)).None?
    ensures Uncached(layers, l) == Coerced(Overriding(Overrides(layers)[i], FieldKey(l)).value, l)
  {
    match layers
    case Internal(base) => InnermostOverrideDecides(base, l, i);
    case Overridden(base, fields) =>
      var os := Overrides(layers);
      assert os[0] == fields;
      if i > 0 {
        assert Overriding(os[0], FieldKey(l)).None?;
        assert forall k :: 0 <= k < i ==> Overrides(base)[k] == os[k + 1];
        InnermostOverrideDecides(base, l, i - 1);
      }
  }

  /** A field that no override defines comes from the user's request. */
  lemma {:induction false} SourceDecides(layers: Layers, l: Lookup)
    requires forall o :: o in Overrides(layers) ==> Overriding(o, FieldKey(l)).None?
    ensures Uncached(layers, l) == FromSource(BaseExtractors(layers), l)
  {
    match layers
    case User(_) =>
    case Internal(base) => SourceDecides(base, l);
    case Overridden(base, fields) =>
      assert fields in Overrides(layers);
      SourceDecides(base, l);
  }

  // ----- What a lookup answers, with caches -----

  datatype Chain =
    | UserChain(extractors: map<string, Extractor>, cache: Cache)
    | OverriddenChain(base: Chain, fields: Json, cache: Cache)
    | InternalChain(base: Chain)

  function LayersOf(c: Chain): Layers {
    match c
    case UserChain(extractors, _) => User(extractors)
    case OverriddenChain(base, fields, _) => Overridden(LayersOf(base), fields)
    case InternalChain(base) => Internal(LayersOf(base))
  }

  /** Errors are not cached; a present entry is used. */
  function Remembered(cache: Cache, k: Key, own: Extracted): (r: (Cache, Extracted)) {
    if k in cache then (cache, Ok(cache[k]))
    else if own.Ok? then (cache[k := own.value], own)
    else (cache, own)
  }

  function Extract(c: Chain, l: Lookup): (r: (Chain, Extracted))
    ensures LayersOf(r.0) == LayersOf(c)
  {
    match c
    case UserChain(extractors, cache) =>
      var (cache', r) := Remembered(cache, SourceKey(l), FromSource(extractors, l));
      (UserChain(extractors, cache'), r)
    case InternalChain(base) =>
      var (base', r) := Extract(base, l);
      (InternalChain(base'), r)
    case OverriddenChain(base, fields, cache) =>
      if FieldKey(l) in cache then (c, Ok(cache[FieldKey(l)]))
      else
        match Overriding(fields, FieldKey(l))
        case Some(v) =>
          var (cache', r) := Remembered(cache, FieldKey(l), Coerced(v, l));
          (OverriddenChain(base, fields, cache'), r)
        case None =>
          var (base', r) := Extract(base, l);
          (OverriddenChain(base', fields, cache), r)
  }

  /** A lookup made `depth` layers below the innermost one. */
  datatype Call = Call(depth: nat, lookup: Lookup)

  function Deeper(c: Call): Call
    requires c.depth > 0
  {
    Call(c.depth - 1, c.lookup)
  }

  /** A call too deep for the chain goes to its innermost remaining layer, the user's request. */
  function Step(c: Chain, call: Call): (r: (Chain, Extracted))
    ensures LayersOf(r.0) == LayersOf(c)
  {
    if call.depth == 0 then Extract(c, call.lookup)
    else
      match c
      case UserChain(_, _) => Extract(c, call.lookup)
      case InternalChain(base) =>
        var (base', r) := Step(base, Deeper(call));
        (InternalChain(base'), r)
      case OverriddenChain(base, fields, cache) =>
        var (base', r) := Step(base, Deeper(call));
        (OverriddenChain(base', fields, cache), r)
  }

  function Meaning(layers: Layers, call: Call): Extracted {
    if call.depth == 0 || layers.User? then Uncached(layers, call.lookup) else Meaning(layers.base, Deeper(call))
  }

  function RunCalls(c: Chain, calls: seq<Call>): (r: (Chain, seq<Extracted>))
    ensures LayersOf(r.0) == LayersOf(c) && |r.1| == |calls|
  {
    if calls == [] then (c, [])
    else
      var n := |calls| - 1;
      var (c1, answers) := RunCalls(c, calls[..n]);
      var (c2, answer) := Step(c1, calls[n]);
      (c2, answers + [answer])
  }
}
