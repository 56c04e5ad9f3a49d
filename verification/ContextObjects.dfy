/** The context objects themselves: each override refers to the context it was made from, and all share its caches. */
module ContextObjects {
  import opened Wrappers
  import opened Values
  import opened RequestContexts
  import opened ContextCaches

  datatype Kind = UserKind(extractors: map<string, Extractor>) | OverriddenKind(fields: Json) | InternalKind

  class RequestContext {
    const kind: Kind
    const base: RequestContext?
    ghost const Repr: set<RequestContext>
    var cache: Cache

    ghost predicate Valid()
      decreases Repr
    {
      this in Repr &&
      if kind.UserKind? then base == null && Repr == {this}
      else base != null && this !in base.Repr && Repr == base.Repr + {this} && base.Valid()
    }

    /** The chain this context is the innermost layer of. */
    ghost function View(): Chain
      requires Valid()
      reads Repr
      decreases Repr
    {
      match kind
      case UserKind(extractors) => UserChain(extractors, cache)
      case OverriddenKind(fields) => OverriddenChain(base.View(), fields, cache)
      case InternalKind => InternalChain(base.View())
    }

    constructor (extractors: map<string, Extractor>)
      ensures Valid() && fresh(Repr) && View() == UserChain(extractors, map[])
    {
      kind, base, Repr, cache := UserKind(extractors), null, {this}, map[];
    }

    constructor WithOverride(on: RequestContext, fields: Json)
      requires on.Valid()
      ensures Valid() && fresh(this) && Repr == on.Repr + {this} && base == on
      ensures View() == OverriddenChain(on.View(), fields, map[])
    {
      kind, base, Repr, cache := OverriddenKind(fields), on, on.Repr + {this}, map[];
    }

    constructor WithRequest(on: RequestContext)
      requires on.Valid()
      ensures Valid() && fresh(this) && Repr == on.Repr + {this} && base == on
      ensures View() == InternalChain(on.View())
    {
      kind, base, Repr, cache := InternalKind, on, on.Repr + {this}, map[];
    }

    method ExtractContextField(l: Lookup) returns (r: Extracted)
      requires Valid()
      modifies Repr
      ensures (View(), r) == Extract(old(View()), l)
      decreases Repr
    {
      match kind
      case UserKind(extractors) =>
        var k := SourceKey(l);
        if k in cache { return Ok(cache[k]); }
        r := FromSource(extractors, l);
        if r.Ok? { cache := cache[k := r.value]; }
      case InternalKind =>
        r := base.ExtractContextField(l);
      case OverriddenKind(fields) =>
        var k := FieldKey(l);
        if k in cache { return Ok(cache[k]); }
        match Overriding(fields, k)
        case Some(v) =>
          r := Coerced(v, l);
          if r.Ok? { cache := cache[k := r.value]; }
        case None =>
          r := base.ExtractContextField(l);
    }

    /** A lookup through the context `depth` layers below this one. */
    method LookUp(call: Call) returns (r: Extracted)
      requires Valid()
      modifies Repr
      ensures (View(), r) == Step(old(View()), call)
      decreases Repr
    {
      if call.depth == 0 || kind.UserKind? {
        r := ExtractContextField(call.lookup);
      } else {
        r := base.LookUp(Deeper(call));
      }
    }

    /** Any sequence of lookups, some through outer contexts, on caches that start empty. */
    method LookUpAll(calls: seq<Call>) returns (answers: seq<Extracted>)
      requires Valid()
      modifies Repr
      ensures (View(), answers) == RunCalls(old(View()), calls)
      ensures Fresh(old(View())) ==>
                ((forall i :: 0 <= i < |calls| ==> answers[i] == Meaning(LayersOf(old(View())), calls[i])) <==>
                 NoPollution(LayersOf(old(View())), calls))
    {
      ghost var start := View();
      answers := [];
      assert calls[..0] == [];
      for i := 0 to |calls|
        invariant (View(), answers) == RunCalls(start, calls[..i])
      {
        assert calls[..i + 1][..i] == calls[..i];
        var r := LookUp(calls[i]);
        answers := answers + [r];
      }
      assert calls[..|calls|] == calls;
      if Fresh(start) { CachedIsUncached(start, calls); }
    }
  }
}
