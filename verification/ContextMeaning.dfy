/** What looking up a context field means, and which lookups spoil each other's cache entries, in terms of the
    requests. */
module ContextMeaning {
  import opened Wrappers
  import opened Values
  import opened ValueMeaning
  import opened RequestContexts
  import opened ContextCaches

  // ----- Looking up -----

  /** The value read from JSON, fitted to the type of the field. */
  ghost predicate Fitted(j: Json, l: Lookup, r: Extracted) {
    exists v :: Read(j, v) &&
                match l.coerce(v)
                case Ok(c) => r == Ok(Some(c))
                case Err(e) => r == Err(e)
  }

  /** The key that an extractor is asked for: that of the annotation, or else the name of the field. */
  predicate AsksFor(l: Lookup, key: string) {
    match l.annotationKey
    case Some(k) => key == k
    case None => key == l.field
  }

  /** What the user's request answers. */
  ghost predicate RequestAnswers(extractors: map<string, Extractor>, l: Lookup, r: Extracted) {
    if l.annotation !in extractors then r == Err(SourceNotFound(l.annotation))
    else exists key :: AsksFor(l, key) && ExtractorAnswers(extractors[l.annotation], key, l, r)
  }

  ghost predicate ExtractorAnswers(extractor: Extractor, key: string, l: Lookup, r: Extracted) {
    match extractor(key)
    case Err(e) => r == Err(e)
    case Ok(None) => r == Ok(None)
    case Ok(Some(j)) => Fitted(j, l, r)
  }

  /** The override has an object for the context type, and the object has the field. */
  predicate Defines(fields: Json, contextType: string, field: string) {
    && fields.JObject? && contextType in fields.fields
    && fields.fields[contextType].JObject? && field in fields.fields[contextType].fields
  }

  /** What a request means by a context field: its override's value, an explicit null included, or else what the
      request below means; an internal request means what the one below does. */
  ghost predicate Answers(layers: Layers, l: Lookup, r: Extracted) {
    match layers
    case User(extractors) => RequestAnswers(extractors, l, r)
    case Internal(base) => Answers(base, l, r)
    case Overridden(base, fields) =>
      if Defines(fields, l.contextType, l.field) then Fitted(fields.fields[l.contextType].fields[l.field], l, r)
      else Answers(base, l, r)
  }

  lemma FittedExactly(j: Json, l: Lookup, r: Extracted)
    ensures Fitted(j, l, r) <==> r == Coerced(FromJson(j), l)
  {
    forall v ensures Read(j, v) <==> v == FromJson(j) { ReadExactly(j, v); }
  }

  lemma RequestExactly(extractors: map<string, Extractor>, l: Lookup, r: Extracted)
    ensures RequestAnswers(extractors, l, r) <==> r == FromSource(extractors, l)
  {
    if l.annotation in extractors {
      var key := SourceKey(l).1;
      assert forall k :: AsksFor(l, k) <==> k == key;
      assert AsksFor(l, key);
      assert RequestAnswers(extractors, l, r) <==> ExtractorAnswers(extractors[l.annotation], key, l, r);
      match extractors[l.annotation](key)
      case Ok(Some(j)) => FittedExactly(j, l, r);
      case _ =>
    }
  }

  /** A lookup without caches answers what the request means. */
  lemma {:induction false} AnswersExactly(layers: Layers, l: Lookup, r: Extracted)
    ensures Answers(layers, l, r) <==> r == Uncached(layers, l)
  {
    match layers
    case User(extractors) => RequestExactly(extractors, l, r);
    case Internal(base) => AnswersExactly(base, l, r);
    case Overridden(base, fields) =>
      if Defines(fields, l.contextType, l.field) {
        FittedExactly(fields.fields[l.contextType].fields[l.field], l, r);
      } else {
        AnswersExactly(base, l, r);
      }
  }

  // ----- Spoiling -----

  /** An override answers the call itself. */
  predicate AnsweredBy(fields: Json, call: Call) {
    call.depth == 0 && Defines(fields, call.lookup.contextType, call.lookup.field)
  }

  /** The call as made to the layer below. */
  ghost predicate Passed(call: Call, below: Call) {
    below.lookup == call.lookup && below.depth == if call.depth == 0 then 0 else call.depth - 1
  }

  /** Both ask the user's request for the same annotation and key, but get different values: the earlier one's, which is
      remembered, is not the later one's. */
  ghost predicate SpoilsRequest(extractors: map<string, Extractor>, a: Lookup, b: Lookup) {
    && a.annotation == b.annotation && (exists key :: AsksFor(a, key) && AsksFor(b, key))
    && exists r :: RequestAnswers(extractors, a, Ok(r)) && !RequestAnswers(extractors, b, Ok(r))
  }

  /** Both ask an override for the same field of the same context type. */
  ghost predicate SpoilsOverride(layers: Layers, a: Lookup, b: Lookup) {
    && a.contextType == b.contextType && a.field == b.field
    && exists r :: Answers(layers, a, Ok(r)) && !Answers(layers, b, Ok(r))
  }

  ghost predicate Spoils(layers: Layers, a: Call, b: Call) {
    match layers
    case User(extractors) => SpoilsRequest(extractors, a.lookup, b.lookup)
    case Internal(base) => exists a', b' :: Passed(a, a') && Passed(b, b') && Spoils(base, a', b')
    case Overridden(base, fields) =>
      if AnsweredBy(fields, a) then AnsweredBy(fields, b) && SpoilsOverride(layers, a.lookup, b.lookup)
      else !AnsweredBy(fields, b) && exists a', b' :: Passed(a, a') && Passed(b, b') && Spoils(base, a', b')
  }

  lemma SpoilsRequestExactly(extractors: map<string, Extractor>, a: Lookup, b: Lookup)
    ensures SpoilsRequest(extractors, a, b) <==>
            var (x, y) := (FromSource(extractors, a), FromSource(extractors, b));
            SourceKey(a) == SourceKey(b) && x.Ok? && x != y
  {
    var x := FromSource(extractors, a);
    forall r: Option<Val>
      ensures RequestAnswers(extractors, a, Ok(r)) <==> Ok(r) == x
      ensures RequestAnswers(extractors, b, Ok(r)) <==> Ok(r) == FromSource(extractors, b)
    {
      RequestExactly(extractors, a, Ok(r));
      RequestExactly(extractors, b, Ok(r));
    }
    assert (exists key :: AsksFor(a, key) && AsksFor(b, key)) <==> SourceKey(a).1 == SourceKey(b).1 by {
      assert AsksFor(a, SourceKey(a).1);
    }
    if x.Ok? { assert RequestAnswers(extractors, a, Ok(x.value)); }
  }

  lemma SpoilsOverrideExactly(layers: Layers, a: Lookup, b: Lookup)
    ensures SpoilsOverride(layers, a, b) <==>
            var (x, y) := (Uncached(layers, a), Uncached(layers, b));
            FieldKey(a) == FieldKey(b) && x.Ok? && x != y
  {
    var x := Uncached(layers, a);
    forall r: Option<Val>
      ensures Answers(layers, a, Ok(r)) <==> Ok(r) == x
      ensures Answers(layers, b, Ok(r)) <==> Ok(r) == Uncached(layers, b)
    {
      AnswersExactly(layers, a, Ok(r));
      AnswersExactly(layers, b, Ok(r));
    }
    if x.Ok? { assert Answers(layers, a, Ok(x.value)); }
  }

  /** The lookups that pollute a later one are those that spoil it. */
  lemma {:induction false} SpoilsExactly(layers: Layers, a: Call, b: Call)
    ensures Spoils(layers, a, b) <==> Pollutes(layers, a, b)
  {
    assert forall c :: Passed(a, c) <==> c == Down(a);
    assert forall c :: Passed(b, c) <==> c == Down(b);
    match layers
    case User(extractors) => SpoilsRequestExactly(extractors, a.lookup, b.lookup);
    case Internal(base) => SpoilsExactly(base, Down(a), Down(b));
    case Overridden(base, fields) =>
      SpoilsOverrideExactly(layers, a.lookup, b.lookup);
      SpoilsExactly(base, Down(a), Down(b));
  }
}
