/** When a chain with caches answers as its layers mean, and the classes that keep the caches. */
module ContextCaches {
  import opened Wrappers
  import opened Values
  import opened RequestContexts

  function Down(call: Call): Call {
    if call.depth > 0 then Deeper(call) else call
  }

  /** An override decides the call. */
  predicate DecidedBy(fields: Json, call: Call) {
    call.depth == 0 && Overriding(fields, FieldKey(call.lookup)).Some?
  }

  /** The two calls share a cache entry: the earlier one may fill it with what the later one should not get. */
  predicate Pollutes(layers: Layers, earlier: Call, later: Call) {
    match layers
    case User(extractors) =>
      var (a, b) := (FromSource(extractors, earlier.lookup), FromSource(extractors, later.lookup));
      SourceKey(earlier.lookup) == SourceKey(later.lookup) && a.Ok? && a != b
    case Internal(base) => Pollutes(base, Down(earlier), Down(later))
    case Overridden(base, fields) =>
      if DecidedBy(fields, earlier) then
        DecidedBy(fields, later) && FieldKey(earlier.lookup) == FieldKey(later.lookup) &&
        var (a, b) := (Uncached(layers, earlier.lookup), Uncached(layers, later.lookup));
        a.Ok? && a != b
      else
        !DecidedBy(fields, later) && Pollutes(base, Down(earlier), Down(later))
  }

  predicate Fresh(c: Chain) {
    match c
    case UserChain(_, cache) => cache == map[]
    case InternalChain(base) => Fresh(base)
    case OverriddenChain(base, _, cache) => cache == map[] && Fresh(base)
  }

  /** An override caches fields it defines only. */
  predicate OwnKeys(c: Chain) {
    match c
    case UserChain(_, _) => true
    case InternalChain(base) => OwnKeys(base)
    case OverriddenChain(base, fields, cache) => OwnKeys(base) && forall k :: k in cache ==> Overriding(fields, k).Some?
  }

  lemma {:induction false} FreshOwnKeys(c: Chain)
    requires Fresh(c)
    ensures OwnKeys(c)
  {
    if !c.UserChain? { FreshOwnKeys(c.base); }
  }

  /** A call that the outermost remaining layer does not decide is one to its base. */
  lemma StepDown(c: Chain, call: Call)
    requires !c.UserChain? && OwnKeys(c) && (c.OverriddenChain? ==> !DecidedBy(c.fields, call))
    ensures var (base', r) := Step(c.base, Down(call));
            Step(c, call) ==
              (if c.InternalChain? then InternalChain(base') else OverriddenChain(base', c.fields, c.cache), r)
    ensures Meaning(LayersOf(c), call) == Meaning(LayersOf(c.base), Down(call))
  {
  }

  predicate DecidedHere(c: Chain, call: Call) {
    c.OverriddenChain? && DecidedBy(c.fields, call)
  }

  lemma {:induction false} StepOwnKeys(c: Chain, call: Call)
    requires OwnKeys(c)
    ensures OwnKeys(Step(c, call).0)
  {
    if !c.UserChain? && !DecidedHere(c, call) {
      StepOwnKeys(c.base, Down(call));
      StepDown(c, call);
    }
  }

  // ----- Without pollution, every answer is right -----

  predicate AnswersRight(c: Chain, call: Call) {
    Step(c, call).1 == Meaning(LayersOf(c), call)
  }

  lemma {:induction false} FreshAnswersRight(c: Chain, call: Call)
    requires Fresh(c)
    ensures AnswersRight(c, call)
  {
    FreshOwnKeys(c);
    if !c.UserChain? && !DecidedHere(c, call) {
      StepDown(c, call);
      FreshAnswersRight(c.base, Down(call));
    }
  }

  lemma {:induction false} StaysRight(c: Chain, earlier: Call, later: Call)
    requires OwnKeys(c) && AnswersRight(c, later) && !Pollutes(LayersOf(c), earlier, later)
    ensures AnswersRight(Step(c, earlier).0, later)
  {
    var c' := Step(c, earlier).0;
    StepOwnKeys(c, earlier);
    if !c.UserChain? && !DecidedHere(c, later) {
      StepDown(c, later);
      StepDown(c', later);
      if !DecidedHere(c, earlier) {
        StepDown(c, earlier);
        StaysRight(c.base, Down(earlier), Down(later));
      }
    } else if !c.UserChain? && !DecidedHere(c, earlier) {
      StepDown(c, earlier);
    }
  }

  // ----- A pollution makes some answer wrong -----

  /** The call's own answer is cached where it was found. */
  predicate Holds(c: Chain, call: Call) {
    match c
    case UserChain(extractors, cache) =>
      var own := FromSource(extractors, call.lookup);
      var k := SourceKey(call.lookup);
      own.Ok? ==> k in cache && cache[k] == own.value
    case InternalChain(base) => Holds(base, Down(call))
    case OverriddenChain(base, fields, cache) =>
      if DecidedBy(fields, call) then
        var own := Uncached(LayersOf(c), call.lookup);
        var k := FieldKey(call.lookup);
        own.Ok? ==> k in cache && cache[k] == own.value
      else Holds(base, Down(call))
  }

  lemma {:induction false} RightIsHeld(c: Chain, call: Call)
    requires OwnKeys(c) && AnswersRight(c, call)
    ensures Holds(Step(c, call).0, call)
  {
    if !c.UserChain? && !DecidedHere(c, call) {
      StepDown(c, call);
      RightIsHeld(c.base, Down(call));
    }
  }

  lemma {:induction false} HoldsStays(c: Chain, call: Call, next: Call)
    requires OwnKeys(c) && Holds(c, call)
    ensures Holds(Step(c, next).0, call)
  {
    if !c.UserChain? && !DecidedHere(c, next) {
      StepDown(c, next);
      if !DecidedHere(c, call) { HoldsStays(c.base, Down(call), Down(next)); }
    }
  }

  lemma {:induction false} HeldPollutes(c: Chain, earlier: Call, later: Call)
    requires OwnKeys(c) && Holds(c, earlier) && Pollutes(LayersOf(c), earlier, later)
    ensures !AnswersRight(c, later)
  {
    if !c.UserChain? && !DecidedHere(c, earlier) {
      StepDown(c, later);
      HeldPollutes(c.base, Down(earlier), Down(later));
    }
  }

  // ----- All runs -----

  predicate AllRight(c: Chain, calls: seq<Call>) {
    forall i :: 0 <= i < |calls| ==> RunCalls(c, calls).1[i] == Meaning(LayersOf(c), calls[i])
  }

  predicate NoPollution(layers: Layers, calls: seq<Call>) {
    forall i, j :: 0 <= i < j < |calls| ==> !Pollutes(layers, calls[i], calls[j])
  }

  lemma {:induction false} RunFacts(c: Chain, calls: seq<Call>)
    requires Fresh(c)
    ensures OwnKeys(RunCalls(c, calls).0)
    ensures AllRight(c, calls) ==> forall i :: 0 <= i < |calls| ==> Holds(RunCalls(c, calls).0, calls[i])
  {
    FreshOwnKeys(c);
    if calls != [] {
      var n := |calls| - 1;
      RunFacts(c, calls[..n]);
      var c1 := RunCalls(c, calls[..n]).0;
      StepOwnKeys(c1, calls[n]);
      if AllRight(c, calls) {
        RightBefore(c, calls);
        forall i | 0 <= i < |calls| ensures Holds(RunCalls(c, calls).0, calls[i]) {
          if i < n {
            assert calls[..n][i] == calls[i];
            HoldsStays(c1, calls[i], calls[n]);
          } else {
            RightIsHeld(c1, calls[n]);
          }
        }
      }
    }
  }

  lemma RightBefore(c: Chain, calls: seq<Call>)
    requires calls != []
    ensures AllRight(c, calls) <==>
            AllRight(c, calls[..|calls| - 1]) && AnswersRight(RunCalls(c, calls[..|calls| - 1]).0, calls[|calls| - 1])
  {
    var n := |calls| - 1;
    var few, all := RunCalls(c, calls[..n]).1, RunCalls(c, calls).1;
    assert forall i :: 0 <= i < n ==> all[i] == few[i] && calls[..n][i] == calls[i];
    if AllRight(c, calls) {
      assert all[n] == Meaning(LayersOf(c), calls[n]);
      forall i | 0 <= i < n ensures few[i] == Meaning(LayersOf(c), calls[..n][i]) { assert all[i] == few[i]; }
    }
  }

  lemma {:induction false} RightAfter(c: Chain, calls: seq<Call>, call: Call)
    requires Fresh(c) && forall i :: 0 <= i < |calls| ==> !Pollutes(LayersOf(c), calls[i], call)
    ensures AnswersRight(RunCalls(c, calls).0, call)
  {
    if calls == [] { FreshAnswersRight(c, call); }
    else {
      var n := |calls| - 1;
      RightAfter(c, calls[..n], call);
      RunFacts(c, calls[..n]);
      StaysRight(RunCalls(c, calls[..n]).0, calls[n], call);
    }
  }

  /** From empty caches, every answer is the uncached one exactly when no call pollutes a later one. */
  lemma {:induction false} CachedIsUncached(c: Chain, calls: seq<Call>)
    requires Fresh(c)
    ensures AllRight(c, calls) <==> NoPollution(LayersOf(c), calls)
  {
    if calls != [] {
      var n := |calls| - 1;
      var few := calls[..n];
      CachedIsUncached(c, few);
      RightBefore(c, calls);
      RunFacts(c, few);
      if NoPollution(LayersOf(c), calls) {
        RightAfter(c, few, calls[n]);
      }
      if AllRight(c, calls) {
        forall i | 0 <= i < n ensures !Pollutes(LayersOf(c), calls[i], calls[n]) {
          assert few[i] == calls[i];
          if Pollutes(LayersOf(c), calls[i], calls[n]) { HeldPollutes(RunCalls(c, few).0, calls[i], calls[n]); }
        }
        forall i, j | 0 <= i < j < |calls| ensures !Pollutes(LayersOf(c), calls[i], calls[j]) {
          if j < n { assert few[i] == calls[i] && few[j] == calls[j]; }
        }
      }
    }
  }

  /** The calls agree on the coercion of a value, whenever they share a cache key. */
  ghost predicate SameCoercion(a: Lookup, b: Lookup) {
    SourceKey(a) == SourceKey(b) || FieldKey(a) == FieldKey(b) ==> forall v: Val :: a.coerce(v) == b.coerce(v)
  }

  lemma {:induction false} OneCoercionNoPollution(layers: Layers, earlier: Call, later: Call)
    requires SameCoercion(earlier.lookup, later.lookup)
    ensures !Pollutes(layers, earlier, later)
  {
    if !layers.User? { OneCoercionNoPollution(layers.base, Down(earlier), Down(later)); }
  }

  /** With one coercion per cache key, caching never changes an answer. */
  lemma OneCoercionPerKey(c: Chain, calls: seq<Call>)
    requires Fresh(c)
    requires forall i, j :: 0 <= i < j < |calls| ==> SameCoercion(calls[i].lookup, calls[j].lookup)
    ensures AllRight(c, calls)
  {
    forall i, j | 0 <= i < j < |calls| ensures !Pollutes(LayersOf(c), calls[i], calls[j]) {
      OneCoercionNoPollution(LayersOf(c), calls[i], calls[j]);
    }
    CachedIsUncached(c, calls);
  }

  /** Two context types that read one header as different types break the agreement. */
  lemma TwoTypesOneHeader()
    ensures var extractors: map<string, Extractor> := map["header" := k => Ok(Some(JString("1")))];
            var text := Call(0, Lookup("A", "header", Some("X-Level"), "level", v => Ok(v)));
            var number := Call(0, Lookup("B", "header", Some("X-Level"), "level", v => Ok(VNumber(I64(1)))));
            Pollutes(User(extractors), text, number) && !AllRight(UserChain(extractors, map[]), [text, number])
  {
    var extractors: map<string, Extractor> := map["header" := k => Ok(Some(JString("1")))];
    var text := Call(0, Lookup("A", "header", Some("X-Level"), "level", v => Ok(v)));
    var number := Call(0, Lookup("B", "header", Some("X-Level"), "level", v => Ok(VNumber(I64(1)))));
    var c, calls := UserChain(extractors, map[]), [text, number];
    assert FromSource(extractors, text.lookup) == Ok(Some(VString("1")));
    assert FromSource(extractors, number.lookup) == Ok(Some(VNumber(I64(1))));
    CachedIsUncached(c, calls);
    assert calls[0] == text && calls[1] == number;
  }
}
