/** Weaving interceptors around operations: from a flat list to a nested tree, and what running the tree does. */
module Weaver {
  import opened Wrappers

  datatype Kind = Before | After | Around

  datatype OperationKind = Query | Mutation

  /** The expressions an interceptor may carry; `Unsupported` ones make the builder panic when reached. */
  datatype Expr =
    | Pattern(text: string)
    | Constant(value: bool)
    | Not(e: Expr)
    | And(first: Expr, second: Expr)
    | Or(first: Expr, second: Expr)
    | Unsupported

  datatype Interception = Interception(expr: Expr, kind: Kind, index: nat)

  /** An interceptor's index across subsystems. */
  datatype Index = Index(subsystem: nat, interceptor: nat)

  datatype Tree =
    | Intercepted(before: seq<Index>, core: Tree, after: seq<Index>)
    | AroundTree(core: Tree, interceptor: Index)
    | Operation

  /** A wildcard matcher: pattern, then input. */
  type Wildcards = (string, string) -> bool

  type Subsystems = seq<(nat, seq<Interception>)>

  // ----- Matching -----

  function Described(name: string, kind: OperationKind): string {
    (if kind.Query? then "query " else "mutation ") + name
  }

  /** `None`: the evaluation reaches an unsupported expression. */
  function Matches(e: Expr, name: string, kind: OperationKind, wild: Wildcards): Option<bool> {
    match e
    case Pattern(text) => Some(wild(text, Described(name, kind)))
    case Constant(b) => Some(b)
    case Not(x) => (match Matches(x, name, kind, wild) case None => None case Some(b) => Some(!b))
    case And(x, y) => (match Matches(x, name, kind, wild) case Some(true) => Matches(y, name, kind, wild) case r => r)
    case Or(x, y) => (match Matches(x, name, kind, wild) case Some(false) => Matches(y, name, kind, wild) case r => r)
    case Unsupported => None
  }

  /** All interceptions in definition order: subsystem by subsystem. */
  function Defined(subsystems: Subsystems): seq<(nat, Interception)> {
    if subsystems == [] then []
    else
      var (i, own) := subsystems[0];
      seq(|own|, k requires 0 <= k < |own| => (i, own[k])) + Defined(subsystems[1..])
  }

  function Selected(defined: seq<(nat, Interception)>, name: string, kind: OperationKind, wild: Wildcards)
    : Option<seq<(nat, Interception)>>
  {
    if defined == [] then Some([])
    else
      var n := |defined| - 1;
      match Selected(defined[..n], name, kind, wild)
      case None => None
      case Some(few) =>
        match Matches(defined[n].1.expr, name, kind, wild)
        case None => None
        case Some(hit) => Some(if hit then few + [defined[n]] else few)
  }

  // ----- The tree -----

  function IndexOf(d: (nat, Interception)): Index {
    Index(d.0, d.1.index)
  }

  /** The interceptors of one kind, in definition order. */
  function OfKind(ds: seq<(nat, Interception)>, kind: Kind): seq<Index> {
    if ds == [] then []
    else
      var n := |ds| - 1;
      OfKind(ds[..n], kind) + if ds[n].1.kind == kind then [IndexOf(ds[n])] else []
  }

  /** Each around wraps the ones before it. */
  function Nest(arounds: seq<Index>): Tree {
    if arounds == [] then Operation
    else AroundTree(Nest(arounds[..|arounds| - 1]), arounds[|arounds| - 1])
  }

  function OrderedTree(ds: seq<(nat, Interception)>): Tree {
    if ds == [] then Operation else Intercepted(OfKind(ds, Before), Nest(OfKind(ds, Around)), OfKind(ds, After))
  }

  method Ordered(ds: seq<(nat, Interception)>) returns (tree: Tree)
    ensures tree == OrderedTree(ds)
  {
    if ds == [] { return Operation; }
    var before, after, around := [], [], [];
    assert ds[..0] == [];
    for i := 0 to |ds|
      invariant before == OfKind(ds[..i], Before) && after == OfKind(ds[..i], After) &&
                around == OfKind(ds[..i], Around)
    {
      assert ds[..i + 1][..i] == ds[..i];
      match ds[i].1.kind
      case Before => before := before + [IndexOf(ds[i])];
      case After => after := after + [IndexOf(ds[i])];
      case Around => around := around + [IndexOf(ds[i])];
    }
    assert ds[..|ds|] == ds;
    var core := Operation;
    assert around[..0] == [];
    for i := 0 to |around|
      invariant core == Nest(around[..i])
    {
      assert around[..i + 1][..i] == around[..i];
      core := AroundTree(core, around[i]);
    }
    assert around[..|around|] == around;
    tree := Intercepted(before, core, after);
  }

  /** The operation has the tree of its selected interceptors. */
  predicate WovenAt(woven: map<string, Tree>, name: string, subsystems: Subsystems, kind: OperationKind,
                    wild: Wildcards) {
    && name in woven && Selected(Defined(subsystems), name, kind, wild).Some?
    && woven[name] == OrderedTree(Selected(Defined(subsystems), name, kind, wild).value)
  }

  /** `None` when an expression cannot be evaluated for some operation. */
  method Weave(names: seq<string>, subsystems: Subsystems, kind: OperationKind, wild: Wildcards)
    returns (woven: Option<map<string, Tree>>)
    ensures woven.None? <==> exists n :: n in names && Selected(Defined(subsystems), n, kind, wild).None?
    ensures woven.Some? ==>
              (forall n :: n in woven.value <==> n in names) &&
              forall n :: n in names ==> WovenAt(woven.value, n, subsystems, kind, wild)
  {
    var result: map<string, Tree> := map[];
    for i := 0 to |names|
      invariant forall n :: n in result <==> n in names[..i]
      invariant forall n :: n in result ==> WovenAt(result, n, subsystems, kind, wild)
    {
      var selected := Selected(Defined(subsystems), names[i], kind, wild);
      if selected.None? {
        assert names[i] in names;
        return None;
      }
      var tree := Ordered(selected.value);
      ghost var before := result;
      result := result[names[i] := tree];
      assert names[..i + 1] == names[..i] + [names[i]];
      forall n | n in result ensures WovenAt(result, n, subsystems, kind, wild) {
        if n != names[i] { assert WovenAt(before, n, subsystems, kind, wild); }
      }
    }
    assert names[..|names|] == names;
    woven := Some(result);
  }

  // ----- What running a tree does -----

  datatype Event = Ran(i: Index) | Enter(i: Index) | Leave(i: Index) | Operate

  function RanEach(indices: seq<Index>): seq<Event> {
    seq(|indices|, k requires 0 <= k < |indices| => Ran(indices[k]))
  }

  /** Every around proceeds once. */
  function Trace(tree: Tree): seq<Event> {
    match tree
    case Operation => [Operate]
    case AroundTree(core, i) => [Enter(i)] + Trace(core) + [Leave(i)]
    case Intercepted(before, core, after) => RanEach(before) + Trace(core) + RanEach(after)
  }

  /** An around is closed only while it is the innermost open one. */
  function OpenNext(open: seq<Index>, e: Event): Option<seq<Index>> {
    match e
    case Enter(i) => Some(open + [i])
    case Leave(i) => if open != [] && open[|open| - 1] == i then Some(open[..|open| - 1]) else None
    case _ => Some(open)
  }

  /** The arounds that are open after the events, innermost last; `None` if the events are not bracketed. */
  function Open(events: seq<Event>): Option<seq<Index>> {
    if events == [] then Some([])
    else
      match Open(events[..|events| - 1])
      case None => None
      case Some(open) => OpenNext(open, events[|events| - 1])
  }

  lemma OpenNextAbove(below: seq<Index>, open: seq<Index>, e: Event)
    requires OpenNext(open, e).Some?
    ensures OpenNext(below + open, e) == Some(below + OpenNext(open, e).value)
  {
    match e
    case Enter(i) => assert below + open + [i] == below + (open + [i]);
    case Leave(i) => assert (below + open)[..|below + open| - 1] == below + open[..|open| - 1];
    case _ =>
  }

  /** What `b` opens is opened on top of what `a` left open. */
  lemma {:induction false} OpenAfter(a: seq<Event>, b: seq<Event>)
    requires Open(a).Some? && Open(b).Some?
    ensures Open(a + b) == Some(Open(a).value + Open(b).value)
  {
    if b == [] {
      assert a + b == a && Open(a).value + [] == Open(a).value;
    } else {
      var few, e := b[..|b| - 1], b[|b| - 1];
      OpenAfter(a, few);
      var all := a + b;
      assert all[..|all| - 1] == a + few && all[|all| - 1] == e;
      OpenNextAbove(Open(a).value, Open(few).value, e);
    }
  }

  lemma OpenConcat(a: seq<Event>, b: seq<Event>)
    requires Open(a).Some? && Open(b) == Some([])
    ensures Open(a + b) == Open(a)
  {
    OpenAfter(a, b);
    assert Open(a).value + [] == Open(a).value;
  }

  lemma {:induction false} RanEachOpen(indices: seq<Index>)
    ensures Open(RanEach(indices)) == Some([])
  {
    if indices != [] {
      var n := |indices| - 1;
      RanEachOpen(indices[..n]);
      assert RanEach(indices)[..n] == RanEach(indices[..n]);
    }
  }

  /** In any tree, arounds are left in the reverse order of being entered, and all are left. */
  lemma {:induction false} ProperlyBracketed(tree: Tree)
    ensures Open(Trace(tree)) == Some([])
  {
    match tree
    case Operation => assert [Operate][..0] == [];
    case AroundTree(core, i) =>
      ProperlyBracketed(core);
      assert [Enter(i)][..0] == [];
      OpenConcat([Enter(i)], Trace(core));
      var events := [Enter(i)] + Trace(core);
      assert (events + [Leave(i)])[..|events|] == events;
    case Intercepted(before, core, after) =>
      ProperlyBracketed(core);
      RanEachOpen(before);
      RanEachOpen(after);
      OpenConcat(RanEach(before), Trace(core));
      OpenConcat(RanEach(before) + Trace(core), RanEach(after));
  }

  predicate NestEvents(t: seq<Event>, arounds: seq<Index>) {
    var n := |arounds|;
    && |t| == 2 * n + 1 && t[n] == Operate
    && forall k :: 0 <= k < n ==> t[n - 1 - k] == Enter(arounds[k]) && t[n + 1 + k] == Leave(arounds[k])
  }

  lemma NestNext(t: seq<Event>, arounds: seq<Index>, i: Index)
    requires NestEvents(t, arounds)
    ensures NestEvents([Enter(i)] + t + [Leave(i)], arounds + [i])
  {
    var n, t', arounds' := |arounds|, [Enter(i)] + t + [Leave(i)], arounds + [i];
    forall k | 0 <= k < n + 1 ensures t'[n - k] == Enter(arounds'[k]) && t'[n + 2 + k] == Leave(arounds'[k]) {
      if k < n { assert t[n - 1 - k] == Enter(arounds[k]) && t[n + 1 + k] == Leave(arounds[k]); }
    }
  }

  /** The nest of arounds, event by event: the last one defined is entered first and left last. */
  lemma {:induction false} NestTrace(arounds: seq<Index>)
    ensures NestEvents(Trace(Nest(arounds)), arounds)
  {
    if arounds != [] {
      var n := |arounds| - 1;
      NestTrace(arounds[..n]);
      NestNext(Trace(Nest(arounds[..n])), arounds[..n], arounds[n]);
      assert arounds[..n] + [arounds[n]] == arounds;
    }
  }

  lemma TraceParts(ds: seq<(nat, Interception)>)
    ensures Trace(OrderedTree(ds)) ==
            RanEach(OfKind(ds, Before)) + Trace(Nest(OfKind(ds, Around))) + RanEach(OfKind(ds, After))
  {
    if ds == [] {
      assert RanEach([]) == [];
      assert [] + [Operate] + [] == [Operate];
    }
  }

  /** `pos[k]` is where the `k`-th of the indices is defined. */
  predicate DefinedAt(ds: seq<(nat, Interception)>, kind: Kind, indices: seq<Index>, pos: seq<nat>, k: nat) {
    && k < |pos| == |indices| && pos[k] < |ds|
    && ds[pos[k]].1.kind == kind && IndexOf(ds[pos[k]]) == indices[k]
  }

  predicate Listed(ds: seq<(nat, Interception)>, kind: Kind, pos: seq<nat>, i: nat) {
    i < |ds| && ds[i].1.kind == kind ==> i in pos
  }

  predicate Increasing(pos: seq<nat>) {
    forall j, k :: 0 <= j < k < |pos| ==> pos[j] < pos[k]
  }

  lemma InAppended(pos: seq<nat>, n: nat, i: nat)
    ensures i in pos || i == n ==> i in pos + [n]
  {
    if i == n { assert (pos + [n])[|pos|] == n; }
  }

  lemma KeptAt(ds: seq<(nat, Interception)>, d: (nat, Interception), kind: Kind, pos: seq<nat>, k: nat)
    requires DefinedAt(ds, kind, OfKind(ds, kind), pos, k)
    ensures pos[k] < |ds| && (ds + [d])[pos[k]].1.kind == kind && IndexOf((ds + [d])[pos[k]]) == OfKind(ds, kind)[k]
  {
  }

  lemma KindNext(ds: seq<(nat, Interception)>, d: (nat, Interception), kind: Kind)
    ensures OfKind(ds + [d], kind) == if d.1.kind == kind then OfKind(ds, kind) + [IndexOf(d)] else OfKind(ds, kind)
  {
    assert (ds + [d])[..|ds|] == ds;
  }

  /** One more interceptor. */
  lemma {:induction false} InOrderNext(ds: seq<(nat, Interception)>, d: (nat, Interception), kind: Kind, pos: seq<nat>)
      returns (next: seq<nat>)
    requires InOrder(ds, kind, pos)
    ensures InOrder(ds + [d], kind, next)
  {
    KindNext(ds, d, kind);
    var n, all := |ds|, ds + [d];
    next := if d.1.kind == kind then pos + [n] else pos;
    forall k: nat | k < |pos| ensures pos[k] < n && DefinedAt(all, kind, OfKind(all, kind), next, k) {
      assert DefinedAt(ds, kind, OfKind(ds, kind), pos, k);
      KeptAt(ds, d, kind, pos, k);
    }
    forall i: nat ensures Listed(all, kind, next, i) {
      assert Listed(ds, kind, pos, i);
      InAppended(pos, n, i);
    }
  }

  /** The interceptors of a kind are those of all positions with that kind, in the order of the positions. */
  ghost predicate InOrder(ds: seq<(nat, Interception)>, kind: Kind, pos: seq<nat>) {
    && |pos| == |OfKind(ds, kind)| && Increasing(pos)
    && (forall k: nat :: k < |pos| ==> DefinedAt(ds, kind, OfKind(ds, kind), pos, k))
    && (forall i: nat :: Listed(ds, kind, pos, i))
  }

  lemma {:induction false} KindInOrder(ds: seq<(nat, Interception)>, kind: Kind) returns (pos: seq<nat>)
    ensures InOrder(ds, kind, pos)
  {
    if ds == [] {
      pos := [];
    } else {
      var n := |ds| - 1;
      pos := KindInOrder(ds[..n], kind);
      pos := InOrderNext(ds[..n], ds[n], kind, pos);
      assert ds[..n] + [ds[n]] == ds;
    }
  }

  /** The events of befores `b`, arounds `n` and afters `a`: the befores; the arounds, entered from the last to
      the first and left the other way round, about the operation itself; the afters. */
  predicate OrderedEvents(t: seq<Event>, b: seq<Index>, n: seq<Index>, a: seq<Index>) {
    var m := |b| + |n|;
    && |t| == m + 1 + |n| + |a|
    && t[..|b|] == RanEach(b) && NestEvents(t[|b|..m + 1 + |n|], n) && t[m + 1 + |n|..] == RanEach(a)
  }

  /** Running a woven operation, event by event. */
  lemma OrderedTrace(ds: seq<(nat, Interception)>)
    ensures OrderedEvents(Trace(OrderedTree(ds)), OfKind(ds, Before), OfKind(ds, Around), OfKind(ds, After))
  {
    TraceParts(ds);
    NestTrace(OfKind(ds, Around));
    var t, nest := Trace(OrderedTree(ds)), Trace(Nest(OfKind(ds, Around)));
    assert t[|OfKind(ds, Before)|..][..|nest|] == nest;
  }

  // ----- Every matching interceptor runs once, and no other -----

  /** How many matching interceptors of a kind have an index. */
  function Count(defined: seq<(nat, Interception)>, kind: Kind, x: Index, name: string, op: OperationKind,
                 wild: Wildcards): nat {
    if defined == [] then 0
    else
      var n := |defined| - 1;
      var d := defined[n];
      Count(defined[..n], kind, x, name, op, wild) +
      if Matches(d.1.expr, name, op, wild) == Some(true) && d.1.kind == kind && IndexOf(d) == x then 1 else 0
  }

  lemma {:induction false} SelectedCount(defined: seq<(nat, Interception)>, kind: Kind, x: Index,
                                         name: string, op: OperationKind, wild: Wildcards)
    requires Selected(defined, name, op, wild).Some?
    ensures multiset(OfKind(Selected(defined, name, op, wild).value, kind))[x] ==
            Count(defined, kind, x, name, op, wild)
  {
    if defined != [] {
      var n := |defined| - 1;
      SelectedCount(defined[..n], kind, x, name, op, wild);
      var few := Selected(defined[..n], name, op, wild).value;
      assert (few + [defined[n]])[..|few|] == few;
    }
  }

  lemma {:induction false} RanEachTimes(indices: seq<Index>, x: Index)
    ensures var times := multiset(RanEach(indices));
            times[Ran(x)] == multiset(indices)[x] && times[Enter(x)] == 0 && times[Leave(x)] == 0 && times[Operate] == 0
  {
    if indices != [] {
      var n := |indices| - 1;
      RanEachTimes(indices[..n], x);
      assert indices == indices[..n] + [indices[n]];
      assert RanEach(indices) == RanEach(indices[..n]) + [Ran(indices[n])];
    }
  }

  lemma AroundTimes(t: seq<Event>, i: Index, x: Index)
    ensures var (few, all) := (multiset(t), multiset([Enter(i)] + t + [Leave(i)]));
            && all[Enter(x)] == few[Enter(x)] + (if i == x then 1 else 0)
            && all[Leave(x)] == few[Leave(x)] + (if i == x then 1 else 0)
            && all[Ran(x)] == few[Ran(x)] && all[Operate] == few[Operate]
  {
    assert multiset([Enter(i)] + t + [Leave(i)]) == multiset{Enter(i)} + multiset(t) + multiset{Leave(i)};
  }

  lemma {:induction false} NestTimes(arounds: seq<Index>, x: Index)
    ensures var times := multiset(Trace(Nest(arounds)));
            times[Enter(x)] == multiset(arounds)[x] && times[Leave(x)] == multiset(arounds)[x] &&
            times[Ran(x)] == 0 && times[Operate] == 1
  {
    if arounds != [] {
      var n := |arounds| - 1;
      NestTimes(arounds[..n], x);
      AroundTimes(Trace(Nest(arounds[..n])), arounds[n], x);
      assert arounds == arounds[..n] + [arounds[n]];
      assert Trace(Nest(arounds)) == [Enter(arounds[n])] + Trace(Nest(arounds[..n])) + [Leave(arounds[n])];
    } else {
      assert Trace(Nest(arounds)) == [Operate];
    }
  }

  /** Running a woven operation executes it once, and exactly the matching interceptors, as often as they are
      defined. */
  lemma WovenTimes(defined: seq<(nat, Interception)>, x: Index, name: string, op: OperationKind, wild: Wildcards)
    requires Selected(defined, name, op, wild).Some?
    ensures var times := multiset(Trace(OrderedTree(Selected(defined, name, op, wild).value)));
            && times[Operate] == 1
            && times[Ran(x)] == Count(defined, Before, x, name, op, wild) + Count(defined, After, x, name, op, wild)
            && times[Enter(x)] == Count(defined, Around, x, name, op, wild)
            && times[Leave(x)] == Count(defined, Around, x, name, op, wild)
  {
    var ds := Selected(defined, name, op, wild).value;
    TraceParts(ds);
    RanEachTimes(OfKind(ds, Before), x);
    NestTimes(OfKind(ds, Around), x);
    RanEachTimes(OfKind(ds, After), x);
    SelectedCount(defined, Before, x, name, op, wild);
    SelectedCount(defined, Around, x, name, op, wild);
    SelectedCount(defined, After, x, name, op, wild);
  }

  lemma {:induction false} CountDistinct(defined: seq<(nat, Interception)>, kind: Kind, i: nat,
                                         name: string, op: OperationKind, wild: Wildcards)
    requires i < |defined| && forall j, k :: 0 <= j < k < |defined| ==> IndexOf(defined[j]) != IndexOf(defined[k])
    ensures Count(defined, kind, IndexOf(defined[i]), name, op, wild) ==
            if Matches(defined[i].1.expr, name, op, wild) == Some(true) && defined[i].1.kind == kind then 1 else 0
  {
    var n := |defined| - 1;
    if i < n {
      CountDistinct(defined[..n], kind, i, name, op, wild);
    } else {
      CountAbsent(defined[..n], kind, IndexOf(defined[n]), name, op, wild);
    }
  }

  lemma {:induction false} CountAbsent(defined: seq<(nat, Interception)>, kind: Kind, x: Index,
                                       name: string, op: OperationKind, wild: Wildcards)
    requires forall j :: 0 <= j < |defined| ==> IndexOf(defined[j]) != x
    ensures Count(defined, kind, x, name, op, wild) == 0
  {
    if defined != [] { CountAbsent(defined[..|defined| - 1], kind, x, name, op, wild); }
  }

  /** With distinct indices, a matching interceptor runs exactly once, a non-matching one never. */
  lemma EachOnce(defined: seq<(nat, Interception)>, i: nat, name: string, op: OperationKind, wild: Wildcards)
    requires Selected(defined, name, op, wild).Some? && i < |defined|
    requires forall j, k :: 0 <= j < k < |defined| ==> IndexOf(defined[j]) != IndexOf(defined[k])
    ensures var times := multiset(Trace(OrderedTree(Selected(defined, name, op, wild).value)));
            var (x, hit) := (IndexOf(defined[i]), Matches(defined[i].1.expr, name, op, wild) == Some(true));
            && times[Ran(x)] == (if hit && !defined[i].1.kind.Around? then 1 else 0)
            && times[Enter(x)] == times[Leave(x)] == (if hit && defined[i].1.kind.Around? then 1 else 0)
  {
    WovenTimes(defined, IndexOf(defined[i]), name, op, wild);
    CountDistinct(defined, Before, i, name, op, wild);
    CountDistinct(defined, After, i, name, op, wild);
    CountDistinct(defined, Around, i, name, op, wild);
  }

  /** The selection fails exactly when some expression cannot be evaluated. */
  lemma {:induction false} SelectedSome(defined: seq<(nat, Interception)>, name: string, op: OperationKind,
                                        wild: Wildcards)
    ensures Selected(defined, name, op, wild).Some? <==>
            forall i :: 0 <= i < |defined| ==> Matches(defined[i].1.expr, name, op, wild).Some?
  {
    if defined != [] {
      var n := |defined| - 1;
      SelectedSome(defined[..n], name, op, wild);
      assert forall i :: 0 <= i < n ==> defined[..n][i] == defined[i];
      if Selected(defined, name, op, wild).Some? {
        forall i | 0 <= i < |defined| ensures Matches(defined[i].1.expr, name, op, wild).Some? {
          if i < n { assert defined[..n][i] == defined[i]; }
        }
      }
    }
  }
}
