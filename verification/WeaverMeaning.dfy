/** Which interceptors an operation gets, and in which order, read off the interceptors as they are defined. */
module WeaverMeaning {
  import opened Wrappers
  import opened Weaver

  /** The text that patterns are matched with. */
  function Subject(name: string, kind: OperationKind): string {
    match kind
    case Query => "query " + name
    case Mutation => "mutation " + name
  }

  /** The expression evaluates to `b`.  Operands after the one that decides need not have a value. */
  predicate Evaluates(e: Expr, subject: string, wild: Wildcards, b: bool) {
    match e
    case Pattern(text) => b == wild(text, subject)
    case Constant(c) => b == c
    case Not(x) => Evaluates(x, subject, wild, !b)
    case And(x, y) =>
      (!b && Evaluates(x, subject, wild, false)) ||
      (Evaluates(x, subject, wild, true) && Evaluates(y, subject, wild, b))
    case Or(x, y) =>
      (b && Evaluates(x, subject, wild, true)) || (Evaluates(x, subject, wild, false) && Evaluates(y, subject, wild, b))
    case Unsupported => false
  }

  /** The interceptors of a subsystem that are of the kind and match, in order. */
  function OwnPicked(i: nat, own: seq<Interception>, kind: Kind, subject: string, wild: Wildcards): seq<Index> {
    if own == [] then []
    else
      (if own[0].kind == kind && Evaluates(own[0].expr, subject, wild, true) then [Index(i, own[0].index)] else [])
      + OwnPicked(i, own[1..], kind, subject, wild)
  }

  /** Those of all subsystems, one after the other. */
  function Picked(subsystems: Subsystems, kind: Kind, subject: string, wild: Wildcards): seq<Index> {
    if subsystems == [] then []
    else
      OwnPicked(subsystems[0].0, subsystems[0].1, kind, subject, wild) + Picked(subsystems[1..], kind, subject, wild)
  }

  predicate HasValue(e: Expr, subject: string, wild: Wildcards) {
    Evaluates(e, subject, wild, true) || Evaluates(e, subject, wild, false)
  }

  predicate OwnEvaluate(own: seq<Interception>, subject: string, wild: Wildcards) {
    forall k :: 0 <= k < |own| ==> HasValue(own[k].expr, subject, wild)
  }

  /** Every expression has a value. */
  predicate AllEvaluate(subsystems: Subsystems, subject: string, wild: Wildcards) {
    forall i :: 0 <= i < |subsystems| ==> OwnEvaluate(subsystems[i].1, subject, wild)
  }

  /** The events of an operation: the befores, the arounds entered from the last to the first, the operation, the
      arounds left from the first to the last, and the afters. */
  predicate Events(t: seq<Event>, b: seq<Index>, n: seq<Index>, a: seq<Index>) {
    var (m, l) := (|b| + |n|, |b| + 2 * |n| + 1);
    && |t| == l + |a| && t[m] == Operate
    && (forall k :: 0 <= k < |b| ==> t[k] == Ran(b[k]))
    && (forall k :: 0 <= k < |n| ==> t[m - 1 - k] == Enter(n[k]) && t[m + 1 + k] == Leave(n[k]))
    && (forall k :: 0 <= k < |a| ==> t[l + k] == Ran(a[k]))
  }

  // ----- They are what is woven -----

  lemma {:induction false} EvaluatesExactly(e: Expr, name: string, kind: OperationKind, wild: Wildcards, b: bool)
    ensures Evaluates(e, Subject(name, kind), wild, b) <==> Matches(e, name, kind, wild) == Some(b)
  {
    match e
    case Not(x) => EvaluatesExactly(x, name, kind, wild, !b);
    case And(x, y) =>
      EvaluatesExactly(x, name, kind, wild, true);
      EvaluatesExactly(x, name, kind, wild, false);
      EvaluatesExactly(y, name, kind, wild, b);
    case Or(x, y) =>
      EvaluatesExactly(x, name, kind, wild, true);
      EvaluatesExactly(x, name, kind, wild, false);
      EvaluatesExactly(y, name, kind, wild, b);
    case _ =>
  }

  /** The interceptors of a list that are of the kind and match. */
  function ListPicked(ds: seq<(nat, Interception)>, kind: Kind, subject: string, wild: Wildcards): seq<Index> {
    if ds == [] then []
    else
      (if ds[0].1.kind == kind && Evaluates(ds[0].1.expr, subject, wild, true) then [Index(ds[0].0, ds[0].1.index)]
       else [])
      + ListPicked(ds[1..], kind, subject, wild)
  }

  lemma {:induction false} ListAppend(a: seq<(nat, Interception)>, b: seq<(nat, Interception)>, kind: Kind,
                                      subject: string, wild: Wildcards)
    ensures ListPicked(a + b, kind, subject, wild) ==
            ListPicked(a, kind, subject, wild) + ListPicked(b, kind, subject, wild)
  {
    if a == [] {
      assert a + b == b;
    } else {
      assert (a + b)[1..] == a[1..] + b;
      ListAppend(a[1..], b, kind, subject, wild);
    }
  }

  lemma {:induction false} OwnList(i: nat, own: seq<Interception>, kind: Kind, subject: string, wild: Wildcards)
    ensures ListPicked(seq(|own|, k requires 0 <= k < |own| => (i, own[k])), kind, subject, wild) ==
            OwnPicked(i, own, kind, subject, wild)
  {
    if own != [] {
      var ds := seq(|own|, k requires 0 <= k < |own| => (i, own[k]));
      assert ds[1..] == seq(|own[1..]|, k requires 0 <= k < |own[1..]| => (i, own[1..][k]));
      OwnList(i, own[1..], kind, subject, wild);
    }
  }

  lemma {:induction false} DefinedList(subsystems: Subsystems, kind: Kind, subject: string, wild: Wildcards)
    ensures ListPicked(Defined(subsystems), kind, subject, wild) == Picked(subsystems, kind, subject, wild)
  {
    if subsystems != [] {
      var (i, own) := subsystems[0];
      OwnList(i, own, kind, subject, wild);
      ListAppend(seq(|own|, k requires 0 <= k < |own| => (i, own[k])), Defined(subsystems[1..]), kind, subject, wild);
      DefinedList(subsystems[1..], kind, subject, wild);
    }
  }

  lemma OneListed(d: (nat, Interception), kind: Kind, subject: string, wild: Wildcards)
    ensures ListPicked([d], kind, subject, wild) ==
            if d.1.kind == kind && Evaluates(d.1.expr, subject, wild, true) then [Index(d.0, d.1.index)] else []
  {
    var none: seq<(nat, Interception)> := [];
    assert [d][1..] == none;
  }

  /** What is selected, kind by kind. */
  lemma {:induction false} SelectedList(ds: seq<(nat, Interception)>, kind: Kind, name: string, op: OperationKind,
                                        wild: Wildcards)
    requires Selected(ds, name, op, wild).Some?
    ensures OfKind(Selected(ds, name, op, wild).value, kind) == ListPicked(ds, kind, Subject(name, op), wild)
  {
    if ds != [] {
      var n := |ds| - 1;
      SelectedList(ds[..n], kind, name, op, wild);
      EvaluatesExactly(ds[n].1.expr, name, op, wild, true);
      ListAppend(ds[..n], [ds[n]], kind, Subject(name, op), wild);
      assert ds == ds[..n] + [ds[n]];
      OneListed(ds[n], kind, Subject(name, op), wild);
      var few := Selected(ds[..n], name, op, wild).value;
      KindNext(few, ds[n], kind);
    }
  }

  predicate ListEvaluates(ds: seq<(nat, Interception)>, subject: string, wild: Wildcards) {
    forall p :: 0 <= p < |ds| ==> HasValue(ds[p].1.expr, subject, wild)
  }

  lemma OwnValues(i: nat, own: seq<Interception>, rest: seq<(nat, Interception)>, subject: string, wild: Wildcards)
    ensures var first := seq(|own|, k requires 0 <= k < |own| => (i, own[k]));
            ListEvaluates(first + rest, subject, wild) <==>
            OwnEvaluate(own, subject, wild) && ListEvaluates(rest, subject, wild)
  {
    var first := seq(|own|, k requires 0 <= k < |own| => (i, own[k]));
    var all := first + rest;
    if ListEvaluates(all, subject, wild) {
      forall k | 0 <= k < |own| ensures HasValue(own[k].expr, subject, wild) { assert all[k] == (i, own[k]); }
      forall p | 0 <= p < |rest| ensures HasValue(rest[p].1.expr, subject, wild) {
        assert all[|own| + p] == rest[p];
      }
    }
  }

  lemma {:induction false} DefinedValues(subsystems: Subsystems, subject: string, wild: Wildcards)
    ensures AllEvaluate(subsystems, subject, wild) <==> ListEvaluates(Defined(subsystems), subject, wild)
  {
    if subsystems != [] {
      var (i, own) := subsystems[0];
      var rest := subsystems[1..];
      DefinedValues(rest, subject, wild);
      OwnValues(i, own, Defined(rest), subject, wild);
      if OwnEvaluate(own, subject, wild) && AllEvaluate(rest, subject, wild) {
        forall l | 0 <= l < |subsystems| ensures OwnEvaluate(subsystems[l].1, subject, wild) {
          if l > 0 { assert subsystems[l] == rest[l - 1]; }
        }
      }
      if AllEvaluate(subsystems, subject, wild) {
        assert OwnEvaluate(subsystems[0].1, subject, wild);
        forall l | 0 <= l < |rest| ensures OwnEvaluate(rest[l].1, subject, wild) {
          assert subsystems[l + 1] == rest[l];
        }
      }
    }
  }

  lemma ValueExactly(e: Expr, name: string, op: OperationKind, wild: Wildcards)
    ensures HasValue(e, Subject(name, op), wild) <==> Matches(e, name, op, wild).Some?
  {
    EvaluatesExactly(e, name, op, wild, true);
    EvaluatesExactly(e, name, op, wild, false);
  }

  /** An operation is woven exactly if every expression has a value for it, and running it then runs exactly the
      interceptors that match, in the order in which they are defined. */
  lemma WovenMeans(subsystems: Subsystems, name: string, op: OperationKind, wild: Wildcards)
    ensures var selected, subject := Selected(Defined(subsystems), name, op, wild), Subject(name, op);
            && (selected.Some? <==> AllEvaluate(subsystems, subject, wild))
            && (selected.Some? ==>
                  Events(Trace(OrderedTree(selected.value)), Picked(subsystems, Before, subject, wild),
                         Picked(subsystems, Around, subject, wild), Picked(subsystems, After, subject, wild)))
  {
    var defined := Defined(subsystems);
    SelectedSome(defined, name, op, wild);
    DefinedValues(subsystems, Subject(name, op), wild);
    forall p | 0 <= p < |defined|
      ensures HasValue(defined[p].1.expr, Subject(name, op), wild) <==> Matches(defined[p].1.expr, name, op, wild).Some?
    {
      ValueExactly(defined[p].1.expr, name, op, wild);
    }
    if Selected(defined, name, op, wild).Some? { WovenEvents(subsystems, name, op, wild); }
  }

  lemma WovenEvents(subsystems: Subsystems, name: string, op: OperationKind, wild: Wildcards)
    requires Selected(Defined(subsystems), name, op, wild).Some?
    ensures var (selected, subject) := (Selected(Defined(subsystems), name, op, wild), Subject(name, op));
            Events(Trace(OrderedTree(selected.value)), Picked(subsystems, Before, subject, wild),
                   Picked(subsystems, Around, subject, wild), Picked(subsystems, After, subject, wild))
  {
    var defined, subject := Defined(subsystems), Subject(name, op);
    var ds := Selected(defined, name, op, wild).value;
    SelectedList(defined, Before, name, op, wild);
    SelectedList(defined, Around, name, op, wild);
    SelectedList(defined, After, name, op, wild);
    DefinedList(subsystems, Before, subject, wild);
    DefinedList(subsystems, Around, subject, wild);
    DefinedList(subsystems, After, subject, wild);
    OrderedTrace(ds);
    EventsAt(Trace(OrderedTree(ds)), OfKind(ds, Before), OfKind(ds, Around), OfKind(ds, After));
  }

  lemma EventsAt(t: seq<Event>, b: seq<Index>, n: seq<Index>, a: seq<Index>)
    requires OrderedEvents(t, b, n, a)
    ensures Events(t, b, n, a)
  {
    var m := |b| + |n|;
    var nest := t[|b|..m + 1 + |n|];
    forall k | 0 <= k < |b| ensures t[k] == Ran(b[k]) { assert t[..|b|][k] == RanEach(b)[k]; }
    forall k | 0 <= k < |n| ensures t[m - 1 - k] == Enter(n[k]) && t[m + 1 + k] == Leave(n[k]) {
      assert nest[|n| - 1 - k] == Enter(n[k]) && nest[|n| + 1 + k] == Leave(n[k]);
    }
    forall k | 0 <= k < |a| ensures t[m + 1 + |n| + k] == Ran(a[k]) { assert t[m + 1 + |n|..][k] == RanEach(a)[k]; }
    assert nest[|n|] == t[m];
  }
}
