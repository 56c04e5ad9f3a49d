/**
 Two contexts whose final state depends on the order in which they are visited:
 `C { items: Set<Int> }`, annotated with `self.items.z` and `D.d`, and `D { d: Int }`.
 */
module OrderExample {
  import opened Wrappers
  import opened Ast
  import opened Passes
  import opened Declarations
  import opened Typechecker
  import opened TypecheckerTheorems
  import opened Programs

  function SelfItems(self: Type, items: Type): Selection {
    Path(Single(Identifier("self", self), self), Identifier("items", Defer), items)
  }

  function SelfItemsZ(self: Type, items: Type, z: Type): Selection {
    Path(SelfItems(self, items), Identifier("z", Defer), z)
  }

  function DotD(context: Type, d: Type): Selection {
    Path(Single(Identifier("D", context), context), Identifier("d", Defer), d)
  }

  /** The context `C` with the given slots. */
  function C(ok: bool, self: Type, items: Type, z: Type, context: Type, d: Type): Model {
    Model("C", ContextKind, [Field("items", Plain("Set", [Plain("Int", [], ok)], ok), NONE, NoDefault)], [],
          AnnotationMap([Annotation("first", true, false, [Select(SelfItemsZ(self, items, z))]),
                         Annotation("second", true, false, [Select(DotD(context, d))])], []))
  }

  function D(ok: bool): Model {
    Model("D", ContextKind, [Field("d", Plain("Int", [], ok), NONE, NoDefault)], [], NONE)
  }

  function Contexts(base: Arena, c: Model, d: Model): State {
    var n := |base.values|;
    State(Arena(base.values + [ModelEntry(c), ModelEntry(d)], base.ids["C" := n]["D" := n + 1]), [])
  }

  /** What is in the arena before the two contexts: `Int`, and no models. */
  ghost predicate Base(base: Arena) {
    && base.Valid() && "C" !in base.ids && "D" !in base.ids
    && "Int" in base.ids && base.values[base.ids["Int"]] == PrimitiveEntry("Int")
    && forall i :: 0 <= i < |base.values| ==> !base.values[i].ModelEntry?
  }

  function Ref(base: Arena, k: nat): Type {
    Reference(|base.values| + k)
  }

  function Of(base: Arena, k: nat): Step {
    OfType(|base.values| + k)
  }

  function IntRef(base: Arena): Type {
    Reference(if "Int" in base.ids then base.ids["Int"] else 0)
  }

  function Items(base: Arena): Type {
    SetType(IntRef(base))
  }

  lemma Names(base: Arena, c: Model, d: Model)
    requires Base(base)
    ensures var env, n := Contexts(base, c, d).types, |base.values|;
            && "C" in env.ids && env.ids["C"] == n && "D" in env.ids && env.ids["D"] == n + 1
            && "Int" in env.ids && Reference(env.ids["Int"]) == IntRef(base) &&
               Deref(IntRef(base), env) == Primitive("Int")
            && |env.values| == n + 2 && env.values[n] == ModelEntry(c) && env.values[n + 1] == ModelEntry(d)
            && Deref(Ref(base, 0), env) == Composite(n) && Deref(Ref(base, 1), env) == Composite(n + 1)
  {
    assert "Int" != "C" && "Int" != "D" && "C" != "D";
  }

  lemma ItemsField(base: Arena, c: Model, ok: bool, d: Model)
    requires Base(base)
    requires c.name == "C" && c.fields == [Field("items", Plain("Set", [Plain("Int", [], ok)], ok), NONE, NoDefault)] &&
             c.fragments == []
    ensures var env := Contexts(base, c, d).types;
            FinishField(|base.values|, "items", env) == if ok then Finish(SetType(IntRef(base)), true, [])
              else Finish(Error, false, [])
  {
    var env := Contexts(base, c, d).types;
    Names(base, c, d);
    var f := c.fields[0];
    assert c.fields + FragmentFields(c.fragments, env) == c.fields;
    assert FindField(|base.values|, "items", env) == Some(f);
    assert ToType(Plain("Int", [], ok), env) == if ok then IntRef(base) else Error;
    assert ToType(f.typ, env) == if ok then SetType(IntRef(base)) else Error;
    assert FragmentErrors(|base.values|, env) == [] && Complete(Items(base));
  }

  lemma DField(base: Arena, c: Model, ok: bool)
    requires Base(base)
    requires c.name == "C"
    ensures var env := Contexts(base, c, D(ok)).types;
            FinishField(|base.values| + 1, "d", env) == if ok then Finish(IntRef(base), true, [])
              else Finish(Error, false, [])
  {
    var env, d := Contexts(base, c, D(ok)).types, D(ok);
    Names(base, c, d);
    assert d.fields + FragmentFields(d.fragments, env) == d.fields;
    assert FindField(|base.values| + 1, "d", env) == Some(d.fields[0]);
    assert ToType(d.fields[0].typ, env) == if ok then IntRef(base) else Error;
    assert FragmentErrors(|base.values| + 1, env) == [];
  }

  // ----- The two selections -----

  lemma PassName(name: string, slot: Type, found: Type, env: Arena, sc: Scope)
    requires ResolveIdentifier(name, env, sc) == Resolved(found) && Complete(found) && (slot == Defer || slot == found)
    ensures PassSelection(Single(Identifier(name, slot), slot), env, sc) ==
            Outcome(Single(Identifier(name, found), found), slot == Defer, [])
  {
  }

  lemma PassDotD(base: Arena, context: Type, t: Type, c: Model, ok: bool)
    requires Base(base)
    requires c.name == "C"
    requires (context == Defer && t == Defer) || (context == Ref(base, 1) && (t == Error || t == IntRef(base)))
    ensures var r := PassSelection(DotD(context, t), Contexts(base, c, D(ok)).types, ModelScope("C"));
            && r.node == DotD(Ref(base, 1), if ok || t == IntRef(base) then IntRef(base) else Error)
            && r.changed == (context == Defer || (ok && t == Error))
  {
    var env, sc := Contexts(base, c, D(ok)).types, ModelScope("C");
    DField(base, c, ok);
    Names(base, c, D(ok));
    assert IsContext("D", env) && "D" !in sc;
    assert ResolveIdentifier("D", env, sc) == Resolved(Ref(base, 1));
    var p := Single(Identifier("D", context), context);
    var rp := PassSelection(p, env, sc);
    PassName("D", context, Ref(base, 1), env, sc);
    assert rp.node == Single(Identifier("D", Ref(base, 1)), Ref(base, 1)) && rp.changed == (context == Defer);
    assert Deref(Ref(base, 1), env) == Composite(|base.values| + 1);
  }

  lemma PassItems(base: Arena, self: Type, items: Type, ok: bool, c: Model, d: Model)
    requires Base(base)
    requires c.name == "C" && c.fields == [Field("items", Plain("Set", [Plain("Int", [], ok)], ok), NONE, NoDefault)] &&
             c.fragments == []
    requires (self == Defer && items == Defer) || (self == Ref(base, 0) && (items == Error || items == Items(base)))
    ensures var r := PassSelection(SelfItems(self, items), Contexts(base, c, d).types, ModelScope("C"));
            && r.node == SelfItems(Ref(base, 0), if ok || items == Items(base) then Items(base) else Error)
            && r.changed == (self == Defer || (ok && items == Error))
  {
    var env, sc := Contexts(base, c, d).types, ModelScope("C");
    ItemsField(base, c, ok, d);
    Names(base, c, d);
    assert Complete(Items(base));
    assert sc["self"] == "C" && ResolveIdentifier("self", env, sc) == Resolved(Ref(base, 0));
    var p := Single(Identifier("self", self), self);
    var rp := PassSelection(p, env, sc);
    PassName("self", self, Ref(base, 0), env, sc);
    assert rp.node == Single(Identifier("self", Ref(base, 0)), Ref(base, 0)) && rp.changed == (self == Defer);
    assert Deref(Ref(base, 0), env) == Composite(|base.values|);
  }

  /** Once `self.items` is a set, the selection of `z` from it hides what happened to the prefix. */
  lemma {:induction false} PassItemsZ(base: Arena, self: Type, items: Type, z: Type, ok: bool, c: Model, d: Model)
    requires Base(base)
    requires c.name == "C" && c.fields == [Field("items", Plain("Set", [Plain("Int", [], ok)], ok), NONE, NoDefault)] &&
             c.fragments == []
    requires (self == Defer && items == Defer) || (self == Ref(base, 0) && (items == Error || items == Items(base)))
    requires z == Defer || z == Error
    ensures var r := PassSelection(SelfItemsZ(self, items, z), Contexts(base, c, d).types, ModelScope("C"));
            && r.node == SelfItemsZ(Ref(base, 0), if ok || items == Items(base) then Items(base) else Error, Error)
            && r.changed == (self == Defer && !ok && items != Items(base))
  {
    var env := Contexts(base, c, d).types;
    PassItems(base, self, items, ok, c, d);
    Names(base, c, d);
    if ok || items == Items(base) { ZOnSet(base, self, items, z, env); } else { ZOnError(self, items, z, env); }
  }

  lemma {:induction false} ZOnError(self: Type, items: Type, z: Type, env: Arena)
    requires z == Defer || z == Error
    requires var r := PassSelection(SelfItems(self, items), env, ModelScope("C")); r.node.Path? && r.node.typ == Error
    ensures var r, p :=
              PassSelection(SelfItemsZ(self, items, z), env, ModelScope("C")),
              PassSelection(SelfItems(self, items), env, ModelScope("C"));
            r.node == Path(p.node, Identifier("z", Defer), Error) && r.changed == p.changed
  {
    assert Deref(Error, env) == Error;
  }

  lemma {:induction false} ZOnSet(base: Arena, self: Type, items: Type, z: Type, env: Arena)
    requires Base(base)
    requires PassSelection(SelfItems(self, items), env, ModelScope("C")).node == SelfItems(Ref(base, 0), Items(base))
    requires (z == Defer || z == Error) && Deref(Items(base), env) == SetType(Primitive("Int"))
    ensures var r := PassSelection(SelfItemsZ(self, items, z), env, ModelScope("C"));
            r.node == SelfItemsZ(Ref(base, 0), Items(base), Error) && !r.changed
  {
  }

  // ----- The two contexts -----

  lemma PassList(x: Annotation, y: Annotation, env: Arena, sc: Scope)
    requires x.declared && y.declared
    ensures var rx, ry := PassAnnotation(x, env, sc), PassAnnotation(y, env, sc);
            var r := PassAnnotations(AnnotationMap([x, y], []), env, sc);
            r.node == AnnotationMap([rx.node, ry.node], []) && r.changed == (rx.changed || ry.changed)
  {
    var m := AnnotationMap([x, y], []);
    assert m.annotations[1..] == [y] && [y][1..] == [];
    assert FirstUndeclared([y]) == 1 && FirstUndeclared(m.annotations) == 2;
    assert m.annotations[..2] == m.annotations && m.annotations[2..] == [];
    var f := (a: Annotation) => PassAnnotation(a, env, sc);
    var none: seq<Annotation> := [];
    assert PassEach(none, f) == Outcome([], false, []);
    assert PassEach([y], f).node == [PassAnnotation(y, env, sc).node];
    assert PassEach(m.annotations, f).node == [PassAnnotation(x, env, sc).node, PassAnnotation(y, env, sc).node];
  }

  lemma PassOne(name: string, s: Selection, env: Arena, sc: Scope)
    ensures var r := PassAnnotation(Annotation(name, true, false, [Select(s)]), env, sc);
            var p := PassSelection(s, env, sc);
            r.node == Annotation(name, true, false, [Select(p.node)]) && r.changed == p.changed
  {
    var f := (e: Expr) => PassExpr(e, env, sc);
    var none: seq<Expr> := [];
    assert [Select(s)][1..] == none && PassEach(none, f) == Outcome([], false, []);
  }

  lemma PassNone(env: Arena, sc: Scope)
    ensures PassAnnotations(NONE, env, sc) == Outcome(NONE, false, [])
  {
    assert NONE.annotations[..0] == [] && NONE.annotations[0..] == [];
  }

  lemma PassFields(f: Field, env: Arena, sc: Scope)
    ensures var r, p := PassEach([f], (x: Field) => PassField(x, env, sc)), PassField(f, env, sc);
            r.node == [p.node] && r.changed == p.changed
  {
    assert [f][1..] == [];
  }

  lemma PassItemsField(ok: bool, env: Arena)
    requires "Int" in env.ids
    ensures var f := Field("items", Plain("Set", [Plain("Int", [], ok)], ok), NONE, NoDefault);
            var r := PassField(f, env, ModelScope("C"));
            r.node == Field("items", Plain("Set", [Plain("Int", [], true)], true), NONE, NoDefault) && r.changed == !ok
  {
    PassNone(env, ModelScope("C"));
    assert PassFieldType(Plain("Int", [], ok), env.ids).node == Plain("Int", [], true);
    assert PassFieldTypes([Plain("Int", [], ok)], env.ids).node == [Plain("Int", [], true)];
  }

  lemma PassC(base: Arena, ok: bool, self: Type, items: Type, z: Type, context: Type, t: Type, okD: bool)
    requires Base(base)
    requires (self == Defer && items == Defer) || (self == Ref(base, 0) && (items == Error || items == Items(base)))
    requires (z == Defer || z == Error) &&
             ((context == Defer && t == Defer) || (context == Ref(base, 1) && (t == Error || t == IntRef(base))))
    ensures var r :=
              PassModel(C(ok, self, items, z, context, t),
                        Contexts(base, C(ok, self, items, z, context, t), D(okD)).types);
            && r.node ==
               C(true, Ref(base, 0), if ok || items == Items(base) then Items(base) else Error, Error, Ref(base, 1),
                 if okD || t == IntRef(base) then IntRef(base) else Error)
            && r.changed == (!ok || context == Defer || (okD && t == Error))
  {
    var c := C(ok, self, items, z, context, t);
    var env, sc := Contexts(base, c, D(okD)).types, ModelScope("C");
    PassItemsZ(base, self, items, z, ok, c, D(okD));
    PassDotD(base, context, t, c, okD);
    PassOne("first", SelfItemsZ(self, items, z), env, sc);
    PassOne("second", DotD(context, t), env, sc);
    PassList(c.annotations.annotations[0], c.annotations.annotations[1], env, sc);
    PassItemsField(ok, env);
    PassFields(c.fields[0], env, sc);
    assert PassEach(c.fragments, (f: Fragment) => PassFragment(f, env)) == Outcome([], false, []);
  }

  lemma PassD(base: Arena, c: Model, ok: bool)
    requires Base(base)
    requires c.name == "C"
    ensures var r := PassModel(D(ok), Contexts(base, c, D(ok)).types); r.node == D(true) && r.changed == !ok
  {
    var env, sc := Contexts(base, c, D(ok)).types, ModelScope("D");
    PassNone(env, sc);
    PassFields(D(ok).fields[0], env, sc);
    assert PassFieldType(Plain("Int", [], ok), env.ids).node == Plain("Int", [], true);
    assert PassEach(D(ok).fragments, (f: Fragment) => PassFragment(f, env)) == Outcome([], false, []);
  }

  // ----- Two orders, two final states -----

  function Untouched(base: Arena): State {
    Contexts(base, C(false, Defer, Defer, Defer, Defer, Defer), D(false))
  }

  /** Where the slot of `self.items` holds the given type, and all others that can be are resolved. */
  function Ended(base: Arena, items: Type): State {
    Contexts(base, C(true, Ref(base, 0), items, Error, Ref(base, 1), IntRef(base)), D(true))
  }

  /** A pass over either context, in terms of the contexts. */
  lemma StepC(base: Arena, ok: bool, self: Type, items: Type, z: Type, context: Type, t: Type, okD: bool)
    requires Base(base)
    requires (self == Defer && items == Defer) || (self == Ref(base, 0) && (items == Error || items == Items(base)))
    requires (z == Defer || z == Error) &&
             ((context == Defer && t == Defer) || (context == Ref(base, 1) && (t == Error || t == IntRef(base))))
    ensures var st := Contexts(base, C(ok, self, items, z, context, t), D(okD));
            var changed := !ok || context == Defer || (okD && t == Error);
            var next :=
              C(true, Ref(base, 0), if ok || items == Items(base) then Items(base) else Error, Error, Ref(base, 1),
                if okD || t == IntRef(base) then IntRef(base) else Error);
            StepPass(st, Of(base, 0)).changed == changed && StepPass(st, Of(base, 0)).node == if changed
              then Contexts(base, next, D(okD)) else st
  {
    PassC(base, ok, self, items, z, context, t, okD);
    VisitC(base, C(ok, self, items, z, context, t), D(okD));
  }

  lemma VisitC(base: Arena, c: Model, d: Model)
    requires Base(base)
    ensures var st := Contexts(base, c, d);
            var r := PassModel(c, st.types);
            StepPass(st, Of(base, 0)).changed == r.changed && StepPass(st, Of(base, 0)).node == if r.changed
              then Contexts(base, r.node, d) else st
  {
    var st := Contexts(base, c, d);
    var r := PassModel(c, st.types);
    assert st.types.values[|base.values| := ModelEntry(r.node)] == base.values + [ModelEntry(r.node), ModelEntry(d)];
  }

  lemma StepD(base: Arena, c: Model, ok: bool)
    requires Base(base)
    requires c.name == "C"
    ensures var st := Contexts(base, c, D(ok));
            StepPass(st, Of(base, 1)).changed == !ok && StepPass(st, Of(base, 1)).node == Contexts(base, c, D(true))
  {
    PassD(base, c, ok);
    var st := Contexts(base, c, D(ok));
    assert st.types.values[|base.values| + 1 := ModelEntry(D(true))] ==
           base.values + [ModelEntry(c), ModelEntry(D(true))];
  }

  lemma RunTwo(st: State, x: Step, y: Step)
    ensures Run(st, [x, y]) == StepPass(StepPass(st, x).node, y).node
  {
    assert [x, y][1..] == [y] && [y][1..] == [];
    assert Run(StepPass(st, x).node, [y]) == Run(StepPass(StepPass(st, x).node, y).node, []);
  }

  lemma RunThree(st: State, x: Step, y: Step, z: Step)
    ensures Run(st, [x, y, z]) == StepPass(StepPass(StepPass(st, x).node, y).node, z).node
  {
    assert [x, y, z][1..] == [y, z];
    RunTwo(StepPass(st, x).node, y, z);
  }

  lemma {:induction false} QuiescentContexts(base: Arena, items: Type)
    requires Base(base)
    requires items == Error || items == Items(base)
    ensures Quiescent(Contexts(base, C(true, Ref(base, 0), items, Error, Ref(base, 1), IntRef(base)), D(true)))
  {
    var c := C(true, Ref(base, 0), items, Error, Ref(base, 1), IntRef(base));
    StepC(base, true, Ref(base, 0), items, Error, Ref(base, 1), IntRef(base), true);
    StepD(base, c, true);
    QuietSteps(base, c, D(true));
  }

  lemma {:induction false} QuietSteps(base: Arena, c: Model, d: Model)
    requires Base(base)
    requires !StepPass(Contexts(base, c, d), Of(base, 0)).changed &&
             !StepPass(Contexts(base, c, d), Of(base, 1)).changed
    ensures Quiescent(Contexts(base, c, d))
  {
    var st := Contexts(base, c, d);
    forall i | 0 <= i < |st.types.values| ensures !TypePass(st, i).changed {
      if i < |base.values| { assert st.types.values[i] == base.values[i]; }
      if i == |base.values| { assert TypePass(st, i) == StepPass(st, Of(base, 0)); }
      if i == |base.values| + 1 { assert TypePass(st, i) == StepPass(st, Of(base, 1)); }
    }
  }

  lemma {:induction false} FirstOrder(base: Arena)
    requires Base(base)
    ensures Run(Untouched(base), [Of(base, 0), Of(base, 1), Of(base, 0)]) == Ended(base, Items(base))
  {
    StepC(base, false, Defer, Defer, Defer, Defer, Defer, false);
    StepD(base, C(true, Ref(base, 0), Error, Error, Ref(base, 1), Error), false);
    StepC(base, true, Ref(base, 0), Error, Error, Ref(base, 1), Error, true);
    RunThree(Untouched(base), Of(base, 0), Of(base, 1), Of(base, 0));
  }

  lemma {:induction false} SecondOrder(base: Arena)
    requires Base(base)
    ensures Run(Untouched(base), [Of(base, 1), Of(base, 0)]) == Ended(base, Error)
  {
    StepD(base, C(false, Defer, Defer, Defer, Defer, Defer), false);
    StepC(base, false, Defer, Defer, Defer, Defer, Defer, true);
    RunTwo(Untouched(base), Of(base, 1), Of(base, 0));
  }

  lemma EndsDiffer(base: Arena)
    ensures Ended(base, Items(base)) != Ended(base, Error)
  {
    var n := |base.values|;
    var a, b := Ended(base, Items(base)).types.values[n], Ended(base, Error).types.values[n];
    assert a.model.annotations.annotations[0].params[0].sel.prefix == SelfItems(Ref(base, 0), Items(base));
    assert b.model.annotations.annotations[0].params[0].sel.prefix == SelfItems(Ref(base, 0), Error);
    assert SelfItems(Ref(base, 0), Items(base)).typ != SelfItems(Ref(base, 0), Error).typ;
  }

  // ----- The program -----

  const SYS := AstSystem([C(false, Defer, Defer, Defer, Defer, Defer), D(false)], [])

  lemma PredefinedLacks(name: string)
    requires !Predefined(name)
    ensures name !in AddAll(PREDEFINED).ids
  {
    if name in AddAll(PREDEFINED).ids { NamesFrom(PREDEFINED, name); }
  }

  lemma NewNames0()
    ensures !Predefined("C") && !Predefined("D")
  {
  }

  lemma {:induction false} NoModels(es: seq<Entry>)
    requires forall e :: e in es ==> !e.ModelEntry?
    ensures forall i :: 0 <= i < |AddAll(es).values| ==> !AddAll(es).values[i].ModelEntry?
  {
    AddAllHolds(es);
  }

  lemma {:induction false} PredefinedBase()
    ensures Base(AddAll(PREDEFINED))
  {
    AddAllValid(PREDEFINED);
    NoModels(PREDEFINED);
    NewNames0();
    PredefinedLacks("C");
    PredefinedLacks("D");
    IntIsPredefined();
  }

  lemma {:induction false} IntIsPredefined()
    ensures var base := AddAll(PREDEFINED);
            "Int" in base.ids && base.ids["Int"] < |base.values| &&
            base.values[base.ids["Int"]] == PrimitiveEntry("Int")
  {
    FirstIsFound(PREDEFINED, 1);
  }

  lemma {:induction false} Starts()
    ensures InitialState(SYS) == Untouched(AddAll(PREDEFINED))
  {
    PredefinedBase();
    Entries0();
    AddTwo(PREDEFINED, ModelEntry(C(false, Defer, Defer, Defer, Defer, Defer)), ModelEntry(D(false)));
  }

  lemma {:induction false} Entries0()
    ensures InitialEntries(SYS) ==
            PREDEFINED + [ModelEntry(C(false, Defer, Defer, Defer, Defer, Defer))] + [ModelEntry(D(false))]
  {
    InitialEntriesAre(SYS);
    Shallow0();
    TwoEntries(SYS.types[0], SYS.types[1], PREDEFINED);
  }

  lemma {:induction false} TwoEntries(c: Model, d: Model, es: seq<Entry>)
    requires ShallowModel(c) == c && ShallowModel(d) == d
    ensures es + TypeEntries([c, d]) == es + [ModelEntry(c)] + [ModelEntry(d)]
  {
    assert TypeEntries([c, d]) == [ModelEntry(c), ModelEntry(d)];
  }

  lemma {:induction false} Shallow0()
    ensures ShallowModel(C(false, Defer, Defer, Defer, Defer, Defer)) == C(false, Defer, Defer, Defer, Defer, Defer)
    ensures ShallowModel(D(false)) == D(false)
  {
    var first, second := Select(SelfItemsZ(Defer, Defer, Defer)), Select(DotD(Defer, Defer));
    assert ShallowExprs([first]) == [first] && ShallowExprs([second]) == [second];
    assert ShallowFieldTypes([Plain("Int", [], false)]) == [Plain("Int", [], false)];
  }

  lemma AddTwo(es: seq<Entry>, a: Entry, b: Entry)
    requires EntryName(a) !in AddAll(es).ids && EntryName(b) !in AddAll(es).ids && EntryName(a) != EntryName(b)
    ensures var env, n := AddAll(es), |AddAll(es).values|;
            AddAll(es + [a] + [b]) == Arena(env.values + [a, b], env.ids[EntryName(a) := n][EntryName(b) := n + 1])
  {
    assert (es + [a])[..|es|] == es && (es + [a] + [b])[..|es| + 1] == es + [a];
    assert AddAll(es + [a]) == AddEntry(AddAll(es), a);
    assert AddAll(es + [a] + [b]) == AddEntry(AddAll(es + [a]), b);
  }

  /** Visiting `C` first, the set is resolved in the pass that also resolves `D.d`, and kept; visiting `D` first, it is
      resolved in a pass that reports no change, and dropped, for ever. */
  lemma OrderMatters()
    ensures var start, c, d := InitialState(SYS), Of(AddAll(PREDEFINED), 0), Of(AddAll(PREDEFINED), 1);
            Quiescent(Run(start, [c, d, c])) && Quiescent(Run(start, [d, c])) &&
            Run(start, [c, d, c]) != Run(start, [d, c])
  {
    var base := AddAll(PREDEFINED);
    PredefinedBase();
    Starts();
    BothEnd(base);
  }

  lemma {:induction false} BothEnd(base: Arena)
    requires Base(base)
    ensures var start, c, d := Untouched(base), Of(base, 0), Of(base, 1);
            Quiescent(Run(start, [c, d, c])) && Quiescent(Run(start, [d, c])) &&
            Run(start, [c, d, c]) != Run(start, [d, c])
  {
    FirstOrder(base);
    SecondOrder(base);
    QuiescentContexts(base, Items(base));
    QuiescentContexts(base, Error);
    EndsDiffer(base);
  }
}
