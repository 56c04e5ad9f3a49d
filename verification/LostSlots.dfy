/** Which resolved slots are lost when a clone is dropped because its pass returned false. */
module LostSlots {
  import opened Sums
  import opened Wrappers
  import opened Ast
  import opened Passes
  import opened OneShot
  import opened ExprSoundness
  import opened ExprProgress
  import opened FieldTypeLemmas
  import opened Declarations
  import opened Parts
  import opened PartPasses
  import opened PartFacts
  import opened PartShapes

  /** The pass resolves a slot of the expression that nobody hears of: it meets a plain field on a set that it has
      just resolved, or an undeclared annotation follows in the same map. */
  predicate UseLoses(u: Use, env: Arena) {
    u.visited && (HitsSetField(u.expr, env, u.scope) || (!u.heard && PassExpr(u.expr, env, u.scope).changed))
  }

  ghost predicate AnyLoses(p: Parts, env: Arena) {
    exists k :: 0 <= k < |p.uses| && UseLoses(p.uses[k], env)
  }

  lemma {:induction false} UnchangedType(ft: FieldType, ids: map<string, nat>)
    requires !PassFieldType(ft, ids).changed
    ensures PassFieldType(ft, ids).node == ft
    decreases ft, 0
  {
    match ft
    case OptionalField(u) => UnchangedType(u, ids);
    case Plain(_, params, _) => UnchangedTypes(params, ids);
  }

  lemma {:induction false} UnchangedTypes(fts: seq<FieldType>, ids: map<string, nat>)
    requires !PassFieldTypes(fts, ids).changed
    ensures PassFieldTypes(fts, ids).node == fts
    decreases fts, 1
  {
    if fts != [] {
      UnchangedType(fts[0], ids);
      UnchangedTypes(fts[1..], ids);
    }
  }

  /** What a pass does to the measure of one expression, when it reports nothing that is heard. */
  lemma UseDrops(u: Use, env: Arena, env0: Arena)
    requires StateOf(env, env0) && ScopeOk(u.scope, env0) && Sound(u.expr, env0, u.scope) && UseQuiet(u, env)
    ensures CountUse(PassedUse(u, env)) <= CountUse(u)
    ensures CountUse(PassedUse(u, env)) < CountUse(u) <==> UseLoses(u, env)
  {
    PassProgress(u.expr, env, env0, u.scope);
  }

  /** A declaration whose pass reports no change. */
  lemma PartsDrop(p: Parts, q: Parts, env: Arena, env0: Arena)
    requires StateOf(env, env0) && SoundParts(p, env0) && ScopesOk(p, env0) && QuietParts(p, env) &&
             PassedParts(p, q, env)
    ensures CountParts(q) < CountParts(p) <==> AnyLoses(p, env)
  {
    forall k | 0 <= k < |p.uses|
      ensures CountUse(q.uses[k]) <= CountUse(p.uses[k]) &&
              (CountUse(q.uses[k]) < CountUse(p.uses[k]) <==> UseLoses(p.uses[k], env))
    {
      assert UseQuiet(p.uses[k], env) && Sound(p.uses[k].expr, env0, p.uses[k].scope) && ScopeOk(p.uses[k].scope, env0);
      assert q.uses[k] == PassedUse(p.uses[k], env);
      UseDrops(p.uses[k], env, env0);
    }
    SumStep(p.uses, q.uses, CountUse);
    SameRest(p, q, env);
  }

  lemma SameRest(p: Parts, q: Parts, env: Arena)
    requires QuietParts(p, env) && PassedParts(p, q, env)
    ensures q.types == p.types && q.fragments == p.fragments
  {
    forall k | 0 <= k < |p.types| ensures q.types[k] == p.types[k] {
      assert !PassFieldType(p.types[k], env.ids).changed && q.types[k] == PassFieldType(p.types[k], env.ids).node;
      UnchangedType(p.types[k], env.ids);
    }
    forall k | 0 <= k < |p.fragments| ensures q.fragments[k] == p.fragments[k] {
      assert !PassFragment(p.fragments[k], env).changed && q.fragments[k] == PassFragment(p.fragments[k], env).node;
    }
  }

  /** A pass over a model that reports no change loses a resolved slot exactly when it passes an expression that meets
      a plain field on a set it has just resolved, or changes one that an undeclared annotation follows. */
  lemma FalseModelPassLoses(m: Model, env: Arena, env0: Arena)
    requires StateOf(env, env0) && SoundModel(m, env0) && !PassModel(m, env).changed
    ensures CountModel(PassModel(m, env).node) < CountModel(m) <==> AnyLoses(ModelParts(m), env)
  {
    var n := PassModel(m, env).node;
    SoundModelParts(m, env0);
    ModelScopes(m, env0);
    DigestModel(m, env);
    PartsDrop(ModelParts(m), ModelParts(n), env, env0);
    CountModelParts(m);
    CountModelParts(n);
  }

  /** The same for a module. */
  lemma FalseModulePassLoses(m: Module, env: Arena, env0: Arena)
    requires StateOf(env, env0) && SoundModule(m, env0) && !PassModule(m, env).changed
    ensures CountModule(PassModule(m, env).node) < CountModule(m) <==> AnyLoses(ModuleParts(m), env)
  {
    var n := PassModule(m, env).node;
    SoundModuleParts(m, env0);
    ModuleScopes(m, env0);
    DigestModule(m, env);
    PartsDrop(ModuleParts(m), ModuleParts(n), env, env0);
    CountModuleParts(m);
    CountModuleParts(n);
  }

  /** `@access(self), @undeclared`: the undeclared annotation makes the pass return false after it has resolved
      `self`. */
  lemma UndeclaredPass(env: Arena)
    requires "M" in env.ids
    ensures PassAnnotations(AccessThenUndeclared(SELF), env, ModelScope("M")).node ==
            AccessThenUndeclared(SelfOf(env.ids["M"]))
    ensures !PassAnnotations(AccessThenUndeclared(SELF), env, ModelScope("M")).changed
  {
    var sc := ModelScope("M");
    var a, b := Annotation("access", true, false, [SELF]), Annotation("undeclared", false, false, []);
    var f := (x: Annotation) => PassAnnotation(x, env, sc);
    var g := (e: Expr) => PassExpr(e, env, sc);
    assert [a, b][1..] == [b] && FirstUndeclared([b]) == 0 && FirstUndeclared([a, b]) == 1;
    assert [a, b][..1] == [a] && [a][1..] == [];
    assert PassExpr(SELF, env, sc).node == SelfOf(env.ids["M"]);
    assert [SELF][1..] == [] && PassEach([SELF], g).node == [SelfOf(env.ids["M"])];
    assert PassEach([a], f).node == [Annotation("access", true, false, [SelfOf(env.ids["M"])])];
  }

  const SELF: Expr := Select(Single(Identifier("self", Defer), Defer))

  function SelfOf(id: nat): Expr {
    Select(Single(Identifier("self", Reference(id)), Reference(id)))
  }

  function AccessThenUndeclared(e: Expr): AnnotationMap {
    AnnotationMap([Annotation("access", true, false, [e]), Annotation("undeclared", false, false, [])], [])
  }

  lemma CountAccess(e: Expr)
    ensures CountAnnotations(AccessThenUndeclared(e)) == CountExpr(e)
  {
    var a, b := Annotation("access", true, false, [e]), Annotation("undeclared", false, false, []);
    assert AccessThenUndeclared(e).annotations[1..] == [b] && CountAnnotation(b) == 0;
    SumOne(b, CountAnnotation);
    SumOne(e, CountExpr);
  }

  /** A model with these two annotations: a pass returns false and loses the slot of `self`, with no set anywhere. */
  lemma UndeclaredExample(env: Arena)
    requires "M" in env.ids
    ensures var m := Model("M", TypeKind, [], [], AccessThenUndeclared(SELF));
            && !PassModel(m, env).changed && !HitsSetField(SELF, env, ModelScope("M"))
            && CountModel(PassModel(m, env).node) == 0 && CountModel(m) == 1
  {
    var m := Model("M", TypeKind, [], [], AccessThenUndeclared(SELF));
    UndeclaredPass(env);
    CountAccess(SELF);
    CountAccess(SelfOf(env.ids["M"]));
    assert PassEach(m.fields, (f: Field) => PassField(f, env, ModelScope("M"))) == Outcome([], false, []);
    assert PassEach(m.fragments, (f: Fragment) => PassFragment(f, env)) == Outcome([], false, []);
    assert PassModel(m, env).node == Model("M", TypeKind, [], [], AccessThenUndeclared(SelfOf(env.ids["M"])));
    assert CountSelection(SELF.sel) == 1 && CountSelection(SelfOf(env.ids["M"]).sel) == 0;
    assert !SelectionHitsSetField(SELF.sel, env, ModelScope("M"));
  }
}
