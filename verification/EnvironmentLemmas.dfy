/** What passes read from the environment is the same in all its states. */
module EnvironmentLemmas {
  import opened Wrappers
  import opened Ast
  import opened Passes
  import opened OneShot

  lemma SameDeref(t: Type, env: Arena, env0: Arena)
    requires StateOf(env, env0)
    ensures Deref(t, env) == Deref(t, env0)
  {
    match t
    case Reference(i) => assert i < |env.values| ==> EntryOf(env.values[i], env0.values[i], env0.ids);
    case _ =>
  }

  lemma SameUnderlyingName(t: Type, env: Arena, env0: Arena)
    requires StateOf(env, env0)
    ensures UnderlyingName(t, env) == UnderlyingName(t, env0)
  {
    match t
    case Composite(i) => assert i < |env.values| ==> EntryOf(env.values[i], env0.values[i], env0.ids);
    case Enumeration(i) => assert i < |env.values| ==> EntryOf(env.values[i], env0.values[i], env0.ids);
    case Reference(i) => assert i < |env.values| ==> EntryOf(env.values[i], env0.values[i], env0.ids);
    case _ =>
  }

  lemma SameFirstEnum(variant: string, env: Arena, env0: Arena, from: nat)
    requires StateOf(env, env0)
    requires from <= |env.values|
    ensures FirstEnumWith(variant, env.values, from) == FirstEnumWith(variant, env0.values, from)
    decreases |env.values| - from
  {
    if from < |env.values| {
      assert EntryOf(env.values[from], env0.values[from], env0.ids);
      SameFirstEnum(variant, env, env0, from + 1);
    }
  }

  lemma SameResolution(name: string, env: Arena, env0: Arena, sc: Scope)
    requires StateOf(env, env0)
    ensures ResolveIdentifier(name, env, sc) == ResolveIdentifier(name, env0, sc)
  {
    SameFirstEnum(name, env, env0, 0);
    if name in env.ids {
      assert EntryOf(env.values[env.ids[name]], env0.values[env.ids[name]], env0.ids);
    }
  }

  lemma SameBodyScope(param: string, of: Type, env: Arena, env0: Arena, sc: Scope)
    requires StateOf(env, env0)
    ensures BodyScope(param, Some(of), env, sc) == BodyScope(param, Some(of), env0, sc)
  {
    SameUnderlyingName(of, env, env0);
  }

  // ----- Fields -----

  lemma FirstNamedOf(fs: seq<Field>, ds: seq<Field>, name: string, ids: map<string, nat>)
    requires FieldsOf(fs, ds, ids)
    ensures FirstNamed(fs, name).Some? <==> FirstNamed(ds, name).Some?
    ensures FirstNamed(fs, name).Some? ==> FieldOf(FirstNamed(fs, name).value, FirstNamed(ds, name).value, ids)
    ensures FirstNamed(fs, name).Some? ==> FirstNamed(fs, name).value in fs
  {
    if fs != [] {
      assert FieldOf(fs[0], ds[0], ids);
      assert FieldsOf(fs[1..], ds[1..], ids);
      FirstNamedOf(fs[1..], ds[1..], name, ids);
    }
  }

  lemma EntryFieldsOf(name: string, env: Arena, env0: Arena)
    requires StateOf(env, env0)
    ensures FieldsOf(EntryFields(name, env), EntryFields(name, env0), env0.ids)
  {
    if name in env.ids {
      assert EntryOf(env.values[env.ids[name]], env0.values[env.ids[name]], env0.ids);
    }
  }

  lemma FieldsOfConcat(fs: seq<Field>, fs': seq<Field>, ds: seq<Field>, ds': seq<Field>, ids: map<string, nat>)
    requires FieldsOf(fs, ds, ids) && FieldsOf(fs', ds', ids)
    ensures FieldsOf(fs + fs', ds + ds', ids)
  {
  }

  lemma {:induction false} FragmentFieldsOf(fs: seq<Fragment>, ds: seq<Fragment>, env: Arena, env0: Arena)
    requires StateOf(env, env0) && SameNames(fs, ds)
    ensures FieldsOf(FragmentFields(fs, env), FragmentFields(ds, env0), env0.ids)
    ensures MissingFragments(fs, env) == MissingFragments(ds, env0)
  {
    if fs != [] {
      FragmentFieldsOf(fs[1..], ds[1..], env, env0);
      EntryFieldsOf(fs[0].name, env, env0);
      FieldsOfConcat(EntryFields(fs[0].name, env), FragmentFields(fs[1..], env),
                     EntryFields(ds[0].name, env0), FragmentFields(ds[1..], env0), env0.ids);
    }
  }

  lemma FindFieldOf(c: nat, name: string, env: Arena, env0: Arena)
    requires StateOf(env, env0)
    ensures FindField(c, name, env).Some? <==> FindField(c, name, env0).Some?
    ensures FindField(c, name, env).Some? ==>
              FieldOf(FindField(c, name, env).value, FindField(c, name, env0).value, env0.ids)
  {
    if c < |env.values| {
      assert EntryOf(env.values[c], env0.values[c], env0.ids);
      if env.values[c].ModelEntry? {
        var m, d := env.values[c].model, env0.values[c].model;
        FragmentFieldsOf(m.fragments, d.fragments, env, env0);
        FieldsOfConcat(m.fields, FragmentFields(m.fragments, env), d.fields, FragmentFields(d.fragments, env0),
                       env0.ids);
        FirstNamedOf(m.fields + FragmentFields(m.fragments, env), d.fields + FragmentFields(d.fragments, env0), name,
                     env0.ids);
      }
    }
  }

  // ----- Declared types -----

  lemma {:induction false} SameDeclared(a: FieldType, b: FieldType, env: Arena)
    requires ShallowFieldType(a) == ShallowFieldType(b)
    ensures Declared(a, env) == Declared(b, env)
  {
    match a
    case OptionalField(u) => SameDeclared(u, b.inner, env);
    case Plain(n, params, _) =>
      assert |b.params| == |ShallowFieldType(b).params| == |params|;
      if |params| > 0 {
        assert ShallowFieldType(params[0]) == ShallowFieldType(a).params[0] == ShallowFieldType(b.params[0]);
        SameDeclared(params[0], b.params[0], env);
      }
  }

  /** A complete field type is the declared one. */
  lemma {:induction false} ToTypeAgrees(ft: FieldType, env: Arena)
    requires FlagsSound(ft, env.ids)
    ensures Complete(ToType(ft, env)) ==> ToType(ft, env) == Declared(ft, env)
  {
    match ft
    case OptionalField(u) => ToTypeAgrees(u, env);
    case Plain(n, params, ok) => if |params| > 0 { ToTypeAgrees(params[0], env); }
  }

  lemma {:induction false} ToTypeSettled(ft: FieldType, env: Arena)
    requires FlagsSettled(ft, env.ids)
    ensures ToType(ft, env) == Declared(ft, env)
  {
    match ft
    case OptionalField(u) => ToTypeSettled(u, env);
    case Plain(n, params, ok) => if |params| > 0 { ToTypeSettled(params[0], env); }
  }

  lemma {:induction false} ToTypeSet(ft: FieldType, env: Arena)
    requires FlagsSet(ft) && FlagsSound(ft, env.ids) && WellFormedType(ft)
    ensures Complete(ToType(ft, env))
  {
    match ft
    case OptionalField(u) => ToTypeSet(u, env);
    case Plain(n, params, ok) => if |params| > 0 { ToTypeSet(params[0], env); }
  }

  lemma SameToType(ft: FieldType, env: Arena, env0: Arena)
    requires env.ids == env0.ids
    ensures ToType(ft, env) == ToType(ft, env0)
  {
  }

  lemma {:induction false} DerefComplete(t: Type, env: Arena)
    ensures Complete(Deref(t, env)) ==> Complete(t)
  {
    match t
    case OptionalType(u) => DerefComplete(u, env);
    case SetType(u) => DerefComplete(u, env);
    case ArrayType(u) => DerefComplete(u, env);
    case _ =>
  }

  /** Finishing a field selection yields its declared type, if anything. */
  lemma FinishFieldAgrees(c: nat, name: string, env: Arena, env0: Arena)
    requires StateOf(env, env0)
    ensures var fin := FinishField(c, name, env);
            Complete(fin.typ) ==> fin.typ == TypeOfField(c, name, env0)
    ensures var fin := FinishField(c, name, env); fin.updated <==> Complete(fin.typ)
  {
    FindFieldOf(c, name, env, env0);
    if FindField(c, name, env).Some? {
      var f, d := FindField(c, name, env).value, FindField(c, name, env0).value;
      ToTypeAgrees(f.typ, env0);
      SameToType(f.typ, env, env0);
      SameDeclared(f.typ, d.typ, env0);
    }
  }

  // ----- Names of element types: why a higher-order call never panics -----

  /** The type names an arena entry. */
  predicate HasName(t: Type, env: Arena) {
    var n := UnderlyingName(t, env);
    n.Some? && n.value in env.ids
  }

  predicate Rooted(t: Type, env: Arena) {
    match t
    case OptionalType(u) => HasName(u, env)
    case SetType(u) => HasName(u, env)
    case ArrayType(u) => HasName(u, env)
    case Reference(i) => i < |env.values|
    case _ => true
  }

  lemma {:induction false} DeclaredHasName(ft: FieldType, env: Arena)
    requires env.Valid() && Complete(Declared(ft, env))
    ensures HasName(Declared(ft, env), env)
  {
    match ft
    case OptionalField(u) => DeclaredHasName(u, env);
    case Plain(n, params, _) =>
      if n == "Set" || n == "Array" { DeclaredHasName(params[0], env); }
  }

  lemma DeclaredRooted(ft: FieldType, env: Arena)
    requires env.Valid() && Complete(Declared(ft, env))
    ensures Rooted(Declared(ft, env), env)
  {
    DeclaredHasName(ft, env);
  }

  lemma {:induction false} DerefHasName(t: Type, env: Arena)
    requires env.Valid() && HasName(t, env)
    ensures HasName(Deref(t, env), env)
  {
    match t
    case OptionalType(u) => DerefHasName(u, env);
    case SetType(u) => DerefHasName(u, env);
    case ArrayType(u) => DerefHasName(u, env);
    case Reference(i) => assert EntryName(env.values[i]) in env.ids;
    case _ =>
  }

  lemma {:induction false} InferRooted(e: Expr, env: Arena, sc: Scope)
    requires env.Valid() && Complete(Infer(e, env, sc))
    ensures Rooted(Infer(e, env, sc), env)
    decreases e, 0
  {
    if e.Select? { InferSelectionRooted(e.sel, env, sc); }
  }

  lemma {:induction false} InferSelectionRooted(s: Selection, env: Arena, sc: Scope)
    requires env.Valid() && Complete(InferSelection(s, env, sc))
    ensures Rooted(InferSelection(s, env, sc), env)
    decreases s, 0
  {
    if s.Path? {
      var target := TargetOf(Deref(InferSelection(s.prefix, env, sc), env));
      if PassesElement(target, s.elem) {
        assert Complete(InferElement(s.elem, env, sc, target.of));
        if s.elem.HofCall? {
          InferRooted(s.elem.body, env, BodyScope(s.elem.param, Some(target.of), env, sc).value);
        }
      } else {
        DeclaredRooted(FindField(target.id, s.elem.name, env).value.typ, env);
      }
    }
  }

  /** The element type of a selection's prefix names an arena entry, so the body of a
      higher-order call has a scope. */
  lemma TargetHasName(p: Selection, env: Arena, sc: Scope)
    requires env.Valid() && Complete(InferSelection(p, env, sc))
    ensures var target := TargetOf(Deref(InferSelection(p, env, sc), env));
            target.OnOptional? || target.OnSet? || target.OnArray? ==> HasName(target.of, env)
  {
    InferSelectionRooted(p, env, sc);
    match InferSelection(p, env, sc)
    case OptionalType(u) => DerefHasName(u, env);
    case SetType(u) => DerefHasName(u, env);
    case ArrayType(u) => DerefHasName(u, env);
    case _ =>
  }

  lemma {:induction false} HasNameComplete(t: Type, env: Arena)
    requires HasName(t, env)
    ensures Complete(Deref(t, env))
  {
    match t
    case OptionalType(u) => HasNameComplete(u, env);
    case SetType(u) => HasNameComplete(u, env);
    case ArrayType(u) => HasNameComplete(u, env);
    case _ =>
  }

  lemma RootedComplete(t: Type, env: Arena)
    requires Rooted(t, env) && Complete(t)
    ensures Complete(Deref(t, env))
  {
    match t
    case OptionalType(u) => HasNameComplete(u, env);
    case SetType(u) => HasNameComplete(u, env);
    case ArrayType(u) => HasNameComplete(u, env);
    case _ =>
  }

  // ----- Fields of a ready or settled environment -----

  /** Every field type of every model entry has all its flags set. */
  ghost predicate EnvReady(env: Arena) {
    forall i, j :: 0 <= i < |env.values| && env.values[i].ModelEntry? && 0 <= j < |env.values[i].model.fields| ==>
      FlagsSet(env.values[i].model.fields[j].typ) && WellFormedType(env.values[i].model.fields[j].typ)
  }

  ghost predicate EnvSettled(env: Arena) {
    forall i, j :: 0 <= i < |env.values| && env.values[i].ModelEntry? && 0 <= j < |env.values[i].model.fields| ==>
      FlagsSettled(env.values[i].model.fields[j].typ, env.ids)
  }

  lemma EntryFieldsFrom(name: string, f: Field, env: Arena)
    requires f in EntryFields(name, env)
    ensures exists i, j :: 0 <= i < |env.values| && env.values[i].ModelEntry? && 0 <= j < |env.values[i].model.fields|
                           && f == env.values[i].model.fields[j]
  {
  }

  lemma {:induction false} FragmentFieldsFrom(fs: seq<Fragment>, f: Field, env: Arena)
    requires f in FragmentFields(fs, env)
    ensures exists i, j :: 0 <= i < |env.values| && env.values[i].ModelEntry? && 0 <= j < |env.values[i].model.fields|
                           && f == env.values[i].model.fields[j]
  {
    if f in EntryFields(fs[0].name, env) {
      EntryFieldsFrom(fs[0].name, f, env);
    } else {
      FragmentFieldsFrom(fs[1..], f, env);
    }
  }

  lemma FirstNamedIn(fs: seq<Field>, name: string)
    ensures FirstNamed(fs, name).Some? ==> FirstNamed(fs, name).value in fs
  {
  }

  /** A field that is found is a field of some model entry. */
  lemma FindFieldFrom(c: nat, name: string, env: Arena)
    requires FindField(c, name, env).Some?
    ensures exists i, j :: 0 <= i < |env.values| && env.values[i].ModelEntry? && 0 <= j < |env.values[i].model.fields|
                           && FindField(c, name, env).value == env.values[i].model.fields[j]
  {
    var m := env.values[c].model;
    var f := FindField(c, name, env).value;
    FirstNamedIn(m.fields + FragmentFields(m.fragments, env), name);
    if f !in m.fields {
      FragmentFieldsFrom(m.fragments, f, env);
    }
  }

  lemma FinishFieldReady(c: nat, name: string, env: Arena, env0: Arena)
    requires StateOf(env, env0) && EnvReady(env)
    ensures var fin := FinishField(c, name, env); fin.updated || fin.errors != []
  {
    FindFieldOf(c, name, env, env0);
    if FindField(c, name, env).Some? {
      FindFieldFrom(c, name, env);
      ToTypeSet(FindField(c, name, env).value.typ, env);
    }
  }

  lemma FinishFieldSettled(c: nat, name: string, env: Arena, env0: Arena)
    requires StateOf(env, env0) && EnvSettled(env) && Complete(TypeOfField(c, name, env0))
    ensures FinishField(c, name, env).updated
  {
    FindFieldOf(c, name, env, env0);
    if FindField(c, name, env).Some? {
      FindFieldFrom(c, name, env);
      var f, d := FindField(c, name, env).value, FindField(c, name, env0).value;
      ToTypeSettled(f.typ, env);
      SameToType(f.typ, env, env0);
      SameDeclared(f.typ, d.typ, env0);
      SameIdsDeclared(f.typ, env, env0);
    }
  }

  lemma SameIdsDeclared(ft: FieldType, env: Arena, env0: Arena)
    requires env.ids == env0.ids
    ensures Declared(ft, env) == Declared(ft, env0)
  {
  }
}
