/** Passes over field types. */
module FieldTypeLemmas {
  import opened Sums
  import opened Ast
  import opened Passes
  import opened OneShot

  /** The number of flags not yet set. */
  function CountFlags(ft: FieldType): nat
    decreases ft, 0
  {
    match ft
    case OptionalField(u) => CountFlags(u)
    case Plain(_, params, ok) => (if ok then 0 else 1) + CountAllFlags(params)
  }

  function CountAllFlags(fts: seq<FieldType>): nat
    decreases fts, 0
  {
    if fts == [] then 0 else CountFlags(fts[0]) + CountAllFlags(fts[1..])
  }

  /** Flags only go from unset to set. */
  predicate KeptFlags(a: FieldType, b: FieldType)
    decreases a
  {
    match a
    case OptionalField(u) => b.OptionalField? && KeptFlags(u, b.inner)
    case Plain(n, params, ok) =>
      && b.Plain? && b.name == n && (ok ==> b.ok) && |b.params| == |params|
      && forall i :: 0 <= i < |params| ==> KeptFlags(params[i], b.params[i])
  }

  lemma {:induction false} KeptFlagsTrans(a: FieldType, b: FieldType, c: FieldType)
    requires KeptFlags(a, b) && KeptFlags(b, c)
    ensures KeptFlags(a, c)
  {
    match a
    case OptionalField(u) => KeptFlagsTrans(u, b.inner, c.inner);
    case Plain(n, params, ok) =>
      forall i | 0 <= i < |params| ensures KeptFlags(params[i], c.params[i]) {
        KeptFlagsTrans(params[i], b.params[i], c.params[i]);
      }
  }

  /** What a pass over a field type does to it. */
  ghost predicate FlagsPassed(ft: FieldType, ids: map<string, nat>) {
    var r := PassFieldType(ft, ids);
    && ShallowFieldType(r.node) == ShallowFieldType(ft) && KeptFlags(ft, r.node)
    && (FlagsSound(ft, ids) ==> FlagsSound(r.node, ids))
    && CountFlags(r.node) <= CountFlags(ft) && (r.changed ==> CountFlags(r.node) < CountFlags(ft))
    && (!r.changed && FlagsSound(ft, ids) ==> FlagsSettled(ft, ids))
    && (!r.changed && r.errors == [] ==> FlagsSet(ft))
  }

  lemma {:induction false} PassFlags(ft: FieldType, ids: map<string, nat>)
    ensures FlagsPassed(ft, ids)
    decreases ft, 0
  {
    match ft
    case OptionalField(u) => PassFlags(u, ids);
    case Plain(n, params, ok) =>
      PassAllFlags(params, ids);
      PlainFlags(ft, ids);
  }

  /** What a pass over a list of field types does to it. */
  ghost predicate AllFlagsPassed(fts: seq<FieldType>, ids: map<string, nat>) {
    var r := PassFieldTypes(fts, ids);
    && (forall i :: 0 <= i < |fts| ==> r.node[i] == PassFieldType(fts[i], ids).node && FlagsPassed(fts[i], ids))
    && ShallowFieldTypes(r.node) == ShallowFieldTypes(fts)
    && CountAllFlags(r.node) <= CountAllFlags(fts) && (r.changed ==> CountAllFlags(r.node) < CountAllFlags(fts))
    && (!r.changed ==> forall i :: 0 <= i < |fts| ==> !PassFieldType(fts[i], ids).changed)
    && (r.errors == [] ==> forall i :: 0 <= i < |fts| ==> PassFieldType(fts[i], ids).errors == [])
  }

  lemma PlainFlags(ft: FieldType, ids: map<string, nat>)
    requires ft.Plain? && AllFlagsPassed(ft.params, ids)
    ensures FlagsPassed(ft, ids)
  {
  }

  lemma {:induction false} PassAllFlags(fts: seq<FieldType>, ids: map<string, nat>)
    ensures AllFlagsPassed(fts, ids)
    decreases fts, 1
  {
    if fts != [] {
      PassFlags(fts[0], ids);
      PassAllFlags(fts[1..], ids);
      MoreFlags(fts, ids);
    }
  }

  lemma {:induction false} MoreFlags(fts: seq<FieldType>, ids: map<string, nat>)
    requires fts != [] && FlagsPassed(fts[0], ids) && AllFlagsPassed(fts[1..], ids)
    ensures AllFlagsPassed(fts, ids)
  {
    var r, first, rest := PassFieldTypes(fts, ids), PassFieldType(fts[0], ids), PassFieldTypes(fts[1..], ids);
    assert r.node == [first.node] + rest.node && r.changed == (first.changed || rest.changed);
    assert r.errors == first.errors + rest.errors && r.node[1..] == rest.node;
    forall i | 0 <= i < |fts|
      ensures r.node[i] == PassFieldType(fts[i], ids).node && FlagsPassed(fts[i], ids)
      ensures !r.changed ==> !PassFieldType(fts[i], ids).changed
      ensures r.errors == [] ==> PassFieldType(fts[i], ids).errors == []
    {
      if i > 0 { assert fts[i] == fts[1..][i - 1]; }
    }
  }

  lemma {:induction false} UntypedFlagsSound(ft: FieldType, ids: map<string, nat>)
    requires ft == ShallowFieldType(ft)
    ensures FlagsSound(ft, ids)
  {
    match ft
    case OptionalField(u) => UntypedFlagsSound(u, ids);
    case Plain(n, params, ok) =>
      forall i | 0 <= i < |params| ensures FlagsSound(params[i], ids) {
        assert params[i] == ShallowFieldTypes(params)[i];
        UntypedFlagsSound(params[i], ids);
      }
  }

  /** A field type whose names are all known. */
  predicate NamesKnown(ft: FieldType, ids: map<string, nat>)
    decreases ft
  {
    match ft
    case OptionalField(u) => NamesKnown(u, ids)
    case Plain(n, params, _) => Known(n, ids) && forall i :: 0 <= i < |params| ==> NamesKnown(params[i], ids)
  }

  lemma {:induction false} SettledKnownSet(a: FieldType, d: FieldType, ids: map<string, nat>)
    requires ShallowFieldType(a) == ShallowFieldType(d) && FlagsSettled(a, ids) && NamesKnown(d, ids)
    ensures FlagsSet(a)
  {
    match a
    case OptionalField(u) => SettledKnownSet(u, d.inner, ids);
    case Plain(n, params, ok) =>
      assert |params| == |ShallowFieldTypes(params)| == |d.params|;
      forall i | 0 <= i < |params| ensures FlagsSet(params[i]) {
        assert ShallowFieldType(params[i]) == ShallowFieldTypes(params)[i] == ShallowFieldType(d.params[i]);
        SettledKnownSet(params[i], d.params[i], ids);
      }
  }

  /** A settled copy of a field type all of whose flags could be set is that field type. */
  lemma {:induction false} SettledFlagsEqual(a: FieldType, b: FieldType, ids: map<string, nat>)
    requires ShallowFieldType(a) == ShallowFieldType(b)
    requires FlagsSettled(a, ids) && FlagsSet(b) && FlagsSound(b, ids)
    ensures a == b
  {
    match a
    case OptionalField(u) => SettledFlagsEqual(u, b.inner, ids);
    case Plain(n, params, ok) =>
      assert |params| == |ShallowFieldTypes(params)| == |b.params|;
      forall i | 0 <= i < |params| ensures params[i] == b.params[i] {
        assert ShallowFieldType(params[i]) == ShallowFieldTypes(params)[i] == ShallowFieldType(b.params[i]);
        SettledFlagsEqual(params[i], b.params[i], ids);
      }
  }

  /** Two settled states of a field type are equal. */
  lemma {:induction false} BothSettledEqual(a: FieldType, b: FieldType, ids: map<string, nat>)
    requires FlagsSettled(a, ids) && FlagsSettled(b, ids) && ShallowFieldType(a) == ShallowFieldType(b)
    ensures a == b
  {
    match a
    case OptionalField(u) => BothSettledEqual(u, b.inner, ids);
    case Plain(n, params, ok) =>
      assert |params| == |ShallowFieldTypes(params)| == |b.params|;
      forall i | 0 <= i < |params| ensures params[i] == b.params[i] {
        assert ShallowFieldType(params[i]) == ShallowFieldTypes(params)[i] == ShallowFieldType(b.params[i]);
        BothSettledEqual(params[i], b.params[i], ids);
      }
  }
}
