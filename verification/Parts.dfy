/**
 A declaration as a list of its parts: the expressions it contains, each with its scope, its
 field types and its fragment references.  What a pass does to a declaration is what it does
 to each part.
 */
module Parts {
  import opened Wrappers
  import opened Ast
  import opened Passes
  import opened FieldTypeLemmas

  /** An expression is `visited` unless an undeclared annotation precedes it in its map; a change is
      `heard` only if the map has no undeclared annotation at all. */
  datatype Use = Use(expr: Expr, scope: Scope, visited: bool, heard: bool)

  datatype Parts = Parts(uses: seq<Use>, types: seq<FieldType>, fragments: seq<Fragment>)

  const NO_PARTS := Parts([], [], [])

  function Join(p: Parts, q: Parts): Parts {
    Parts(p.uses + q.uses, p.types + q.types, p.fragments + q.fragments)
  }

  function Gathered<T>(xs: seq<T>, f: T -> Parts): Parts {
    if xs == [] then NO_PARTS else Join(f(xs[0]), Gathered(xs[1..], f))
  }

  function AnnotationParts(a: Annotation, sc: Scope, visited: bool, heard: bool): Parts {
    ParamParts(a.params, sc, visited, heard)
  }

  function ParamParts(es: seq<Expr>, sc: Scope, visited: bool, heard: bool): Parts {
    Parts(seq(|es|, i requires 0 <= i < |es| => Use(es[i], sc, visited, heard)), [], [])
  }

  function AnnotationListParts(as_: seq<Annotation>, sc: Scope, visited: bool, heard: bool): Parts {
    Gathered(as_, (a: Annotation) => AnnotationParts(a, sc, visited, heard))
  }

  function AnnotationsParts(m: AnnotationMap, sc: Scope): Parts {
    var k := FirstUndeclared(m.annotations);
    Join(AnnotationListParts(m.annotations[..k], sc, true, k == |m.annotations|),
         AnnotationListParts(m.annotations[k..], sc, false, false))
  }

  function DefaultParts(d: Default, sc: Scope): Parts {
    if d.SelectionDefault? then Parts([Use(Select(d.sel), sc, true, true)], [], []) else NO_PARTS
  }

  function TypeParts(ft: FieldType): Parts {
    Parts([], [ft], [])
  }

  function FieldParts(f: Field, sc: Scope): Parts {
    Join(TypeParts(f.typ), Join(AnnotationsParts(f.annotations, sc), DefaultParts(f.default, sc)))
  }

  function FieldsParts(fs: seq<Field>, sc: Scope): Parts {
    Gathered(fs, (f: Field) => FieldParts(f, sc))
  }

  function FragmentParts(fs: seq<Fragment>): Parts {
    Parts([], [], fs)
  }

  function ModelParts(m: Model): Parts {
    var sc := ModelScope(m.name);
    Join(FieldsParts(m.fields, sc), Join(FragmentParts(m.fragments), AnnotationsParts(m.annotations, sc)))
  }

  function ModelsParts(ms: seq<Model>): Parts {
    Gathered(ms, ModelParts)
  }

  function ResultParts(r: Option<FieldType>): Parts {
    match r
    case None => NO_PARTS
    case Some(ft) => TypeParts(ft)
  }

  function CallableParts(c: Callable): Parts {
    Join(FieldsParts(c.args, NO_SCOPE), Join(ResultParts(c.result), AnnotationsParts(c.annotations, NO_SCOPE)))
  }

  function CallablesParts(cs: seq<Callable>): Parts {
    Gathered(cs, CallableParts)
  }

  function FrontParts(types: seq<Model>, methods: seq<Callable>): Parts {
    Join(ModelsParts(types), CallablesParts(methods))
  }

  function BackParts(interceptors: seq<Callable>, annotations: AnnotationMap): Parts {
    Join(CallablesParts(interceptors), AnnotationsParts(annotations, NO_SCOPE))
  }

  function ModuleParts(m: Module): Parts {
    Join(FrontParts(m.types, m.methods), BackParts(m.interceptors, m.annotations))
  }

  // ----- Properties of all parts -----

  /** A property of expressions, one of field types and one of fragments, of every part. */
  ghost predicate Every(p: Parts, ofUse: Use -> bool, ofType: FieldType -> bool, ofFragment: Fragment -> bool) {
    && (forall k :: 0 <= k < |p.uses| ==> ofUse(p.uses[k]))
    && (forall k :: 0 <= k < |p.types| ==> ofType(p.types[k]))
    && (forall k :: 0 <= k < |p.fragments| ==> ofFragment(p.fragments[k]))
  }

  lemma EveryJoin(p: Parts, q: Parts, ofUse: Use -> bool, ofType: FieldType -> bool, ofFragment: Fragment -> bool)
    ensures Every(Join(p, q), ofUse, ofType, ofFragment) <==>
            Every(p, ofUse, ofType, ofFragment) && Every(q, ofUse, ofType, ofFragment)
  {
    var r := Join(p, q);
    if Every(r, ofUse, ofType, ofFragment) {
      assert forall k :: 0 <= k < |p.uses| ==> p.uses[k] == r.uses[k];
      assert forall k :: 0 <= k < |q.uses| ==> q.uses[k] == r.uses[|p.uses| + k];
      assert forall k :: 0 <= k < |p.types| ==> p.types[k] == r.types[k];
      assert forall k :: 0 <= k < |q.types| ==> q.types[k] == r.types[|p.types| + k];
      assert forall k :: 0 <= k < |p.fragments| ==> p.fragments[k] == r.fragments[k];
      assert forall k :: 0 <= k < |q.fragments| ==> q.fragments[k] == r.fragments[|p.fragments| + k];
    }
  }

  lemma {:induction false} EveryGathered<T>(xs: seq<T>, f: T -> Parts,
                                            ofUse: Use -> bool, ofType: FieldType -> bool, ofFragment: Fragment -> bool)
    ensures Every(Gathered(xs, f), ofUse, ofType, ofFragment) <==>
            forall i :: 0 <= i < |xs| ==> Every(f(xs[i]), ofUse, ofType, ofFragment)
  {
    if xs != [] {
      EveryJoin(f(xs[0]), Gathered(xs[1..], f), ofUse, ofType, ofFragment);
      EveryGathered(xs[1..], f, ofUse, ofType, ofFragment);
      assert forall i :: 0 < i < |xs| ==> xs[i] == xs[1..][i - 1];
    }
  }

  lemma EveryType(ft: FieldType, ofUse: Use -> bool, ofType: FieldType -> bool, ofFragment: Fragment -> bool)
    ensures Every(TypeParts(ft), ofUse, ofType, ofFragment) <==> ofType(ft)
  {
    var p := TypeParts(ft);
    assert p.types[0] == ft;
  }

  // ----- Two lists of parts, part by part -----

  ghost predicate Alike(p: Parts, q: Parts, ofUse: (Use, Use) -> bool, ofType: (FieldType, FieldType) -> bool,
                        ofFragment: (Fragment, Fragment) -> bool)
  {
    && |q.uses| == |p.uses| && (forall k :: 0 <= k < |p.uses| ==> ofUse(p.uses[k], q.uses[k]))
    && |q.types| == |p.types| && (forall k :: 0 <= k < |p.types| ==> ofType(p.types[k], q.types[k]))
    && |q.fragments| == |p.fragments| &&
       (forall k :: 0 <= k < |p.fragments| ==> ofFragment(p.fragments[k], q.fragments[k]))
  }

  lemma AlikeJoin(p: Parts, q: Parts, p': Parts, q': Parts, ofUse: (Use, Use) -> bool,
                  ofType: (FieldType, FieldType) -> bool, ofFragment: (Fragment, Fragment) -> bool)
    requires Alike(p, q, ofUse, ofType, ofFragment) && Alike(p', q', ofUse, ofType, ofFragment)
    ensures Alike(Join(p, p'), Join(q, q'), ofUse, ofType, ofFragment)
  {
  }

  lemma {:induction false} AlikeGathered<T>(xs: seq<T>, ys: seq<T>, f: T -> Parts, ofUse: (Use, Use) -> bool,
                                            ofType: (FieldType, FieldType) -> bool,
                                            ofFragment: (Fragment, Fragment) -> bool)
    requires |xs| == |ys| && forall i :: 0 <= i < |xs| ==> Alike(f(xs[i]), f(ys[i]), ofUse, ofType, ofFragment)
    ensures Alike(Gathered(xs, f), Gathered(ys, f), ofUse, ofType, ofFragment)
  {
    if xs != [] {
      assert forall i :: 0 <= i < |xs[1..]| ==> xs[1..][i] == xs[i + 1] && ys[1..][i] == ys[i + 1];
      AlikeGathered(xs[1..], ys[1..], f, ofUse, ofType, ofFragment);
      AlikeJoin(f(xs[0]), f(ys[0]), Gathered(xs[1..], f), Gathered(ys[1..], f), ofUse, ofType, ofFragment);
    }
  }

  lemma AlikeType(ft: FieldType, ft': FieldType, ofUse: (Use, Use) -> bool,
                  ofType: (FieldType, FieldType) -> bool, ofFragment: (Fragment, Fragment) -> bool)
    requires ofType(ft, ft')
    ensures Alike(TypeParts(ft), TypeParts(ft'), ofUse, ofType, ofFragment)
  {
  }
}
