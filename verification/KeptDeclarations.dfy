/** Keeping the resolved slots of a declaration is reflexive and transitive. */
module KeptDeclarations {
  import opened Wrappers
  import opened Ast
  import opened ExprSoundness
  import opened FieldTypeLemmas
  import opened Declarations

  lemma {:induction false} KeptFlagsRefl(a: FieldType)
    ensures KeptFlags(a, a)
  {
    match a
    case OptionalField(u) => KeptFlagsRefl(u);
    case Plain(n, params, ok) =>
      forall i | 0 <= i < |params| ensures KeptFlags(params[i], params[i]) { KeptFlagsRefl(params[i]); }
  }

  lemma KeptAnnotationsRefl(a: AnnotationMap)
    ensures KeptAnnotations(a, a)
  {
    forall i | 0 <= i < |a.annotations| ensures KeptAnnotation(a.annotations[i], a.annotations[i]) {
      var x := a.annotations[i];
      forall j | 0 <= j < |x.params| ensures Kept(x.params[j], x.params[j]) { KeptRefl(x.params[j]); }
    }
  }

  lemma KeptAnnotationTrans(a: Annotation, b: Annotation, c: Annotation)
    requires KeptAnnotation(a, b) && KeptAnnotation(b, c)
    ensures KeptAnnotation(a, c)
  {
    forall j | 0 <= j < |a.params| ensures Kept(a.params[j], c.params[j]) {
      KeptTrans(a.params[j], b.params[j], c.params[j]);
    }
  }

  lemma KeptAnnotationsTrans(a: AnnotationMap, b: AnnotationMap, c: AnnotationMap)
    requires KeptAnnotations(a, b) && KeptAnnotations(b, c)
    ensures KeptAnnotations(a, c)
  {
    forall i | 0 <= i < |a.annotations| ensures KeptAnnotation(a.annotations[i], c.annotations[i]) {
      KeptAnnotationTrans(a.annotations[i], b.annotations[i], c.annotations[i]);
    }
  }

  lemma KeptFieldRefl(a: Field)
    ensures KeptField(a, a)
  {
    KeptFlagsRefl(a.typ);
    KeptAnnotationsRefl(a.annotations);
    if a.default.SelectionDefault? { KeptSelectionRefl(a.default.sel); }
  }

  lemma KeptFieldTrans(a: Field, b: Field, c: Field)
    requires KeptField(a, b) && KeptField(b, c)
    ensures KeptField(a, c)
  {
    KeptFlagsTrans(a.typ, b.typ, c.typ);
    KeptAnnotationsTrans(a.annotations, b.annotations, c.annotations);
    if a.default.SelectionDefault? { KeptSelectionTrans(a.default.sel, b.default.sel, c.default.sel); }
  }

  lemma KeptFieldsRefl(a: seq<Field>)
    ensures KeptFields(a, a)
  {
    forall i | 0 <= i < |a| ensures KeptField(a[i], a[i]) { KeptFieldRefl(a[i]); }
  }

  lemma KeptFieldsTrans(a: seq<Field>, b: seq<Field>, c: seq<Field>)
    requires KeptFields(a, b) && KeptFields(b, c)
    ensures KeptFields(a, c)
  {
    forall i | 0 <= i < |a| ensures KeptField(a[i], c[i]) { KeptFieldTrans(a[i], b[i], c[i]); }
  }

  lemma KeptModelRefl(a: Model)
    ensures KeptModel(a, a)
  {
    KeptFieldsRefl(a.fields);
    KeptAnnotationsRefl(a.annotations);
  }

  lemma KeptModelTrans(a: Model, b: Model, c: Model)
    requires KeptModel(a, b) && KeptModel(b, c)
    ensures KeptModel(a, c)
  {
    KeptFieldsTrans(a.fields, b.fields, c.fields);
    KeptAnnotationsTrans(a.annotations, b.annotations, c.annotations);
  }

  lemma KeptCallableRefl(a: Callable)
    ensures KeptCallable(a, a)
  {
    KeptFieldsRefl(a.args);
    KeptAnnotationsRefl(a.annotations);
    if a.result.Some? { KeptFlagsRefl(a.result.value); }
  }

  lemma KeptCallableTrans(a: Callable, b: Callable, c: Callable)
    requires KeptCallable(a, b) && KeptCallable(b, c)
    ensures KeptCallable(a, c)
  {
    KeptFieldsTrans(a.args, b.args, c.args);
    KeptAnnotationsTrans(a.annotations, b.annotations, c.annotations);
    if a.result.Some? { KeptFlagsTrans(a.result.value, b.result.value, c.result.value); }
  }

  lemma KeptModuleRefl(a: Module)
    ensures KeptModule(a, a)
  {
    forall i | 0 <= i < |a.types| ensures KeptModel(a.types[i], a.types[i]) { KeptModelRefl(a.types[i]); }
    forall i | 0 <= i < |a.methods| ensures KeptCallable(a.methods[i], a.methods[i]) { KeptCallableRefl(a.methods[i]); }
    forall i | 0 <= i < |a.interceptors| ensures KeptCallable(a.interceptors[i], a.interceptors[i]) {
      KeptCallableRefl(a.interceptors[i]);
    }
    KeptAnnotationsRefl(a.annotations);
  }

  lemma KeptModuleTrans(a: Module, b: Module, c: Module)
    requires KeptModule(a, b) && KeptModule(b, c)
    ensures KeptModule(a, c)
  {
    forall i | 0 <= i < |a.types| ensures KeptModel(a.types[i], c.types[i]) {
      KeptModelTrans(a.types[i], b.types[i], c.types[i]);
    }
    forall i | 0 <= i < |a.methods| ensures KeptCallable(a.methods[i], c.methods[i]) {
      KeptCallableTrans(a.methods[i], b.methods[i], c.methods[i]);
    }
    forall i | 0 <= i < |a.interceptors| ensures KeptCallable(a.interceptors[i], c.interceptors[i]) {
      KeptCallableTrans(a.interceptors[i], b.interceptors[i], c.interceptors[i]);
    }
    KeptAnnotationsTrans(a.annotations, b.annotations, c.annotations);
  }
}
