# Exograph: a verified model

Exograph turns models written in `.exo` files into a backend. This project models six parts of
it and proves what the rest of the system relies on.

* **Typechecking** (`Ast`, `Passes`, `OneShot`, `EnvironmentLemmas`, `Expr*`, `FieldTypeLemmas`,
  `Declaration*`, `KeptDeclarations`, `Typechecker`, `TypecheckerTheorems`, `Parts`, `Part*`,
  `Quiet*`, `Ideal*`, `FinalForms`, `Acceptance`, `LostSlots`, `Rounds`, `Outcomes`, `Programs`,
  `OrderRuns`, `OrderExample`, `SilentExample`, `RuleOutcomes`, `Build`). `build`
  repeats passes over two copies of every declared type, an entry of the type arena and a part of
  a module, until nothing changes. `Passes` holds the passes, `OneShot` an independent recursive
  typing over the declared environment, and `Build` the loops over the mutable arenas. The two
  meet in the invariant `Sound`: every resolved slot holds its one-shot type. `Parts` lists the
  expressions, field types and fragments of a declaration, over which final states of rejected
  programs are compared as well.
* **The rules of the language** (`TypingRules`, `NameRules`, `ProgramRules`, `FaultRules`, `CalmRules`,
  `ReportRules`, `VerdictRules`). What names stand for, which expressions have which type, which programs
  are accepted, what is wrong enough to panic, and which diagnostics there are, stated as relations over
  the declarations that share no function with the passes, and proved to be what `build` decides.
* **Panics of the typechecker** (`Faults`, `FaultFree`, `Deferrals`, `Panics`, `CertainPanics`,
  `PanicRuns`, `DeferredRuns`, `PanicOutcomes`, `PanicExamples`). `Panics` says when a pass over an
  expression panics, from the state it finds; `Faults` what is wrong with a declared expression, from
  its one-shot types, in two degrees: a possible fault, without which no pass panics in any state,
  and a certain one, over which every pass in a settled environment does.
* **Imports** (`Imports`). The recursive loader with its shared list of parsed files, against a
  depth-first walk with an explicit stack, and the order of loading read off the files.
* **The Deno pool** (`DenoProtocol`, `DenoInvariant`, `DenoAnswers`, `DenoTheorems`,
  `DenoProgress`, `DenoPool`, `DenoExamples`). Callers, actors, channels,
  the callback lock and the busy flag, as steps of a transition system.
* **JSON-RPC** (`Values`, `ValueMeaning`, `RpcSchema`, `RpcParsing`, `RpcParams`, `RpcDocument`,
  `RpcDocumentTheorems`, `RpcAdmitted`, `RpcPublished`, `RpcBatch`, `RpcBatchTheorems`, `RpcMeaning`,
  `RpcDocumentMeaning`, `RpcRequests`). Parameter parsing
  against recursive component types, the published document and how it relates to what parsing
  enforces, and batches over one transaction. `RpcMeaning`, `RpcDocumentMeaning` and `RpcRequests` say the
  same over the JSON and the declared types alone.
* **Request contexts** (`RequestContexts`, `ContextCaches`, `ContextObjects`, `ContextMeaning`). Stacked overrides
  and internal requests over a user's request, each layer with its own cache.
* **Interceptors** (`Weaver`, `WeaverMeaning`). From a flat list to a tree, and the trace of running it.

`Wrappers` holds `Option` and `Result`, `Sums` sums over sequences. Rows of the table below that begin
with "Observation" follow from the definitions at once; they are there for what they say of the source.

## Conditions

The typechecker results assume what the grammar guarantees (`ParsedSystem`): selections start with
an identifier, and the parameters of `contains` are literals. Completeness and acceptance further
assume that calls have at most one parameter (`SingleSystem`; see `LongContainsIsSilent`) and two
things the source takes for granted but nobody checks (`KnownSystem`): the fields of contexts, which
live outside modules and whose diagnostics are dropped, name known types (see
`UnknownContextField`), and `Set` and `Array` carry a parameter. `CleanCompleteExactly` and the
results on final states (`FinalForms`) need none of these conditions.

`build` panics in three ways, and a panic is an outcome of `Build` here. A selection finds a field of a
`Set` or `Array` without a parameter: the grammar lets them stand without
(`crates/builder/grammar/grammar.js:166-169`), and the pass over field types accepts that. A
diagnostic prints a type for which `Display` returns an error, which `format!` turns into a panic
(`crates/core-subsystem/core-model-builder/src/typechecker/typ.rs:36-63`): an injected type, such as
that of a field `op: Operation`, or a deferred one, such as that of `self.contains("x")`
(`crates/builder/src/typechecker/selection.rs:460-478` sets a shadow of the slot). Or a diagnostic
takes the span of a bare identifier, which has none
(`crates/core-subsystem/core-model-builder/src/ast/ast_types.rs:710-717`): a resolved one that stands as
operand of `!`, `&&` or `||` without being a boolean, in a comparison of types that do not match, or as
the prefix of a selection without being a composite. `FaultyProgram`
reads this off the declared program and its one-shot types, `CertainProgram` its stronger form. The
two coincide in a regular program (`RegularProgram`), where the panic condition of `Build` is exact.
The functions that model passes describe their results also where the source would have panicked.

Import paths are canonical: one path per file. The actor protocol assumes sequentially consistent flags and callers that stay alive;
"synchronous" means that a function emits a callback or returns only after the previous callback was
answered; it suffices for most that it returns only then. A callback that is dropped is answered with
an error. A resolver is one function of the store, sources of context values are deterministic,
and the wildcard matcher of the weaver is a parameter.

## Where the code and its own words differ

* A plain field selected on a set returns false at once, whatever its prefix reported
  (`crates/builder/src/typechecker/selection.rs:326-342`), and an annotation map returns false at its
  first undeclared annotation, whatever it resolved before
  (`crates/builder/src/typechecker/annotation_map.rs:143-150`). So the clone of a model or a module
  that is dropped after a pass that returned false can hold resolved slots; `FalseModelPassLoses` and
  `FalseModulePassLoses` say exactly when.
* For the same reason the final types depend on the order in which declarations are visited
  (`OrderMatters`), though not which expressions are resolved (`FinalsResolveAlike`). They do not
  where annotations are declared and no plain field is selected on a set (`RunsEndAlike`), nor, set or
  not, where there is only one model (`OneModelOneEnd`).
* Some programs are accepted although not everything in them is resolved (`LongContainsIsSilent`,
  `UnknownContextField`, exactly when by `CleanCompleteExactly`), and some make `build` panic
  (`BareExample`, `DeferredExample`, `InjectedExample`, `SpanExample`). A well-typed program can be among them, by a
  context outside modules, whose diagnostics are printed but dropped (`TypedFaultFree`).
* An actor marks itself busy only after taking a call, so two callers can choose it, and the one
  that gets the callback lock first receives the other's callback
  (`CallbackCanReachAnotherCaller`): its own exactly while the actor runs its call (`WhoseCallback`).
  If its own result comes before its executor has taken that callback up, the callback is lost and the
  other call sees an error (`CallbackCanBeLost`, `LostIsAnothers`).
* The comment in `parse_value` says that requiredness of fields is enforced by the schema; it is
  published but not enforced (`OmittedField`, `FieldRequirementUnenforced`). `ValidAdmitted` says
  which values the document admits, `ValidConforms` which of them are parsed, `AcceptedValid` which parsed
  ones it admits.
* `Vector`, `Json` and unknown scalars are published as arrays or as anything, yet parsed only
  from strings and numbers (`ScalarPublished`).
* The answers of a batch are fixed before the final `COMMIT` is known to have succeeded: if it is
  refused, nothing is committed but the results are sent. Notifications are dropped rather than run.
* The comment on `ordered` gives earlier arounds the higher priority and interleaves befores and
  afters with them; the code makes later arounds the outer ones and keeps befores and afters
  outside the nest (`NestTrace`, `OrderedTrace`).

## Model

| member | source | states |
|---|---|---|
| Build.MappedArena.Add | crates/core-subsystem/core-model/src/mapped_arena.rs:75-84 | The first entry under a key wins; a new one gets the next index and leaves the others alone. |
| Build.MappedArena.SetByKey | crates/core-subsystem/core-model/src/mapped_arena.rs:63-73 | Assignment through `get_by_key_mut` replaces exactly the entry the key names. |
| Build.ValidateNoDuplicates | crates/builder/src/typechecker/mod.rs:419-464 | One diagnostic for every name that occurred before, in order; hence nothing exactly when the names are distinct, and a repeated name is always named. |
| Build.ValidateModule | crates/builder/src/typechecker/mod.rs:359-417 | The repeated names of methods, types, enums, of the fields of each type and of the variants of each enum, in this order. |
| Build.ValidExactly | crates/builder/src/typechecker/mod.rs:359-417 | What is valid, over the declarations: names differ among modules, and in each module among methods, types, enums, the fields of each type and the variants of each enum. |
| Build.RefusalExactly | crates/builder/src/typechecker/mod.rs:239-270 | Something is reported before the first iteration exactly for a program that is not valid. |
| Build.Populate | crates/builder/src/typechecker/mod.rs:239-270 | Fills both arenas in the source's order (predefined types, each module's enums, then all declared types); fails exactly when some module repeats names, with what the first such module repeats. |
| Build.Iterate | crates/builder/src/typechecker/mod.rs:272-343 | One iteration is exactly one pass over each declared type's entry and then over each module, in order; it reports a change exactly when some pass does, and if none does returns the diagnostics of a state that no pass changes. It panics exactly when one of these passes does, or when a declared type bears the name of an injected one and is printed. |
| Build.Fixpoint | crates/builder/src/typechecker/mod.rs:272-356 | The loop ends after at most (initially unresolved slots + 1) iterations, with the state that this many iterations make of the initial one; no pass changes it or panics over it, and its diagnostics alone decide. Or an iteration panics. |
| Build.Build | crates/builder/src/typechecker/mod.rs:235-357 | Repeated names are refused, with their diagnostics; otherwise the outcome is that of the state after the last iteration, or a panic. Every program with a certain fault panics; a panic needs a fault of the declared program; in a regular program it is equivalent to one. Under the conditions below it is `Ok` exactly for valid programs that follow the typing rules (`TypingRules`, `ProgramRules`) and do not panic, and then every module is resolved throughout and the type arena holds the modules' own copies. A panic needs something wrong by the rules (`CalmRules`). Where the modules' annotations are declared and they have no possible fault and no plain field of a set, the diagnostics are exactly those that the declarations draw by the rules (`VerdictRules`). |
| Build.VisitType | crates/builder/src/typechecker/mod.rs:303-327 | The new state and the reported change are those of a pass over the arena's entry, kept only if it reported a change; the pass's own diagnostics are dropped. It panics exactly when the pass does, or when the entry is an injected type, which the diagnostic about it prints. |
| Build.VisitModule | crates/builder/src/typechecker/mod.rs:329-343 | The new state, the reported change and the diagnostics are those of a pass over the module, whose clone is kept only if it reported a change; it panics exactly when the pass does. |
| Build.AnnotationLoop | crates/builder/src/typechecker/annotation_map.rs:76-155 | The loop over the annotations, with its early return at an undeclared one, computes the pass that the other results are about. |
| Passes.MatchesAreSymmetric | crates/builder/src/typechecker/relational_op.rs:125-163 | Operands match, on either side, exactly when they are equal or `Int` against `Float`, one optional layer of each aside; for `==` and `!=` null also meets null and any optional. |
| Passes.FirstNamedIsFirst | crates/builder/src/typechecker/selection.rs:434-540 | Field lookup finds the first field of that name, own fields before those of fragments. |
| EnvironmentLemmas.FinishFieldAgrees | crates/builder/src/typechecker/selection.rs:434-540 | Against any partly resolved environment, a field selection resolves to the declared type of the field or not at all, and reports a change exactly when it resolves. |
| EnvironmentLemmas.ToTypeAgrees | crates/core-subsystem/core-model-builder/src/typechecker/field_type.rs:24-41 | A field type that has become complete is the type its names declare. |
| EnvironmentLemmas.DerefHasName | crates/core-subsystem/core-model-builder/src/typechecker/typ.rs:95-120 | Dereferencing a named type keeps a name to bind the parameter of a higher-order call to. |
| ExprSoundness.PassSound | crates/builder/src/typechecker/expression.rs:34-51 | A pass against any partly resolved environment keeps the shape and every resolved slot of an expression, and leaves in each resolved slot the type of the one-shot typing over the declared environment. |
| ExprSoundness.PassLogicalSound | crates/builder/src/typechecker/logical_op.rs:41-147 | The same for `&&` and `||`, with the right operand skipped after a change on the left. |
| ExprSoundness.PassRelationalSound | crates/builder/src/typechecker/relational_op.rs:40-123 | The same for comparisons and `in`. |
| ExprSoundness.PassSelectionSound | crates/builder/src/typechecker/selection.rs:264-431 | The same for selections, on optional, composite, set and array prefixes. |
| ExprSoundness.PassElementSound | crates/builder/src/typechecker/selection.rs:71-247 | The same for identifiers, higher-order calls and `contains`. |
| TypingRules.IdentifierIs | crates/builder/src/typechecker/selection.rs:71-152 | What an identifier is: in scope, a reference to the scope's type; otherwise `self` is refused; otherwise a context of that name is a reference to it; otherwise it is enum `i` exactly when `i` is the least index of an enum with that variant, and unresolved exactly when there is none. |
| TypingRules.IdentifierMeans | crates/builder/src/typechecker/selection.rs:71-152 | The same as a relation between a name and a value type, which the typing rules build on. |
| TypingRules.DeclaredMeans | crates/core-subsystem/core-model-builder/src/typechecker/field_type.rs:24-41 | A declared field type is typed exactly with what its names denote in the arena, under optionals, sets and arrays. |
| TypingRules.FieldMeans | crates/builder/src/typechecker/selection.rs:434-540 | A field of a model is its first own field of that name, or else that of its first fragment with one. |
| TypingRules.TypedExactly | crates/builder/src/typechecker/expression.rs:34-51 | The typing rules, a relation over the arena that shares no function with the passes, give an expression a type exactly when the one-shot typing does, and the same one. With `PassSound` they are what the passes compute. |
| TypingRules.LiteralCompared | crates/core-subsystem/core-model-builder/src/typechecker/expression.rs:16-33 | A value of a primitive type can be compared with a literal exactly when the literal fits: a boolean with `Boolean`, a string with `String`, numbers with `Int` and `Float`. |
| NameRules.NameFound | crates/builder/src/typechecker/mod.rs:239-270 | Under a name the arena holds the first declaration of it: built-in names come before the enums of modules, these before types outside modules, and these before the types of modules. |
| NameRules.NameHasSite | crates/builder/src/typechecker/mod.rs:239-270 | And every name in the arena has such a first declaration. |
| NameRules.NamesInOrder | crates/builder/src/typechecker/mod.rs:71-83 | Names are numbered in the order of these first declarations; it decides which enum a variant belongs to. |
| NameRules.OwnFieldCompared | crates/core-subsystem/core-model-builder/src/typechecker/expression.rs:16-33 | In every declared model: a field declared with a primitive type, compared with a literal, is typable exactly when the literal fits. |
| ExprSoundness.ElementMadeReady | crates/builder/src/typechecker/selection.rs:156-177 | A higher-order call is passed only under an element type with a name, so binding its parameter never panics. |
| ExprSoundness.CompleteIdle | crates/builder/src/typechecker/selection.rs:301-431 | A pass over a resolved expression changes nothing, reports no change and no error. |
| ExprProgress.PassProgress | crates/builder/src/typechecker/logical_op.rs:41-147 | A pass never raises the count of unresolved slots, lowers it if it reports a change, and if it reports none lowers it exactly when it ran into a plain field on a set. |
| ExprProgress.FalsePassLoses | crates/builder/src/typechecker/selection.rs:326-342 | Of a single expression: dropping it after a pass that returned false loses a resolved slot exactly when the pass met a plain field on a set whose prefix it had just resolved. |
| ExprProgress.SetFieldExample | crates/builder/src/typechecker/selection.rs:326-342 | A concrete input where the early `return false` drops two freshly resolved slots. |
| LostSlots.FalseModelPassLoses | crates/builder/src/typechecker/mod.rs:309-318 | Dropping the clone of a model after a pass that returned false loses a resolved slot exactly when the pass met, in some expression, a plain field on a set that it had just resolved, or changed an expression in a map whose annotations are not all declared. |
| LostSlots.FalseModulePassLoses | crates/builder/src/typechecker/mod.rs:329-341 | The same for modules. |
| LostSlots.UndeclaredExample | crates/builder/src/typechecker/annotation_map.rs:143-150 | A concrete model, with no set in it, where the early return at an undeclared annotation drops a freshly resolved slot. |
| ExprCompletion.RootComplete | crates/builder/src/typechecker/selection.rs:301-431 | An expression whose root is resolved is resolved in every node. |
| ExprCompletion.CompleteUnique | crates/builder/src/typechecker/mod.rs:303-343 | Two sound, resolved copies of one expression are equal. |
| ExprCompletion.QuietComplete | crates/builder/src/typechecker/selection.rs:395-422 | An expression that a pass neither changes nor complains about is resolved, if calls have at most one parameter and the fields it selects have known types. |
| ExprCompletion.QuietCompleteExactly | crates/builder/src/typechecker/selection.rs:178-243 | And only then. |
| ExprCompletion.SettledComplete | crates/builder/src/typechecker/selection.rs:264-431 | Once the environment is settled, an expression that has a one-shot type is resolved when a pass reports no change. |
| QuietForms.QuietExact | crates/builder/src/typechecker/selection.rs:264-431 | Once the environment is settled, an expression that a pass leaves alone is resolved exactly when it has a one-shot type, whatever was complained about. |
| IdealForms.OneFinalForm | crates/builder/src/typechecker/selection.rs:326-342 | Up to the marker of unresolved slots, an expression has a single form that a pass leaves alone exactly when it selects no plain field on a set. |
| ExprCompletion.LongContainsIsSilent | crates/builder/src/typechecker/selection.rs:178-243 | A `contains` with two or more parameters stays unresolved without a diagnostic, for ever. |
| ExprCompletion.UnknownFieldIsSilent | crates/builder/src/typechecker/selection.rs:512-523 | A field of an unknown type, selected from a composite, stays unresolved without a diagnostic. |
| SilentExample.UnknownContextField | crates/builder/src/typechecker/mod.rs:295-327 | A concrete program, a context with a field of an unknown type and a module that selects it, every final state of which draws no diagnostic and leaves the module unresolved. |
| SilentExample.NeverPanics | crates/builder/src/typechecker/mod.rs:235-357 | And nothing panics over it, so that `build` ends in such a state. |
| FieldTypeLemmas.PassFlags | crates/builder/src/typechecker/field_type.rs:34-80 | A pass over a field type only sets flags of known names, lowers the number of unset flags if it reports a change, and settles every flag if it does not. |
| DeclarationSteps.StepAnnotations | crates/builder/src/typechecker/annotation_map.rs:76-155 | A pass over an annotation map keeps resolved slots, stays sound and, if it reports a change, resolves something; also with its early return. |
| DeclarationSteps.StepField | crates/builder/src/typechecker/field.rs:40-117 | The same for a field with type, annotations and default. |
| DeclarationSteps.StepModel | crates/builder/src/typechecker/model.rs:46-97 | The same for a model with its fields, fragments and annotations. |
| DeclarationSteps.StepCallable | crates/builder/src/typechecker/module.rs:142-226 | The same for methods and interceptors. |
| DeclarationSteps.StepModule | crates/builder/src/typechecker/module.rs:47-123 | The same for a whole module. |
| PartPasses.DigestModule | crates/builder/src/typechecker/module.rs:47-123 | A pass over a module passes each of its expressions, field types and fragments; it reports a change exactly when a heard one does, and a diagnostic exactly when one of them or one of the module's own rules draws one. |
| DeclarationCompletion.QuietModule | crates/builder/src/typechecker/module.rs:47-123 | A module that a pass neither changes nor complains about has no unresolved field type or expression. |
| DeclarationCompletion.CopyModel | crates/builder/src/typechecker/mod.rs:303-327 | The arena's copy of a model, once no pass changes it, equals the resolved copy in the module. |
| Typechecker.RunSafe | crates/builder/src/typechecker/mod.rs:272-343 | Over any sequence of passes in any order: a resolved slot of either copy never changes, all resolved slots hold one-shot types, and the passes that report a change number at most the slots they resolve. |
| Typechecker.LaterRounds | crates/builder/src/typechecker/mod.rs:272-343 | From any iteration of `build` to any later one, no resolved slot changes. |
| TypecheckerTheorems.ReachableInv | crates/builder/src/typechecker/mod.rs:235-357 | From the parsed program, every order of passes keeps soundness, with at most (initially unresolved slots) changes. |
| TypecheckerTheorems.FinalSettled | crates/builder/src/typechecker/mod.rs:345-356 | In a final state every field flag says whether its name is known. |
| TypecheckerTheorems.FinalReady | crates/builder/src/typechecker/mod.rs:329-354 | In a final state whose modules draw no diagnostic every field type in the arena is complete, under the conditions below. |
| TypecheckerTheorems.CleanComplete | crates/builder/src/typechecker/mod.rs:329-354 | No silent incompleteness, under the conditions below: with no diagnostic, every field type and expression of every module is resolved, with its one-shot type. |
| Acceptance.CleanCompleteExactly | crates/builder/src/typechecker/mod.rs:329-354 | Without conditions: a module that draws no diagnostic in a final state is resolved throughout exactly when its calls have at most one parameter and the fields it selects have known types. |
| Acceptance.AcceptedExactly | crates/builder/src/typechecker/mod.rs:345-356 | The final state draws no diagnostic exactly when the program is well typed: names known, annotations declared and used properly, defaults and module annotations by their rules, every expression typable in one shot. |
| ProgramRules.ModuleExactly | crates/builder/src/typechecker/module.rs:47-123 | A module is well typed in one shot exactly when it follows the rules of its declarations: every annotation declared, used properly and not repeated, every expression typed, every type name known, defaults, results and the module's single annotation in order. |
| ProgramRules.WellTypedExactly | crates/builder/src/typechecker/mod.rs:272-356 | And a program exactly when types outside modules are contexts, every declared name is that of a model, and all modules follow their rules. |
| ReportRules.Reported | crates/builder/src/typechecker/logical_op.rs:41-147 | The diagnostics of an expression that a pass leaves alone are, in order, exactly those that the typing rules give it: none if it has a type, otherwise those of its parts and its own if its operands have types. Without possible faults and plain fields of sets. |
| VerdictRules.VerdictExactly | crates/builder/src/typechecker/mod.rs:272-356 | Under these conditions every final state of a program, whatever the order of the passes, draws exactly the diagnostics that its declarations draw by the rules, in order. |
| TypecheckerTheorems.CopiesAgree | crates/builder/src/typechecker/mod.rs:303-343 | With no diagnostic, the arena's copy of a declaration equals the module's. |
| TypecheckerTheorems.OrderIrrelevant | crates/builder/src/typechecker/mod.rs:303-343 | If one order of visiting ends in acceptance, every order that ends does, with the same modules. |
| Acceptance.AcceptedTypes | crates/builder/src/typechecker/mod.rs:303-343 | And with the same entries for the modules' types in the type arena. |
| FinalForms.FinalExact | crates/builder/src/typechecker/mod.rs:272-343 | In every final state of every program, accepted or not, an expression under declared annotations is resolved exactly when it has a one-shot type, every flag says whether its name is known, and every fragment whether it is a model. |
| FinalForms.FinalsResolveAlike | crates/builder/src/typechecker/mod.rs:303-343 | Any two final states of any program resolve the same expressions under declared annotations, to the same types, and agree on all field types and fragments. |
| FinalForms.FinalsSameExactly | crates/builder/src/typechecker/selection.rs:326-342 | All final states of a program with declared annotations agree, up to the marker of unresolved slots, exactly when no expression selects a plain field on a set, by the one-shot types. A final state is any sound one that no pass changes: the sufficient half bears on orders of visiting (`RunsEndAlike`), the other gives two final states that no order need reach (`OneContextOneEnd`). |
| OrderRuns.RunsEndAlike | crates/builder/src/typechecker/mod.rs:303-343 | In whatever order a program's declarations are visited, all runs that end do so in the same state, up to the marker of unresolved slots, if annotations are declared and no plain field is selected on a set. |
| OrderRuns.OneModelOneEnd | crates/builder/src/typechecker/mod.rs:303-327 | And so they do, set or not, if there is a single model and no module. |
| OrderRuns.OneContextOneEnd | crates/builder/src/typechecker/selection.rs:326-342 | A concrete program that selects a plain field on a set and yet ends in one state only. |
| OrderExample.OrderMatters | crates/builder/src/typechecker/mod.rs:303-327 | A concrete program of two contexts that ends in two different states, one for each order of visiting them. |
| Panics.BareTypeIsAccepted | crates/builder/src/typechecker/field_type.rs:43-54 | Observation: the flag of a `Set` or `Array` without a parameter is set without a diagnostic, and converting it then panics. |
| Panics.PanicFaulty | crates/builder/src/typechecker/selection.rs:395-417 | Against any partly resolved environment, a pass panics only over an expression with a fault by the one-shot types: it selects a field of a bare type, or a diagnostic about it prints an injected or a deferred type, or takes the span of a bare identifier. |
| CertainPanics.FaultyPanics | crates/builder/src/typechecker/relational_op.rs:66-97 | In a settled environment a pass panics over every expression with a certain fault, if calls have left their slots deferred as they do and nothing changes, or the fault is not under a plain field on a set. |
| Faults.FaultyUntyped | crates/builder/src/typechecker/logical_op.rs:101-132 | What has a fault has no one-shot type. |
| Faults.PossibleCertain | crates/builder/src/typechecker/selection.rs:326-342 | Every fault is certain where no plain field is selected on a set and calls on composites are on single identifiers, or are first passed in a settled environment. |
| FaultRules.WrongExactly | crates/builder/src/typechecker/selection.rs:395-417 | An expression has a possible fault exactly when something in it is wrong by the typing rules: an ill-placed operand, comparison, parameter or prefix whose type cannot be printed or that has no span, a field that lacks the parameter of its `Set` or `Array`, or a selection from a slot left open. |
| CalmRules.FaultyExactly | crates/builder/src/typechecker/mod.rs:235-357 | And a program exactly when a declared type or a module has such an expression, or a declared name leads to an injected type. |
| FaultFree.FaultFreeExpr | crates/core-subsystem/core-model-builder/src/ast/ast_types.rs:476-489 | Where no field is bare or of an injected type, nothing is selected from a call and bare identifiers are in place (no operands of `!`, `&&` and `||`, compared with what they match, selected from as composites), no expression has a fault. |
| Deferrals.SelectionDirectlyResolved | crates/builder/src/typechecker/selection.rs:264-431 | In a settled environment, a single pass resolves every typable selection that is not a boolean one. |
| Deferrals.PassDefers | crates/builder/src/typechecker/selection.rs:460-478 | A call on a composite sets the type of the call in place of the slot of the selection, which stays deferred; passes keep it so. |
| Rounds.SettledForModules | crates/builder/src/typechecker/mod.rs:303-343 | Already in the first iteration, the flags of all declared types are settled when the modules are passed. |
| DeferredRuns.RoundsDefer | crates/builder/src/typechecker/mod.rs:272-343 | After any number of iterations, calls that are certain to leave their slots deferred have done so, in either copy. |
| PanicRuns.PanicNeedsFault | crates/builder/src/typechecker/mod.rs:272-343 | Passes over the declarations, in any order, panic only if the program has a fault. |
| PanicOutcomes.FinalPanics | crates/builder/src/typechecker/mod.rs:272-343 | Over a program with a certain fault, a pass panics in every state that the iterations could end in. |
| PanicOutcomes.RegularFaults | crates/builder/src/typechecker/mod.rs:235-357 | If every expression with a fault is under declared annotations, selects no plain field on a set and, in a context outside modules, makes no call on the value of a field, every fault is certain. |
| PanicOutcomes.TypedFaultFree | crates/builder/src/typechecker/mod.rs:295-327 | A well-typed program has no fault but in contexts outside modules, whose diagnostics nobody sees. |
| PanicOutcomes.PlainIsFaultFree | crates/core-subsystem/core-model-builder/src/typechecker/field_type.rs:24-41 | Where declared types are models, none of their fields is bare or of an injected type, nothing is selected from a call and bare identifiers are in place, nothing panics. |
| PanicExamples.BareExample | crates/core-subsystem/core-model-builder/src/typechecker/field_type.rs:24-41 | `self.items` of a bare `Set`: a program that panics. |
| PanicExamples.DeferredExample | crates/builder/src/typechecker/selection.rs:404-417 | `self.contains("x").y`: the diagnostic about the selection prints the deferred type of the call. |
| PanicExamples.InjectedExample | crates/builder/src/typechecker/relational_op.rs:69-90 | `self.op == "x"` of a field `op: Operation`: the diagnostic prints the injected type, over a program that meets every other condition of acceptance. |
| PanicExamples.SpanExample | crates/core-subsystem/core-model-builder/src/ast/ast_types.rs:710-717 | `self == "x"`: the diagnostic takes the span of `self`, which has none; this program, too, meets every other condition of acceptance. |
| Imports.LoadFile | crates/builder/src/parser/mod.rs:60-92 | Loading a file is what the stack walk does with that file on top, whatever is left to do; the merged contents are those of the files added, in preorder. |
| Imports.WalkFromRoot | crates/builder/src/parser/mod.rs:60-92 | The walk visits exactly the files reachable from the root, each once, and fails exactly when one of them cannot be read or parsed. |
| Imports.ParseFile | crates/builder/src/parser/mod.rs:42-92 | Terminates on every finite import graph, cyclic or not; succeeds exactly when all reachable files are good, and then merges exactly their own types and modules, in this order: next is always the first import not yet loaded of the latest loaded file that has one. Otherwise it stops at the first file in this order that fails, with the error of that failure: a missing file, one that cannot be read, or one that cannot be parsed. |
| Imports.NextUnique | crates/builder/src/parser/mod.rs:60-92 | That rule determines the order. |
| DenoInvariant.StepInv | libs/exo-deno/src/deno_actor.rs:93-258 | Every atomic step of every actor and caller keeps the protocol invariant. |
| DenoAnswers.StepConserves | libs/exo-deno/src/deno_actor.rs:236-255 | Callbacks are conserved: every step keeps the number of a call's callbacks on their way, but for the one it emits and those it answers or drops with a returning caller's channel. |
| DenoAnswers.UnansweredAreOnTheirWay | crates/deno-subsystem/deno-core-resolver/src/exograph_ops.rs:37-65 | In every run, a running function waits for exactly those of its callbacks that are in its actor's channel or with some caller. |
| DenoTheorems.AnyInterleaving | libs/exo-deno/src/deno_actor.rs:151-256 | In every interleaving: one call at a time, answered in queueing order; a running actor is marked busy; every emitted callback is received once, in order, or still queued; a caller returns its own call's result. |
| DenoTheorems.PickedActorIsNotRunning | libs/exo-deno/src/deno_executor_pool.rs:164-189 | The actor picked under the pool lock is not running a function when it is checked (which one is picked: `FirstFreeActor`). |
| DenoPool.FirstFreeActor | libs/exo-deno/src/deno_executor_pool.rs:168-181 | In every run, a caller that got actor `i` saw every actor below `i` busy at its own check of it, and saw actor `i` free, or added it. |
| DenoPool.OldActorWasFree | libs/exo-deno/src/deno_executor_pool.rs:168-181 | If that actor was there before the caller had got one, it was seen free: a free actor is reused. |
| DenoPool.PoolGrows | libs/exo-deno/src/deno_executor_pool.rs:182-187 | The number of actors grows only by a caller that has seen every one of them busy, each at its check. |
| DenoPool.OneAtATime | libs/exo-deno/src/deno_executor_pool.rs:164-189 | One caller at a time scans the pool, and no channel ever holds more than one message. |
| DenoPool.ResultsAreReturned | libs/exo-deno/src/deno_actor.rs:210-256 | Every result in a reply channel is the value with which some actor finished that very call. |
| DenoPool.ReturnsItsResult | libs/exo-deno/src/deno_executor.rs:43-80 | And so is what a caller returns. |
| DenoTheorems.NoDeadlock | libs/exo-deno/src/deno_executor_pool.rs:125-189 | In every run, whatever functions have done: while some caller has not returned, a step is possible that neither emits a callback nor lets a function return before its callbacks are answered. |
| DenoProgress.RunsAreBounded | libs/exo-deno/src/deno_actor.rs:151-256 | No livelock: a run of n calls that emit m callbacks has at most n(n + 9) + 6m steps. |
| DenoProgress.EveryCallCanReturn | libs/exo-deno/src/deno_actor.rs:210-256 | From every state of every run all calls can still return, without another callback and without a function that returns before its callbacks are answered. |
| DenoTheorems.WhoseCallback | libs/exo-deno/src/deno_actor.rs:236-248 | With functions that return only once answered, a received callback is that of the call its actor is running, so the receiver gets its own exactly when the actor is running its call. |
| DenoTheorems.LostIsAnothers | libs/exo-deno/src/deno_executor.rs:53-78 | With such functions, a caller that returns with a callback left in its channel drops another call's, never its own; that call still runs, and gets an error for an answer. |
| DenoTheorems.OwnCallbacksInOrder | libs/exo-deno/src/deno_executor.rs:43-80 | With synchronous callbacks and one outstanding caller per actor, a returned call had exactly its own callbacks processed by its own processor, in emission order, and lost none. |
| DenoTheorems.NothingPendingAtResult | libs/exo-deno/src/deno_actor.rs:210-256 | Under the same assumptions all callbacks of a call are processed before its result is even sent. |
| DenoExamples.BothPick | libs/exo-deno/src/deno_executor_pool.rs:164-189 | Two callers can pick one actor, since it is marked busy only after it has taken a call. |
| DenoExamples.CallbackCanReachAnotherCaller | libs/exo-deno/src/deno_actor.rs:210-256 | Then a callback can be handed to the other caller. |
| DenoExamples.CallbackCanBeLost | libs/exo-deno/src/deno_executor.rs:53-78 | And a caller that returns can drop the other's callback unprocessed. |
| Values.FromJsonRoundTrip | crates/common/src/value/val.rs:276-291 | Every JSON value survives `Val::from` and `try_into`. |
| Values.ConversionsAgree | crates/rpc-introspection/src/validation.rs:243-264 | `json_to_val` equals `Val::from` exactly on values whose integers fit i64. |
| Values.JsonToValRoundTrip | crates/rpc-introspection/src/validation.rs:243-264 | `json_to_val` and back is the identity exactly when the integers fit i64. |
| ValueMeaning.ReadExactly | crates/common/src/value/val.rs:276-291 | `Val::from` keeps the form of every JSON value; integers become i64 if they fit, else u64. |
| ValueMeaning.WrittenExactly | crates/common/src/value/val.rs:218-245 | `try_into` writes every value in its form, enum values as strings, and refuses exactly what has no JSON form. |
| RpcSchema.Schema.Method | crates/rpc-introspection/src/schema.rs:43-47 | Finds the first method of a name, or none exactly when there is none. |
| RpcSchema.Schema.Merge | crates/rpc-introspection/src/schema.rs:49-53 | Methods are appended, components of the other schema win, and a merge of closed schemas is closed. |
| RpcSchema.MergeKeepsClosed | crates/rpc-introspection/src/schema.rs:49-53 | All references stay resolved under merging, also where a component is replaced. |
| RpcParsing.ParseScalar | crates/rpc-introspection/src/validation.rs:267-350 | Accepts exactly the JSON forms of the scalar and tags them accordingly. |
| RpcParsing.ParseValue | crates/rpc-introspection/src/validation.rs:121-240 | Terminates on every value, also with recursive component types; yields the value that a conforming one means (`MeansExactly`), or the path and kind of the first problem (`ComplainsExactly`). |
| RpcMeaning.MeansExactly | crates/rpc-introspection/src/validation.rs:121-350 | What a value means, by recursion on value and schema: an enum value for an enum, an i64 for `Int`, a boolean for `Boolean`, the float of the number for `Float`, the string or the printed number for `Decimal`, null for an optional, lists item by item, objects key by key under the first declaration of the key. Parsing yields a value exactly when it is the one that is meant. |
| RpcMeaning.ComplainsExactly | crates/rpc-introspection/src/validation.rs:121-240 | Which problem is reported, by the same recursion: the first item or declared field that is refused, a type or enum value that does not fit, undeclared fields, an unknown type. |
| RpcParsing.ParseFields | crates/rpc-introspection/src/validation.rs:161-202 | The loop that removes keys from `supplied`: succeeds with all fields tagged, or names the first offending field or all undeclared ones. |
| RpcParams.ParseParams | crates/rpc-introspection/src/validation.rs:60-118 | Succeeds exactly when the parameters conform, with result keys equal to the supplied keys and the values that are meant (`ParamsExactly`); otherwise names the first problem in declaration order (`ParamsComplainExactly`). |
| RpcMeaning.ParamsExactly | crates/rpc-introspection/src/validation.rs:60-118 | Parameters are accepted with certain values exactly when each supplied key has what its value means under its first declaration and every required one is there. |
| RpcMeaning.ParamsComplainExactly | crates/rpc-introspection/src/validation.rs:60-118 | And refused with exactly the error said of them: no object, the first missing or refused parameter in declaration order, or undeclared ones. |
| RpcParams.BlamedRefutes | crates/rpc-introspection/src/validation.rs:121-240 | A value that is blamed does not conform: together with `ParseValue`, parsing succeeds exactly on conforming values. |
| RpcParams.ParamsBlamedRefutes | crates/rpc-introspection/src/validation.rs:60-118 | Every error `ParseParams` reports is real. |
| RpcParams.OneProblem | crates/rpc-introspection/src/validation.rs:121-240 | A value has at most one first problem, so the reported path and kind are determined by the value and the schema. |
| RpcParams.DistinctConform | crates/rpc-introspection/src/validation.rs:92-117 | Observation: with distinct parameter names, conforming means: only declared keys, every required parameter, each value conforming to its own declaration. |
| RpcParams.RepeatedRequired | crates/rpc-introspection/src/validation.rs:92-105 | Observation: a required parameter that repeats an earlier name makes every call fail. |
| RpcParams.OmittedParameter | crates/rpc-introspection/src/schema.rs:142-144 | Observation: leaving out a supplied parameter is refused exactly when it is required. |
| RpcParams.OmittedField | crates/rpc-introspection/src/validation.rs:173-182 | Observation: leaving out a field of an object is never refused, whether or not its schema is optional. |
| RpcParams.ClosedNeverUnresolved | crates/rpc-introspection/src/validation.rs:161-163 | If all references resolve, no value is refused for an unknown type. |
| RpcParams.ClosedParams | crates/rpc-introspection/src/validation.rs:60-118 | The same for the parameters of any method of a closed schema. |
| RpcParams.RetagRoundTrip | crates/rpc-introspection/src/validation.rs:121-350 | Writing a parsed value back as JSON returns the original exactly when floats are given as floats, decimals as strings and other integers fit i64. |
| RpcParams.NoFloatsLossless | crates/rpc-introspection/src/validation.rs:121-350 | Without `Float` and `Decimal`, and with integers within i64, parsing loses nothing. |
| RpcDocument.ConvertObjectType | crates/rpc-introspection/src/conversion.rs:257-287 | The loop over the fields publishes each with its optionality unwrapped (the last of a name wins) and marks exactly the non-optional ones as required. |
| RpcDocument.ConvertMethod | crates/rpc-introspection/src/conversion.rs:46-106 | Both forms of a method's parameters, from their loops, and its result, as in `ConvertedMethod`; `DocumentSays` tells what they say. |
| RpcDocument.ToRpcDocument | crates/rpc-introspection/src/conversion.rs:30-44 | The document holds every converted method in order and every converted component; `DocumentSays` tells what it says of them. |
| RpcDocumentMeaning.DocumentSays | crates/rpc-introspection/src/conversion.rs:30-189 | In both modes, the i-th method object has the name of the schema's i-th method; a value is valid against its published result exactly when the declared result admits it, null for an optional one included; each parameter is published with its name, its requiredness and what its type admits; and each component accepts exactly the objects of its type. |
| RpcDocumentMeaning.Published | crates/rpc-introspection/src/conversion.rs:116-210 | Observation: the formats of scalars, the items of arrays, and where references point. |
| RpcDocumentTheorems.TypeResolves | crates/rpc-introspection/src/conversion.rs:116-189 | The references of a converted type resolve if those of the type do, and, where no variant repeats a property, only then. |
| RpcDocumentTheorems.DocumentClosed | crates/rpc-introspection/src/conversion.rs:30-106 | In either form every `$ref` of the document resolves if every reference of the schema does, and conversely where names are not repeated. |
| RpcDocumentTheorems.RequiredAgree | crates/rpc-introspection/src/conversion.rs:57-104 | The OpenRPC form and the MCP form mark the same parameters as required: the non-optional ones. |
| RpcDocumentTheorems.MarkedIsEnforced | crates/rpc-introspection/src/conversion.rs:57-104 | In either form a parameter is marked required exactly when parsing refuses its omission. |
| RpcPublished.ScalarPublished | crates/rpc-introspection/src/conversion.rs:191-210 | Every value the published scalar schema accepts is parsed exactly for the scalars with a schema of their own other than `Vector`. |
| RpcAdmitted.ValidAdmitted | crates/rpc-introspection/src/conversion.rs:116-287 | For every value and type: the document accepts the value exactly if the declared type admits it, a reading by recursion on the type alone (exactly one alternative of a `OneOf`; in objects every key by the last declaration of its name, every required name there, and no other key in closed types). |
| RpcPublished.ValidConforms | crates/rpc-introspection/src/conversion.rs:116-189 | Of the values that are valid against the published document, exactly the parsable ones are parsed: integers fit i64 where they are expected, strings or numbers stand for scalars without a schema of their own, and all fields are declared. |
| RpcPublished.PublishedParsable | crates/rpc-introspection/src/conversion.rs:191-210 | Which holds of every value if all scalars are published ones, integers fit i64 and fields are declared. |
| RpcPublished.FormsAgree | crates/rpc-introspection/src/conversion.rs:57-104 | Where no parameter repeats a name, the OpenRPC list and the MCP object accept the same arguments. |
| RpcPublished.ValidCallAccepted | crates/rpc-introspection/src/conversion.rs:57-104 | Of the calls that are valid against the published parameters, in either form, exactly the parsable ones are accepted. |
| RpcPublished.AcceptedValid | crates/rpc-introspection/src/conversion.rs:116-210 | Of the values that are parsed, exactly the strict ones are valid in the document: strings where it says so, every required field, no null for an optional field, and exactly one of alternatives admitting the value. |
| RpcPublished.AcceptedCallValid | crates/rpc-introspection/src/conversion.rs:57-104 | Of the calls that are accepted, exactly the strict ones are valid against the published parameters, in either form. |
| RpcPublished.FieldRequirementUnenforced | crates/rpc-introspection/src/conversion.rs:257-287 | Dropping a field that the document requires makes the object invalid there, yet it is still parsed. |
| RpcPublished.ConformingIsDeclared | crates/rpc-introspection/src/validation.rs:184-192 | Parsing refuses every undeclared field, also where the document allows additional properties. |
| RpcBatch.TransactionHolder.Run | libs/exo-sql/pg-connect/src/transaction_holder.rs:93-184 | Work runs in the transaction exactly if one is open, or it or an earlier caller wants one, leaving the committed store alone; otherwise it commits by itself, and it is refused once the holder is finalized. |
| RpcBatch.TransactionHolder.Finalize | libs/exo-sql/pg-connect/src/transaction_holder.rs:117-204 | Commits or drops the pending writes; a refused command leaves the transaction open and nothing committed. |
| RpcBatch.ResolveSingleRequest | crates/rpc-router/src/rpc_router.rs:101-168 | A malformed item or a wrong version is an invalid request, a notification does nothing, `rpc.discover` answers with the document, anything else runs its method on the store: over the fields of the JSON received, `HandlesExactly`. |
| RpcRequests.HandlesExactly | crates/rpc-router/src/rpc_router.rs:101-168 | What handling an item does, over the fields of the JSON object (or the array of them): with `jsonrpc` "2.0" and a string for `method`, an absent or null `id` makes a notification; a string or an unsigned integer is the id of the answer; any other id, a missing or wrong version, and a method that is no string make an invalid request. A call is the resolver's plan at that very method and params, on the store so far. |
| RpcRequests.NotificationExactly | crates/core-subsystem/core-resolver/src/plugin/subsystem_rpc_resolver.rs:17-32 | An item is a notification exactly when its `jsonrpc` is "2.0", its `method` a string and its `id` absent or null. |
| RpcRequests.ItemsExactly | crates/rpc-router/src/rpc_router.rs:308-330 | The items of a batch are handled in this way one after the other, each on the store that the one before has left. |
| RpcBatch.HandleBatch | crates/rpc-router/src/rpc_router.rs:283-380 | A non-empty external batch is finalized once; if that succeeds the committed store is the fold of all its items when every one succeeded, and the initial one otherwise. An empty batch is one invalid request and touches nothing; an internal one is not finalized. |
| RpcRequests.ReplyExactly | crates/rpc-router/src/rpc_router.rs:322-380 | What is sent for the results: nothing for notifications only, otherwise one answer per call in order, under its id, with every success turned into the rollback error if some call failed, and the headers of all successes. |
| RpcRequests.BatchMeans | crates/rpc-router/src/rpc_router.rs:283-380 | So a batch is answered by what handling its items in order has made of them, and committed exactly when none failed. |
| RpcRequests.SingleMeans | crates/rpc-router/src/rpc_router.rs:229-265 | And a request outside a batch by what handling it has made of it. |
| RpcRequests.EmptyBatchIsInvalid | crates/rpc-router/src/rpc_router.rs:291-305 | Observation: the answer to an empty batch. |
| RpcBatch.HandleSingle | crates/rpc-router/src/rpc_router.rs:229-265 | A single request commits unless it fails; a method that nobody resolves does not count as a failure here. What is committed afterwards is the initial store if the work ran in a transaction and failed, was internal, or had its command refused, and its result otherwise: outside a transaction the writes of a failed call stay. |
| RpcBatchTheorems.NotificationsAreInert | crates/rpc-router/src/rpc_router.rs:121-131 | Removing the notifications from a batch changes neither the store, nor the answers, nor whether it succeeds. |
| RpcBatchTheorems.AnswerOfCall | crates/rpc-router/src/rpc_router.rs:308-330 | The k-th answer carries the id of the k-th call and its outcome on the store that the earlier calls left. |
| RpcBatchTheorems.BatchAnswers | crates/rpc-router/src/rpc_router.rs:336-349 | One answer per call, in order, under its own id; if any call failed no answer carries a result and every failure stays its own. |
| RpcBatchTheorems.SilentBatch | crates/rpc-router/src/rpc_router.rs:351-358 | Observation: nothing is sent back exactly when all items are notifications. |
| RpcBatchTheorems.HeadersSurviveRollback | crates/rpc-router/src/rpc_router.rs:322-349 | If a call of a batch failed, no answer carries a result, yet the headers sent are exactly those of all successes, rolled back as they are. |
| RequestContexts.InnermostOverrideDecides | crates/common/src/context/overridden_context.rs:51-76 | The innermost override that defines a field, an explicit null included, decides its value; internal requests change nothing. |
| RequestContexts.SourceDecides | crates/common/src/context/request_context.rs:205-250 | A field that no override defines comes from the user's request. |
| ContextMeaning.AnswersExactly | crates/common/src/context/overridden_context.rs:51-76 | What a lookup answers, over the requests: the value of the innermost override that has the context type's field, an explicit null included; otherwise what the extractor of the annotation has under the annotation's key, or under the field's name if it has none; fitted to the field's type. |
| ContextCaches.CachedIsUncached | crates/common/src/context/user_request_context.rs:67-100 | From empty caches, for every sequence of lookups at any depth of any stack, all answers equal the uncached ones exactly when no lookup shares a cache entry with a later one that should get another value. |
| ContextMeaning.SpoilsExactly | crates/common/src/context/user_request_context.rs:74-97 | Which lookups leave a wrong value in a later one's cache entry, over the requests: those that ask the same layer under the same pair of annotation and key, or of context type and field, and mean something else. |
| ContextCaches.OneCoercionPerKey | crates/common/src/context/overridden_context.rs:35-77 | With one coercion per cache key, caching never changes an answer. |
| ContextCaches.TwoTypesOneHeader | crates/common/src/context/user_request_context.rs:78-97 | Two context types that read one header as different types get each other's value. |
| ContextObjects.RequestContext.ExtractContextField | crates/common/src/context/overridden_context.rs:35-77 | The method on the shared, cached objects computes the step of the chain they form. |
| ContextObjects.RequestContext.WithOverride | crates/common/src/context/request_context.rs:190-192 | A new layer with an empty cache over the same, shared base. |
| ContextObjects.RequestContext.LookUpAll | crates/common/src/context/request_context.rs:205-250 | Any run of lookups on the objects is a run of the chain, hence right exactly when nothing pollutes. |
| Weaver.Weave | crates/builder/src/builder/interceptor_weaver.rs:28-44 | Every operation gets the tree of exactly its matching interceptors; fails exactly when some expression cannot be evaluated. What that means for the interceptors as defined: `WovenMeans`. |
| WeaverMeaning.EvaluatesExactly | crates/builder/src/builder/interceptor_weaver.rs:67-110 | What an interceptor expression evaluates to: patterns against the kind and name of the operation, operands only as far as needed. |
| WeaverMeaning.WovenMeans | crates/builder/src/builder/interceptor_weaver.rs:28-101 | An operation is woven exactly when every expression has a value for it, and running it then runs, subsystem by subsystem in definition order, exactly the befores that match, the matching arounds about the operation itself, the last one outermost, and the matching afters. |
| Weaver.Ordered | crates/builder/src/builder/interceptor_weaver.rs:185-218 | The loop and the fold build befores, a nest of arounds and afters, each in definition order. |
| Weaver.KindInOrder | crates/builder/src/builder/interceptor_weaver.rs:191-204 | The interceptors of a kind are those of all positions with that kind, in the order of the positions. |
| Weaver.SelectedSome | crates/builder/src/builder/interceptor_weaver.rs:46-65 | The selection fails exactly when some interceptor's expression cannot be evaluated. |
| Weaver.OrderedTrace | crates/builder/src/builder/interceptor_weaver.rs:185-218 | Running the tree, event by event: all befores, the arounds entered from the last defined to the first and left the other way round about the operation itself, all afters. |
| Weaver.NestTrace | crates/builder/src/builder/interceptor_weaver.rs:206-210 | In the nest of arounds, a later definition is entered earlier and left later, around exactly one run of the operation. |
| Weaver.ProperlyBracketed | crates/core-subsystem/core-plugin-shared/src/interception.rs:26-40 | In any tree, arounds are left in the reverse order of entering, and all of them. |
| Weaver.WovenTimes | crates/builder/src/builder/interceptor_weaver.rs:46-65 | The operation runs once, and every interceptor index as often as matching interceptors have it. |
| Weaver.EachOnce | crates/builder/src/builder/interceptor_weaver.rs:46-101 | With distinct indices every matching interceptor runs exactly once and every other never. |

## Left out

- The in-place passes over expressions, fields and declarations: modelled as functions from a node to a node, a change flag and diagnostics. Ownership of a clone is unique in the source, so no aliasing is lost; the arenas, the loops of `build` and the annotation loop are imperative here.
- Message texts, spans and documentation comments: a diagnostic keeps its kind and the name it is about. That printing a type or taking a span can panic is modelled.
- Parameter names of annotations: whether an annotation is declared and whether it is used properly are flags of the parsed annotation. Building an annotation map from a list is not modelled.
- The order in which hash maps are traversed: an arbitrary but fixed sequence. The arena's and the module's copy of a declaration hold their annotations in two hash maps, each with an order of its own (`crates/builder/src/typechecker/annotation_map.rs:46-60`, traversed at 108); the model gives both copies one order. It matters only where an annotation is undeclared, since the traversal stops there.
- The tree-sitter grammar and the conversion from its tree.
- TypecheckerTheorems.CleanComplete: resolved fragment references are not claimed. The pass that resolves a selection through a model with an unknown fragment reports a change, so its diagnostics are dropped, and later passes leave the resolved selection alone; the unknown fragment is reported in the end only if the selection stays unresolved.
- Acceptance.AcceptedTypes: entries of contexts outside modules are not claimed, because diagnostics of their expressions are dropped and `OrderMatters` shows that they can differ.
- FinalForms.FinalsSameExactly: deferred and erroneous slots count as the same; which of the two an unresolved slot holds can depend on the order. Exactly which programs end alike in every order of visiting is not claimed: plain fields on sets are necessary for a difference, not sufficient.
- Build.Build: whether a program with a possible but no certain fault panics depends on the states its passes go through, and is not claimed. The gap is made of faults under an undeclared annotation, of those in the prefix of a plain field on a set that need the right operand of an operator, and of selections, in contexts outside modules, from a call on the value of a field: its slot is deferred or erroneous depending on whether the field was known when the call was first passed.
- VerdictRules.VerdictExactly: not for programs whose modules have an undeclared annotation, a plain field of a set or a possible fault. An undeclared annotation and a field of a set hide that something before them was resolved, so that their diagnostics can be those of an earlier state, and a fault can leave a slot open; what is reported then depends on the passes before.
- V8, module loading and the wasm runtime: a call is any sequence of callbacks and a result.
- Dropped callers, closed channels and weak memory orderings in the actor protocol.
- DenoProtocol.Apply: only callers that are polled take the callback lock. The mutex of the source hands its permit to a queued waiter also while that caller is inside its processor, which then holds it until it is polled again.
- Calls that a callback's processor makes to the same pool while its caller waits.
- Floating-point arithmetic: a float is a token or the nearest one to an integer; non-finite floats in a `Val` are not modelled.
- Validation constraints of scalars (ranges, lengths): published by the source, never enforced by parsing.
- RpcAdmitted.Valid: covers the keywords the converter writes, and treats only numbers without fraction part as integers.
- The lower-casing of response header names.
- Descriptions in schemas and documents, and the order of components.
- RpcBatch.HandleBatch: a resolver runs as one script on the store; resolvers that finalize the shared holder themselves are not modelled.
- Connection failures other than a refused final command.
- Nested lookups made by an extractor while a value is being extracted, and concurrent lookups on one context.
- JWT, cookie, header, query and IP extractors: one deterministic function per annotation.
- Wildcard matching of interceptor expressions.
- Routers, CORS, environment, command line, language server, playground, deployment adapters and configuration loading.
