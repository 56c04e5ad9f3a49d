/** How `build` ends. */
module Outcomes {
  import opened Wrappers
  import opened Ast
  import opened Passes
  import opened OneShot
  import opened Declarations
  import opened Typechecker
  import opened TypecheckerTheorems
  import opened Acceptance
  import opened Parts
  import opened Rounds
  import opened PanicRuns
  import opened DeferredRuns
  import opened PanicOutcomes

  /** A panic of the source is an outcome of its own. */
  datatype Failure = Diagnosed(errors: seq<Diagnostic>) | Panic

  /** The program is accepted exactly when the final state draws no diagnostic. */
  ghost predicate Decided(sys: AstSystem, st: State, res: Result<State, Failure>) {
    res == if Verdict(sys, st) == [] then Ok(st) else Err(Diagnosed(Verdict(sys, st)))
  }

  function Answer(errors: seq<Diagnostic>, st: State): Result<State, Failure> {
    if errors != [] then Err(Diagnosed(errors)) else Ok(st)
  }

  // ----- One iteration -----

  lemma IterationCalm(sys: AstSystem, start: State)
    ensures Calm(start, IterationSteps(sys)) <==>
            Calm(start, DeclaredSteps(sys)) && Calm(Run(start, DeclaredSteps(sys)), ModuleSteps(|sys.modules|))
  {
    CalmSplit(start, DeclaredSteps(sys), ModuleSteps(|sys.modules|));
  }

  lemma TwoParts(start: State, steps: seq<Step>, more: seq<Step>)
    ensures var middle := Run(start, steps);
            var end := Run(start, steps + more);
            && end == Run(middle, more)
            && (Changes(start, steps) > 0 || Changes(middle, more) > 0 <==> Changes(start, steps + more) > 0)
            && (Changes(start, steps + more) == 0 ==> middle == start && end == start)
  {
    RunSplit(start, steps, more);
    if Changes(start, steps + more) == 0 {
      Unchanging(start, steps);
      Unchanging(start, more);
    }
  }

  lemma {:induction false} IterationQuiet(sys: AstSystem, st: State,
                                          rootErrors: seq<Diagnostic>, typeErrors: seq<Diagnostic>,
                                          moduleErrors: seq<Diagnostic>)
    requires ParsedSystem(sys) && Inv(st, InitialState(sys)) && Changes(st, IterationSteps(sys)) == 0
    requires rootErrors == RootErrors(sys.types, st.types) && typeErrors == NonModelErrors(AllTypes(sys), st.types)
    requires moduleErrors == ModuleErrors(st.modules, st.types)
    ensures Final(sys, st) && rootErrors + typeErrors + moduleErrors == Verdict(sys, st)
  {
    NothingLeft(sys, st);
  }

  // ----- All iterations -----

  /** The state after so many iterations. */
  ghost function After(sys: AstSystem, iterations: nat): State {
    Run(InitialState(sys), Repeat(IterationSteps(sys), iterations))
  }

  /** None of that many iterations panics. */
  ghost predicate CalmRounds(sys: AstSystem, iterations: nat) {
    Calm(InitialState(sys), Repeat(IterationSteps(sys), iterations))
  }

  /** So far no iteration panicked, and every one changed something. */
  ghost predicate Productive(sys: AstSystem, n: nat) {
    && CalmRounds(sys, n) && Inv(After(sys, n), InitialState(sys))
    && n <= Changes(InitialState(sys), Repeat(IterationSteps(sys), n)) <= CountState(InitialState(sys))
  }

  lemma ProductiveStart(sys: AstSystem)
    requires ParsedSystem(sys)
    ensures After(sys, 0) == InitialState(sys) && Productive(sys, 0)
  {
    InitialInv(sys);
  }

  /** One more iteration. */
  lemma RoundNext(sys: AstSystem, n: nat)
    requires ParsedSystem(sys) && Productive(sys, n)
    ensures After(sys, n + 1) == Run(After(sys, n), IterationSteps(sys))
    ensures CalmRounds(sys, n + 1) <==> Calm(After(sys, n), IterationSteps(sys))
  {
    RunSplit(InitialState(sys), Repeat(IterationSteps(sys), n), IterationSteps(sys));
    CalmSplit(InitialState(sys), Repeat(IterationSteps(sys), n), IterationSteps(sys));
  }

  lemma ProductiveNext(sys: AstSystem, n: nat)
    requires ParsedSystem(sys) && Productive(sys, n)
    requires CalmRounds(sys, n + 1) && Changes(After(sys, n), IterationSteps(sys)) > 0
    ensures Productive(sys, n + 1)
  {
    InitialInv(sys);
    RunSplit(InitialState(sys), Repeat(IterationSteps(sys), n), IterationSteps(sys));
    RunSafe(InitialState(sys), InitialState(sys), Repeat(IterationSteps(sys), n + 1));
  }

  /** How the loop ends: in a panic, or in a state that no pass changes and no pass panics over. */
  ghost predicate Ended(sys: AstSystem, iterations: nat, res: Result<State, Failure>) {
    if CalmRounds(sys, iterations) then EndedAt(sys, After(sys, iterations), res) else res == Err(Panic)
  }

  ghost predicate EndedAt(sys: AstSystem, st: State, res: Result<State, Failure>) {
    Final(sys, st) && Decided(sys, st, res) && NothingPanics(sys, st)
  }

  ghost predicate NothingPanics(sys: AstSystem, st: State) {
    forall step :: step in IterationSteps(sys) ==> !StepPanics(st, step)
  }

  /** The last iteration changed nothing, and left these diagnostics. */
  ghost predicate Concluded(sys: AstSystem, n: nat, errors: seq<Diagnostic>) {
    CalmRounds(sys, n) && Final(sys, After(sys, n)) && errors == Verdict(sys, After(sys, n)) &&
    NothingPanics(sys, After(sys, n))
  }

  lemma NothingLeftToPanic(sys: AstSystem, st: State, now: State)
    requires now == Run(st, IterationSteps(sys)) && Calm(st, IterationSteps(sys)) &&
             Changes(st, IterationSteps(sys)) == 0
    ensures NothingPanics(sys, now)
  {
    Unchanging(st, IterationSteps(sys));
    CalmUnchanging(st, IterationSteps(sys));
  }

  /** What an iteration has shown, by what it reports. */
  lemma RoundIs(sys: AstSystem, n: nat, panicked: bool, changed: bool, errors: seq<Diagnostic>)
    requires ParsedSystem(sys) && Productive(sys, n) && After(sys, n + 1) == Run(After(sys, n), IterationSteps(sys))
    requires CalmRounds(sys, n + 1) <==> Calm(After(sys, n), IterationSteps(sys))
    requires panicked <==> !Calm(After(sys, n), IterationSteps(sys))
    requires !panicked ==>
               && (changed <==> Changes(After(sys, n), IterationSteps(sys)) > 0)
               && (!changed ==> Final(sys, After(sys, n + 1)) && errors == Verdict(sys, After(sys, n + 1)))
    ensures !panicked ==> if changed then Productive(sys, n + 1) else Concluded(sys, n + 1, errors)
  {
    if !panicked {
      if changed { ProductiveNext(sys, n); } else { NothingLeftToPanic(sys, After(sys, n), After(sys, n + 1)); }
    }
  }

  lemma Conclude(sys: AstSystem, n: nat, errors: seq<Diagnostic>)
    requires Concluded(sys, n, errors)
    ensures Ended(sys, n, Answer(errors, After(sys, n)))
  {
  }

  // ----- What it means for the program -----

  /** Every program with a certain fault panics, and only faulty ones do; of regular programs, exactly those. */
  ghost predicate PanicsByFaults(sys: AstSystem, res: Result<State, Failure>) {
    && (CertainProgram(sys) ==> res == Err(Panic))
    && (res == Err(Panic) ==> FaultyProgram(sys))
    && (RegularProgram(sys) ==> (res == Err(Panic) <==> FaultyProgram(sys)))
  }

  /** Exactly the well-typed programs that do not panic are accepted, and then settled; and exactly the well-typed ones,
      if no context outside modules has a fault. */
  ghost predicate AcceptsWellTyped(sys: AstSystem, res: Result<State, Failure>) {
    KnownSystem(sys) && SingleSystem(sys) ==>
      && (res.Ok? <==> WellTyped(sys) && res != Err(Panic))
      && (res.Ok? ==> Settled(sys, res.value))
      && (!FaultyContext(sys) ==> (res.Ok? <==> WellTyped(sys)))
  }

  lemma PanicOutcome(sys: AstSystem, n: nat, res: Result<State, Failure>)
    requires ParsedSystem(sys) && Ended(sys, n, res)
    ensures PanicsByFaults(sys, res)
  {
    EndedIn(sys, n, res);
    CertainlyPanics(sys, n, res);
    PanicReason(sys, n);
    RegularFaults(sys);
  }

  lemma EndedIn(sys: AstSystem, n: nat, res: Result<State, Failure>)
    requires Ended(sys, n, res)
    ensures CalmRounds(sys, n) ==> EndedAt(sys, After(sys, n), res)
    ensures CalmRounds(sys, n) <==> res != Err(Panic)
  {
    if CalmRounds(sys, n) { AnsweredAt(sys, After(sys, n), res); }
  }

  lemma AnsweredAt(sys: AstSystem, st: State, res: Result<State, Failure>)
    requires EndedAt(sys, st, res)
    ensures res != Err(Panic) && Decided(sys, st, res) && Final(sys, st)
  {
  }

  lemma {:induction false} CertainlyPanics(sys: AstSystem, n: nat, res: Result<State, Failure>)
    requires ParsedSystem(sys) && (CalmRounds(sys, n) ==> EndedAt(sys, After(sys, n), res))
    ensures CertainProgram(sys) ==> !CalmRounds(sys, n)
  {
    if CertainProgram(sys) && CalmRounds(sys, n) {
      RoundsDefer(sys, n);
      CertainlyMet(sys, After(sys, n));
    }
  }

  lemma CertainlyMet(sys: AstSystem, st: State)
    requires Final(sys, st) && DefersState(st, InitialTypes(sys)) && CertainProgram(sys)
    ensures !NothingPanics(sys, st)
  {
    var step :| step in IterationSteps(sys) && StepCertain(sys, step);
    FinalPanics(sys, st, step);
  }

  lemma {:induction false} RepeatIn(steps: seq<Step>, n: nat)
    ensures forall step :: step in Repeat(steps, n) ==> step in steps
  {
    if n > 0 { RepeatIn(steps, n - 1); }
  }

  lemma PanicReason(sys: AstSystem, n: nat)
    requires ParsedSystem(sys)
    ensures !CalmRounds(sys, n) ==> FaultyProgram(sys)
  {
    InitialInv(sys);
    RepeatIn(IterationSteps(sys), n);
    if !CalmRounds(sys, n) { PanicNeedsFault(sys, InitialState(sys), Repeat(IterationSteps(sys), n)); }
  }

  lemma TypedOutcome(sys: AstSystem, n: nat, res: Result<State, Failure>)
    requires ParsedSystem(sys) && Ended(sys, n, res)
    ensures AcceptsWellTyped(sys, res)
  {
    if KnownSystem(sys) && SingleSystem(sys) {
      EndedIn(sys, n, res);
      if res != Err(Panic) {
        AnsweredAt(sys, After(sys, n), res);
        ValidOutcomes(sys, After(sys, n), res);
      } else {
        TypedPanic(sys, n);
      }
    }
  }

  /** A panic over a well-typed program needs a fault of a context outside modules. */
  lemma TypedPanic(sys: AstSystem, n: nat)
    requires ParsedSystem(sys) && !CalmRounds(sys, n)
    ensures WellTyped(sys) ==> FaultyContext(sys)
  {
    PanicReason(sys, n);
    if WellTyped(sys) { TypedFaultFree(sys); }
  }

  lemma ValidOutcomes(sys: AstSystem, st: State, res: Result<State, Failure>)
    requires Final(sys, st) && Decided(sys, st, res) && KnownSystem(sys) && SingleSystem(sys)
    ensures (res.Ok? <==> WellTyped(sys)) && (res.Ok? ==> Settled(sys, res.value))
  {
    AcceptedExactly(sys, st);
    if res.Ok? { AcceptedSettled(sys, st); }
  }

  /** Every module is resolved throughout, and the type arena holds the modules' own copies of their types. */
  ghost predicate Settled(sys: AstSystem, st: State) {
    && |st.modules| == |sys.modules|
    && ModulesFinished(sys, st)
    && CopiesAgreeIn(st)
  }

  ghost predicate ModulesFinished(sys: AstSystem, st: State) {
    forall j :: 0 <= j < |st.modules| ==> Finished(st.modules[j], InitialTypes(sys))
  }

  ghost predicate CopiesAgreeIn(st: State) {
    forall i: nat, j: nat, k: nat :: CopyAgrees(st, i, j, k)
  }

  predicate CopyAgrees(st: State, i: nat, j: nat, k: nat) {
    i < |st.types.values| && st.types.values[i].ModelEntry? && j < |st.modules| && k < |st.modules[j].types|
    && ShallowModel(st.types.values[i].model) == ShallowModel(st.modules[j].types[k])
    ==> st.types.values[i].model == st.modules[j].types[k]
  }

  lemma {:induction false} AcceptedSettled(sys: AstSystem, st: State)
    requires Final(sys, st) && KnownSystem(sys) && SingleSystem(sys) && Verdict(sys, st) == []
    ensures Settled(sys, st)
  {
    VerdictEmpty(sys, st);
    FinalCount(sys, st);
    AllFinished(sys, st);
    AllCopied(sys, st);
  }

  lemma AllFinished(sys: AstSystem, st: State)
    requires Final(sys, st) && KnownSystem(sys) && SingleSystem(sys) && ModuleErrors(st.modules, st.types) == []
    requires |st.modules| == |sys.modules|
    ensures ModulesFinished(sys, st)
  {
    forall j | 0 <= j < |st.modules| ensures Finished(st.modules[j], InitialTypes(sys)) { SettledModule(sys, st, j); }
  }

  lemma AllCopied(sys: AstSystem, st: State)
    requires Final(sys, st) && KnownSystem(sys) && SingleSystem(sys) && ModuleErrors(st.modules, st.types) == []
    ensures CopiesAgreeIn(st)
  {
    forall i: nat, j: nat, k: nat ensures CopyAgrees(st, i, j, k) { SettledCopy(sys, st, i, j, k); }
  }

  lemma SettledModule(sys: AstSystem, st: State, j: nat)
    requires Final(sys, st) && KnownSystem(sys) && SingleSystem(sys) && ModuleErrors(st.modules, st.types) == []
    requires j < |st.modules| == |sys.modules|
    ensures Finished(st.modules[j], InitialTypes(sys))
  {
    CleanComplete(sys, st, j);
  }

  lemma SettledCopy(sys: AstSystem, st: State, i: nat, j: nat, k: nat)
    requires Final(sys, st) && KnownSystem(sys) && SingleSystem(sys) && ModuleErrors(st.modules, st.types) == []
    ensures CopyAgrees(st, i, j, k)
  {
    if i < |st.types.values| && st.types.values[i].ModelEntry? && j < |st.modules| && k < |st.modules[j].types|
       && ShallowModel(st.types.values[i].model) == ShallowModel(st.modules[j].types[k]) {
      CopiesAgree(sys, st, i, j, k);
    }
  }
}
