/** What `build` answers, by the rules alone. */
module RuleOutcomes {
  import opened Wrappers
  import opened Ast
  import opened Passes
  import opened Declarations
  import opened Typechecker
  import opened TypecheckerTheorems
  import opened PanicOutcomes
  import opened Outcomes
  import opened ProgramRules
  import opened CalmRules
  import opened VerdictRules

  /** A program that does not follow the rules is not accepted, and one that does is, unless it panics.  A panic needs
      something wrong by the rules.  The diagnostics are those that the declarations draw. */
  ghost predicate FollowsRules(sys: AstSystem, res: Result<State, Failure>) {
    AcceptsByRules(sys, res) && PanicsByRules(sys, res) && DiagnosesByRules(sys, res)
  }

  ghost predicate AcceptsByRules(sys: AstSystem, res: Result<State, Failure>) {
    KnownSystem(sys) && SingleSystem(sys) ==>
      (res.Ok? <==> ProgramAccepted(sys, InitialTypes(sys)) && res != Err(Panic))
  }

  ghost predicate PanicsByRules(sys: AstSystem, res: Result<State, Failure>) {
    res == Err(Panic) ==> !ProgramRight(sys, InitialTypes(sys))
  }

  ghost predicate DiagnosesByRules(sys: AstSystem, res: Result<State, Failure>) {
    FineProgram(sys, InitialTypes(sys)) ==> Reports(sys, InitialTypes(sys), res)
  }

  ghost predicate Reports(sys: AstSystem, env: Arena, res: Result<State, Failure>) {
    match res
    case Ok(_) => ProgramComplaints(sys, env) == []
    case Err(Diagnosed(errors)) => errors == ProgramComplaints(sys, env) != []
    case Err(Panic) => true
  }

  lemma RuleOutcome(sys: AstSystem, n: nat, res: Result<State, Failure>)
    requires ParsedSystem(sys) && Ended(sys, n, res) && PanicsByFaults(sys, res) && AcceptsWellTyped(sys, res)
    ensures FollowsRules(sys, res)
  {
    AcceptedByRules(sys, res);
    PanickedByRules(sys, res);
    DiagnosedByRules(sys, n, res);
  }

  lemma AcceptedByRules(sys: AstSystem, res: Result<State, Failure>)
    requires ParsedSystem(sys) && AcceptsWellTyped(sys, res)
    ensures AcceptsByRules(sys, res)
  {
    WellTypedExactly(sys);
  }

  lemma PanickedByRules(sys: AstSystem, res: Result<State, Failure>)
    requires ParsedSystem(sys) && PanicsByFaults(sys, res)
    ensures PanicsByRules(sys, res)
  {
    FaultyExactly(sys);
  }

  lemma DiagnosedByRules(sys: AstSystem, n: nat, res: Result<State, Failure>)
    requires Ended(sys, n, res)
    ensures DiagnosesByRules(sys, res)
  {
    EndedIn(sys, n, res);
    if CalmRounds(sys, n) && FineProgram(sys, InitialTypes(sys)) {
      AnsweredAt(sys, After(sys, n), res);
      VerdictExactly(sys, After(sys, n));
      DecidedReports(Verdict(sys, After(sys, n)), sys, After(sys, n), res);
    }
  }

  lemma DecidedReports(errors: seq<Diagnostic>, sys: AstSystem, st: State, res: Result<State, Failure>)
    requires Decided(sys, st, res) && errors == Verdict(sys, st) && errors == ProgramComplaints(sys, InitialTypes(sys))
    ensures Reports(sys, InitialTypes(sys), res)
  {
  }
}
