/** Two callers that pick the same actor, and what can go wrong between them. */
module DenoExamples {
  import opened Wrappers
  import opened DenoProtocol
  import opened DenoAnswers
  import opened DenoTheorems

  /** Patient steps that lead two callers from the start to `s`. */
  ghost predicate Leads(steps: seq<Step>, s: State) {
    PatientRun(Init(2), steps) && CanRun(Init(2), steps) && Run(Init(2), steps) == s
  }

  lemma {:induction false} Extend(s: State, steps: seq<Step>, step: Step)
    requires PatientRun(s, steps) && CanRun(s, steps) && Enabled(Run(s, steps), step) && Patient(Run(s, steps), step)
    ensures PatientRun(s, steps + [step]) && CanRun(s, steps + [step]) &&
            Run(s, steps + [step]) == Apply(Run(s, steps), step)
    decreases |steps|
  {
    if steps == [] {
      assert steps + [step] == [step] && [step][1..] == [];
    } else {
      assert (steps + [step])[0] == steps[0] && (steps + [step])[1..] == steps[1..] + [step];
      Extend(Apply(s, steps[0]), steps[1..], step);
    }
  }

  lemma Go(before: seq<Step>, s: State, step: Step) returns (steps: seq<Step>)
    requires Leads(before, s) && Enabled(s, step) && Patient(s, step)
    ensures Leads(steps, Apply(s, step)) && steps == before + [step]
  {
    Extend(Init(2), before, step);
    steps := before + [step];
  }

  function CallerAt(p: CallerPhase): Caller {
    Caller(p, [], None, [], [])
  }

  function Two(a: Actor, first: Caller, second: Caller, results: map<nat, Outcome>): State {
    State([a], [first, second], None, results)
  }

  const PICKED: State := Two(NEW_ACTOR, CallerAt(Sending(0)), CallerAt(Sending(0)), map[])

  /** The busy flag is set only once a call is taken, so two callers can pick one actor. */
  lemma BothPick() returns (steps: seq<Step>)
    ensures Leads(steps, PICKED)
  {
    var s := Init(2);
    assert s == State([], [NEW_CALLER, NEW_CALLER], None, map[]);
    steps := [];
    steps := Go(steps, s, Enter(0));
    s := Apply(s, Enter(0));
    steps := Go(steps, s, Check(0));
    s := Apply(s, Check(0));
    assert s == State([NEW_ACTOR], [CallerAt(Sending(0)), NEW_CALLER], None, map[]);
    steps := Go(steps, s, Enter(1));
    s := Apply(s, Enter(1));
    steps := Go(steps, s, Check(1));
    s := Apply(s, Check(1));
    assert s == PICKED;
  }

  /** Actor 0 runs the first call; both calls were queued. */
  const BOTH_QUEUED: State := Two(Actor(Executing(0, 0), true, [1], [], None, 0, [0, 1], [], [], []),
                                  CallerAt(Waiting(0)), CallerAt(Waiting(0)), map[])

  lemma BothQueue() returns (steps: seq<Step>)
    ensures Leads(steps, BOTH_QUEUED)
  {
    var s := PICKED;
    steps := BothPick();
    steps := Go(steps, s, Send(0));
    s := Apply(s, Send(0));
    steps := Go(steps, s, Take(0));
    s := Apply(s, Take(0));
    steps := Go(steps, s, Mark(0));
    s := Apply(s, Mark(0));
    var none: seq<nat> := [];
    assert none + [0] == [0] && [0][1..] == none;
    assert s == Two(Actor(Executing(0, 0), true, [], [], None, 0, [0], [], [], []), CallerAt(Waiting(0)),
                    CallerAt(Sending(0)), map[]);
    steps := Go(steps, s, Send(1));
    s := Apply(s, Send(1));
    assert none + [1] == [1] && [0] + [1] == [0, 1];
    assert s == BOTH_QUEUED;
  }

  /** The second caller, if it gets the callback lock first, receives the first one's callback. */
  lemma CallbackCanReachAnotherCaller() returns (steps: seq<Step>, s: State)
    ensures Leads(steps, s) && |s.callers| == 2 && s.callers[1].phase == Forwarding(0, Callback(0, 0, 0))
  {
    s := BOTH_QUEUED;
    steps := BothQueue();
    steps := Go(steps, s, Lock(1));
    s := Apply(s, Lock(1));
    steps := Go(steps, s, Emit(0));
    s := Apply(s, Emit(0));
    steps := Go(steps, s, Receive(1));
    s := Apply(s, Receive(1));
  }

  /** The first call was answered, and the second one runs; the first caller still listens. */
  const FIRST_ANSWERED: State := Two(Actor(Executing(1, 0), true, [], [], Some(0), 0, [0, 1], [0], [], []),
                                     CallerAt(Listening(0)), CallerAt(Waiting(0)), map[0 := Outcome("", 0)])

  lemma FirstIsAnswered() returns (steps: seq<Step>)
    ensures Leads(steps, FIRST_ANSWERED)
  {
    var s := BOTH_QUEUED;
    steps := BothQueue();
    steps := Go(steps, s, Lock(0));
    s := Apply(s, Lock(0));
    steps := Go(steps, s, Finish(0, ""));
    s := Apply(s, Finish(0, ""));
    steps := Go(steps, s, Unmark(0));
    s := Apply(s, Unmark(0));
    var none: seq<nat> := [];
    assert [1][1..] == none && none + [0] == [0];
    assert s == Two(Actor(Idle, false, [1], [], Some(0), 0, [0, 1], [0], [], []),
                    CallerAt(Listening(0)), CallerAt(Waiting(0)), map[0 := Outcome("", 0)]);
    steps := Go(steps, s, Take(0));
    s := Apply(s, Take(0));
    steps := Go(steps, s, Mark(0));
    s := Apply(s, Mark(0));
    assert s == FIRST_ANSWERED;
  }

  const SECOND := Callback(0, 1, 0)

  /** The second call's callback is in the first caller's channel. */
  const MISLAID: State := Two(Actor(Executing(1, 1), true, [], [], None, 1, [0, 1], [0], [SECOND], [(SECOND, 0)]),
                              Caller(Waiting(0), [SECOND], None, [], []), CallerAt(Waiting(0)),
                              map[0 := Outcome("", 0)])

  lemma CallbackIsMislaid() returns (steps: seq<Step>)
    ensures Leads(steps, MISLAID)
  {
    var s := FIRST_ANSWERED;
    steps := FirstIsAnswered();
    steps := Go(steps, s, Emit(0));
    s := Apply(s, Emit(0));
    assert s.actors[0].callbacks == [SECOND] && s.actors[0].emitted == [SECOND];
    steps := Go(steps, s, Receive(0));
    s := Apply(s, Receive(0));
    var none: seq<Callback> := [];
    assert [SECOND][1..] == none && none + [SECOND] == [SECOND];
    assert s.actors[0].callbacks == none && s.actors[0].forwarded == [(SECOND, 0)];
    steps := Go(steps, s, Forward(0));
    s := Apply(s, Forward(0));
    assert s.callers[0] == Caller(Waiting(0), [SECOND], None, [], []);
    assert s.actors[0] == MISLAID.actors[0];
    assert s == MISLAID;
  }

  /** The first caller returns with its result and takes the other's callback with it; the second call runs on with an
      error for an answer. */
  lemma CallbackCanBeLost() returns (steps: seq<Step>, s: State)
    ensures Leads(steps, s) && |s.callers| == 2 && |s.actors| == 1
    ensures HasReturned(s, 0) && s.callers[0].lost == [SECOND] && s.callers[0].processed == []
    ensures s.actors[0].phase == Executing(1, 1) && s.actors[0].unprocessed == 0
  {
    s := MISLAID;
    steps := CallbackIsMislaid();
    steps := Go(steps, s, Lock(0));
    s := Apply(s, Lock(0));
    steps := Go(steps, s, Return(0));
    AnswerOne(Release(s, 0), [SECOND]);
    s := Apply(s, Return(0));
  }
}
