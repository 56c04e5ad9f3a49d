/** How long a run can be, and that every call can always still return. */
module DenoProgress {
  import opened Sums
  import opened Wrappers
  import opened DenoProtocol
  import opened DenoInvariant
  import opened DenoAnswers
  import opened DenoTheorems

  /** How many steps a caller has before it, if nothing more is emitted. */
  function PhaseWeight(p: CallerPhase, n: nat): nat {
    match p
    case Arriving => n + 9
    case Scanning(k) => 8 + (if k <= n then n - k else 0)
    case Sending(_) => 7
    case Forwarding(_, _) => 5
    case Waiting(_) => 2
    case Listening(_) => 1
    case Returned(_, _) => 0
  }

  function CallerWeight(n: nat): Caller -> nat {
    (x: Caller) => PhaseWeight(x.phase, n) + 2 * |x.toUser| + |Opt(x.processing)|
  }

  function ActorWeight(a: Actor): nat {
    5 * |a.callbacks| + 4 * |a.queue|
    + (match a.phase case Taken(_) => 3 case Executing(_, _) => 2 case Answered(_) => 1 case Idle => 0)
  }

  function Weight(s: State): nat {
    Sum(s.callers, CallerWeight(|s.callers|)) + Sum(s.actors, ActorWeight)
  }

  function Chosen(x: Caller): nat {
    if x.phase.Arriving? || x.phase.Scanning? then 0 else 1
  }

  /** Every actor was allocated for a caller of its own. */
  predicate Few(s: State) {
    |s.actors| <= Sum(s.callers, Chosen)
  }

  lemma FewActors(s: State)
    requires Few(s)
    ensures |s.actors| <= |s.callers|
  {
    SumAtMost(s.callers, Chosen, 1);
  }

  /** The cost of a step: emitting a callback makes work for five more. */
  function Cost(step: Step): nat {
    if step.Emit? then 6 else 0
  }

  predicate Descends(s: State, step: Step)
    requires Enabled(s, step)
  {
    Weight(Apply(s, step)) + 1 <= Weight(s) + Cost(step)
  }

  lemma Exchange(s: State, t: State, d: nat, x: Caller)
    requires d < |s.callers| && t.callers == s.callers[d := x]
    ensures Sum(t.callers, CallerWeight(|t.callers|)) + CallerWeight(|s.callers|)(s.callers[d])
            == Sum(s.callers, CallerWeight(|s.callers|)) + CallerWeight(|s.callers|)(x)
    ensures Sum(t.callers, Chosen) + Chosen(s.callers[d]) == Sum(s.callers, Chosen) + Chosen(x)
  {
    SumUpdate(s.callers, d, x, CallerWeight(|s.callers|));
    SumUpdate(s.callers, d, x, Chosen);
  }

  lemma ExchangeActor(s: State, t: State, i: nat, a: Actor)
    requires i < |s.actors| && t.actors == s.actors[i := a]
    ensures Sum(t.actors, ActorWeight) + ActorWeight(s.actors[i]) == Sum(s.actors, ActorWeight) + ActorWeight(a)
  {
    SumUpdate(s.actors, i, a, ActorWeight);
  }

  lemma AnswerWeighs(s: State, cb: Callback)
    ensures Weight(Answer(s, cb)) == Weight(s) && (Few(s) ==> Few(Answer(s, cb)))
  {
    if Answer(s, cb) != s {
      ExchangeActor(s, Answer(s, cb), cb.actor, s.actors[cb.actor].(unprocessed := s.actors[cb.actor].unprocessed - 1));
    }
  }

  lemma ActorDescends(s: State, step: Step)
    requires Inv(s) && Enabled(s, step) && (step.Take? || step.Mark? || step.Finish? || step.Unmark? || step.Emit?)
    ensures Descends(s, step) && (Few(s) ==> Few(Apply(s, step)))
  {
    ExchangeActor(s, Apply(s, step), step.i, Apply(s, step).actors[step.i]);
  }

  /** A caller moves, and leaves the actors alone. */
  lemma CallerDescends(s: State, step: Step)
    requires Inv(s) && Few(s) && Enabled(s, step) && (step.Enter? || step.Accept?)
    ensures Descends(s, step) && Few(Apply(s, step))
  {
    var t := Apply(s, step);
    Exchange(s, t, step.c, t.callers[step.c]);
  }

  lemma CheckDescends(s: State, c: nat)
    requires Inv(s) && Few(s) && Enabled(s, Check(c))
    ensures Descends(s, Check(c)) && Few(Apply(s, Check(c)))
  {
    FewActors(s);
    if s.callers[c].phase.cursor >= |s.actors| {
      AllocationDescends(s, c);
    } else {
      var x := s.callers[c];
      var x' :=
        x.(phase := if s.actors[x.phase.cursor].busy then Scanning(x.phase.cursor + 1) else Sending(x.phase.cursor));
      Exchange(s, Apply(s, Check(c)), c, x');
    }
  }

  lemma AllocationDescends(s: State, c: nat)
    requires Few(s) && Enabled(s, Check(c)) && s.callers[c].phase.cursor >= |s.actors|
    ensures Descends(s, Check(c)) && Few(Apply(s, Check(c)))
  {
    var t := Apply(s, Check(c));
    Exchange(s, t, c, t.callers[c]);
    SumConcat(s.actors, [NEW_ACTOR], ActorWeight);
    SumOne(NEW_ACTOR, ActorWeight);
  }

  /** A caller moves together with its actor. */
  lemma JointExchange(s: State, step: Step)
    requires Inv(s) && Enabled(s, step) && (step.Send? || step.Lock? || step.Receive? || step.Forward?)
    ensures var t, i := Apply(s, step), s.callers[step.c].phase.actor;
            && i < |s.actors| == |t.actors| && |t.callers| == |s.callers|
            && Weight(t) + CallerWeight(|s.callers|)(s.callers[step.c]) + ActorWeight(s.actors[i])
               == Weight(s) + CallerWeight(|s.callers|)(t.callers[step.c]) + ActorWeight(t.actors[i])
            && Sum(t.callers, Chosen) + Chosen(s.callers[step.c]) == Sum(s.callers, Chosen) + Chosen(t.callers[step.c])
  {
    assert CallerOk(s, step.c);
    var t := Apply(s, step);
    var i := s.callers[step.c].phase.actor;
    Exchange(s, t, step.c, t.callers[step.c]);
    ExchangeActor(s, t, i, t.actors[i]);
  }

  lemma SendDescends(s: State, step: Step)
    requires Inv(s) && Few(s) && Enabled(s, step) && (step.Send? || step.Lock?)
    ensures Descends(s, step) && Few(Apply(s, step))
  {
    JointExchange(s, step);
  }

  lemma ReceiveDescends(s: State, step: Step)
    requires Inv(s) && Few(s) && Enabled(s, step) && (step.Receive? || step.Forward?)
    ensures Descends(s, step) && Few(Apply(s, step))
  {
    JointExchange(s, step);
  }

  lemma ProcessDescends(s: State, c: nat)
    requires Inv(s) && Few(s) && Enabled(s, Process(c))
    ensures Descends(s, Process(c)) && Few(Apply(s, Process(c)))
  {
    var x := s.callers[c];
    var x' := x.(processing := None, processed := x.processed + [x.processing.value]);
    Exchange(s, PutCaller(s, c, x'), c, x');
    AnswerWeighs(PutCaller(s, c, x'), x.processing.value);
  }

  lemma ReturnDescends(s: State, c: nat)
    requires Inv(s) && Few(s) && Enabled(s, Return(c))
    ensures Descends(s, Return(c)) && Few(Apply(s, Return(c)))
  {
    assert CallerOk(s, c);
    var t := Release(s, c);
    var i := s.callers[c].phase.actor;
    Exchange(s, t, c, t.callers[c]);
    ExchangeActor(s, t, i, t.actors[i]);
    AnswerOne(t, s.callers[c].toUser);
    if s.callers[c].toUser != [] { AnswerWeighs(t, s.callers[c].toUser[0]); }
  }

  lemma StepDescends(s: State, step: Step)
    requires Inv(s) && Few(s) && Enabled(s, step)
    ensures Descends(s, step) && Few(Apply(s, step))
  {
    if step.Take? || step.Mark? || step.Finish? || step.Unmark? || step.Emit? {
      ActorDescends(s, step);
    } else if step.Enter? || step.Accept? {
      CallerDescends(s, step);
    } else if step.Check? {
      CheckDescends(s, step.c);
    } else if step.Send? || step.Lock? {
      SendDescends(s, step);
    } else if step.Process? {
      ProcessDescends(s, step.c);
    } else if step.Return? {
      ReturnDescends(s, step.c);
    } else {
      ReceiveDescends(s, step);
    }
  }

  // ----- Runs end -----

  function Emissions(steps: seq<Step>): nat {
    if steps == [] then 0 else (if steps[0].Emit? then 1 else 0) + Emissions(steps[1..])
  }

  lemma {:induction false} RunDescends(s: State, steps: seq<Step>)
    requires Inv(s) && Few(s) && CanRun(s, steps)
    ensures Few(Run(s, steps)) && Weight(Run(s, steps)) + |steps| <= Weight(s) + 6 * Emissions(steps)
    decreases |steps|
  {
    if steps != [] {
      StepInv(s, steps[0]);
      StepDescends(s, steps[0]);
      RunDescends(Apply(s, steps[0]), steps[1..]);
    }
  }

  lemma InitWeight(n: nat)
    ensures Few(Init(n)) && Weight(Init(n)) <= (n + 9) * n
  {
    SumAtMost(Init(n).callers, CallerWeight(n), n + 9);
  }

  /** No livelock: `n` callers whose functions emit `m` callbacks are through after at most `n * (n + 9) + 6 * m`
      steps. */
  lemma RunsAreBounded(n: nat, steps: seq<Step>)
    requires CanRun(Init(n), steps)
    ensures |steps| <= (n + 9) * n + 6 * Emissions(steps)
  {
    InitInv(n);
    InitWeight(n);
    RunDescends(Init(n), steps);
  }

  /** Only steps that need neither a further callback nor an early return. */
  ghost predicate ProgressRun(s: State, steps: seq<Step>)
    decreases |steps|
  {
    steps == [] || (Progress(s, steps[0]) && ProgressRun(Apply(s, steps[0]), steps[1..]))
  }

  predicate AllReturned(s: State) {
    forall c :: 0 <= c < |s.callers| ==> HasReturned(s, c)
  }

  lemma Complete(s: State) returns (more: seq<Step>)
    requires Inv(s) && Answerable(s) && Few(s)
    ensures ProgressRun(s, more) && CanRun(s, more) && AllReturned(Run(s, more))
    decreases Weight(s)
  {
    if AllReturned(s) {
      more := [];
    } else {
      var c :| 0 <= c < |s.callers| && !HasReturned(s, c);
      var step := SomeoneMoves(s, c);
      StepInv(s, step);
      StepAnswerable(s, step);
      StepDescends(s, step);
      var rest := Complete(Apply(s, step));
      more := [step] + rest;
      assert more[1..] == rest;
    }
  }

  /** From every state of every run, all calls can still return, without any function emitting more callbacks or
      returning before its callbacks were answered. */
  lemma EveryCallCanReturn(n: nat, steps: seq<Step>) returns (more: seq<Step>)
    requires CanRun(Init(n), steps)
    ensures var s := Run(Init(n), steps); ProgressRun(s, more) && CanRun(s, more) && AllReturned(Run(s, more))
  {
    InitAnswerable(n);
    InitWeight(n);
    RunAnswerable(Init(n), steps);
    RunDescends(Init(n), steps);
    more := Complete(Run(Init(n), steps));
  }
}
