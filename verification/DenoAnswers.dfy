/**
 Where the unanswered callbacks of a running function are.

 In every run, whatever functions do: the callbacks that a running function has no answer to
 are exactly those of its call in the actor's channel or with some caller.
 */
module DenoAnswers {
  import opened Sums
  import opened Wrappers
  import opened DenoProtocol
  import opened DenoInvariant

  /** How many of the callbacks were emitted by actor `i` for call `c`. */
  function Mine(cbs: seq<Callback>, i: nat, c: nat): nat {
    if cbs == [] then 0 else (if cbs[0].actor == i && cbs[0].call == c then 1 else 0) + Mine(cbs[1..], i, c)
  }

  lemma {:induction false} MineConcat(a: seq<Callback>, b: seq<Callback>, i: nat, c: nat)
    ensures Mine(a + b, i, c) == Mine(a, i, c) + Mine(b, i, c)
  {
    if a == [] { assert a + b == b; } else {
      assert (a + b)[1..] == a[1..] + b;
      MineConcat(a[1..], b, i, c);
    }
  }

  lemma MineOne(cb: Callback, i: nat, c: nat)
    ensures Mine([cb], i, c) == if cb.actor == i && cb.call == c then 1 else 0
  {
    assert [cb][1..] == [];
  }

  /** What a caller has received and not yet answered. */
  function InFlight(x: Caller): seq<Callback> {
    Opt(x.processing) + x.toUser + InHand(x.phase)
  }

  lemma InFlightMine(x: Caller, i: nat, c: nat)
    ensures Mine(InFlight(x), i, c) ==
            Mine(Opt(x.processing), i, c) + Mine(x.toUser, i, c) + Mine(InHand(x.phase), i, c)
  {
    MineConcat(Opt(x.processing) + x.toUser, InHand(x.phase), i, c);
    MineConcat(Opt(x.processing), x.toUser, i, c);
  }

  function WithCaller(i: nat, c: nat): Caller -> nat {
    (x: Caller) => Mine(InFlight(x), i, c)
  }

  function InChannel(s: State, i: nat, c: nat): nat {
    if i < |s.actors| then Mine(s.actors[i].callbacks, i, c) else 0
  }

  /** The callbacks of call `c` that are on their way from actor `i`. */
  function Pending(s: State, i: nat, c: nat): nat {
    InChannel(s, i, c) + Sum(s.callers, WithCaller(i, c))
  }

  predicate Running(s: State, i: nat, c: nat) {
    i < |s.actors| && s.actors[i].phase.Executing? && s.actors[i].phase.call == c
  }

  predicate Started(s: State, i: nat, c: nat) {
    i < |s.actors| && (Running(s, i, c) || c in s.actors[i].answered)
  }

  predicate OwnChannel(s: State, i: nat) {
    i < |s.actors| && (s.actors[i].callbacks != [] ==> s.actors[i].callbacks[0].actor == i)
  }

  predicate Counted(s: State, i: nat, c: nat) {
    && (Running(s, i, c) ==> s.actors[i].unprocessed == Pending(s, i, c))
    && (!Started(s, i, c) ==> Pending(s, i, c) == 0)
  }

  ghost predicate Answerable(s: State) {
    && (forall i: nat :: i < |s.actors| ==> OwnChannel(s, i))
    && (forall i: nat, c: nat :: Counted(s, i, c))
  }

  // ----- Conservation -----

  function Emits(s: State, step: Step, i: nat, c: nat): nat {
    if step == Emit(i) && Running(s, i, c) then 1 else 0
  }

  /** The callbacks that a step answers, or drops together with a caller's channel. */
  function Settles(s: State, step: Step): seq<Callback>
    requires Enabled(s, step)
  {
    match step
    case Process(d) => [s.callers[d].processing.value]
    case Return(d) => s.callers[d].toUser
    case _ => []
  }

  predicate Conserved(s: State, step: Step, i: nat, c: nat)
    requires Enabled(s, step)
  {
    Pending(Apply(s, step), i, c) + Mine(Settles(s, step), i, c) == Pending(s, i, c) + Emits(s, step, i, c)
  }

  lemma AnswerFrame(s: State, cb: Callback)
    ensures var t := Answer(s, cb);
            && t.callers == s.callers && t.results == s.results && |t.actors| == |s.actors|
            && forall i :: 0 <= i < |s.actors| ==> t.actors[i] == s.actors[i].(unprocessed := t.actors[i].unprocessed)
  {
  }

  /** At most one callback waits in a caller's channel. */
  lemma AnswerOne(s: State, cbs: seq<Callback>)
    requires |cbs| <= 1
    ensures AnswerAll(s, cbs) == if cbs == [] then s else Answer(s, cbs[0])
  {
    if cbs != [] {
      assert cbs[1..] == [];
      assert AnswerAll(Answer(s, cbs[0]), cbs[1..]) == Answer(s, cbs[0]);
    }
  }

  /** A step that exchanges caller `d`, and leaves the channel of every actor alone. */
  lemma CallerExchange(s: State, t: State, d: nat, x: Caller, i: nat, c: nat)
    requires d < |s.callers| && t.callers == s.callers[d := x]
    ensures Sum(t.callers, WithCaller(i, c)) + Mine(InFlight(s.callers[d]), i, c) ==
            Sum(s.callers, WithCaller(i, c)) + Mine(InFlight(x), i, c)
  {
    SumUpdate(s.callers, d, x, WithCaller(i, c));
  }

  lemma ActorConserves(s: State, step: Step, i: nat, c: nat)
    requires Inv(s) && Enabled(s, step) && (step.Take? || step.Mark? || step.Finish? || step.Unmark? || step.Emit?)
    ensures Conserved(s, step, i, c)
  {
    if step.Emit? {
      var cb := Callback(step.i, s.actors[step.i].phase.call, s.actors[step.i].phase.count);
      assert s.actors[step.i].callbacks == [] && [] + [cb] == [cb];
      MineOne(cb, i, c);
    }
  }

  lemma ChoiceConserves(s: State, step: Step, i: nat, c: nat)
    requires Inv(s) && Enabled(s, step) && (step.Enter? || step.Check? || step.Send? || step.Lock?)
    ensures Conserved(s, step, i, c)
  {
    var t := Apply(s, step);
    ChoiceChannels(s, step, i, c);
    CallerExchange(s, t, step.c, t.callers[step.c], i, c);
  }

  lemma ChoiceChannels(s: State, step: Step, i: nat, c: nat)
    requires Inv(s) && Enabled(s, step) && (step.Enter? || step.Check? || step.Send? || step.Lock?)
    ensures var t := Apply(s, step);
            && InChannel(t, i, c) == InChannel(s, i, c) && |t.callers| == |s.callers|
            && t.callers == s.callers[step.c := t.callers[step.c]] &&
               InFlight(t.callers[step.c]) == InFlight(s.callers[step.c])
  {
    assert CallerOk(s, step.c);
  }

  lemma ReceiveConserves(s: State, d: nat, i: nat, c: nat)
    requires Inv(s) && Answerable(s) && Enabled(s, Receive(d))
    ensures Conserved(s, Receive(d), i, c)
  {
    var t, cb := Apply(s, Receive(d)), s.actors[s.callers[d].phase.actor].callbacks[0];
    ReceiveChannels(s, d, i, c);
    ReceiveInFlight(s, d);
    MineConcat(InFlight(s.callers[d]), [cb], i, c);
    CallerExchange(s, t, d, t.callers[d], i, c);
  }

  lemma ReceiveChannels(s: State, d: nat, i: nat, c: nat)
    requires Inv(s) && Answerable(s) && Enabled(s, Receive(d))
    ensures InChannel(Apply(s, Receive(d)), i, c) + Mine([s.actors[s.callers[d].phase.actor].callbacks[0]], i, c) ==
            InChannel(s, i, c)
  {
    var j := s.callers[d].phase.actor;
    assert ActorOk(s, j) && OwnChannel(s, j);
    var cb := s.actors[j].callbacks[0];
    assert s.actors[j].callbacks == [cb] && s.actors[j].callbacks[1..] == [];
    MineOne(cb, i, c);
  }

  lemma ReceiveInFlight(s: State, d: nat)
    requires Enabled(s, Receive(d))
    ensures var t, cb := Apply(s, Receive(d)), s.actors[s.callers[d].phase.actor].callbacks[0];
            |t.callers| == |s.callers| && t.callers == s.callers[d := t.callers[d]] &&
            InFlight(t.callers[d]) == InFlight(s.callers[d]) + [cb]
  {
  }

  lemma ForwardConserves(s: State, step: Step, i: nat, c: nat)
    requires Inv(s) && (step.Forward? || step.Accept?) && Enabled(s, step)
    ensures Conserved(s, step, i, c)
  {
    var t := Apply(s, step);
    SameInFlight(s, step);
    CallerExchange(s, t, step.c, t.callers[step.c], i, c);
  }

  lemma SameInFlight(s: State, step: Step)
    requires Inv(s) && (step.Forward? || step.Accept?) && Enabled(s, step)
    ensures InFlight(Apply(s, step).callers[step.c]) == InFlight(s.callers[step.c])
  {
    if step.Accept? {
      assert CallerOk(s, step.c);
      assert s.callers[step.c].toUser == [s.callers[step.c].toUser[0]];
    }
  }

  lemma ProcessConserves(s: State, d: nat, i: nat, c: nat)
    requires Inv(s) && Enabled(s, Process(d))
    ensures Conserved(s, Process(d), i, c)
  {
    var x := s.callers[d];
    var cb := x.processing.value;
    var x' := x.(processing := None, processed := x.processed + [cb]);
    AnswerFrame(PutCaller(s, d, x'), cb);
    assert InFlight(x) == [cb] + InFlight(x');
    MineConcat([cb], InFlight(x'), i, c);
    CallerExchange(s, Apply(s, Process(d)), d, x', i, c);
  }

  lemma ReturnConserves(s: State, d: nat, i: nat, c: nat)
    requires Inv(s) && Enabled(s, Return(d))
    ensures Conserved(s, Return(d), i, c)
  {
    var t := Apply(s, Return(d));
    ReleaseFrame(s, d);
    ReturnFrame(s, d);
    assert InChannel(t, i, c) == InChannel(s, i, c);
    CallerExchange(s, t, d, t.callers[d], i, c);
  }

  lemma ReleaseFrame(s: State, d: nat)
    requires Inv(s) && Enabled(s, Return(d))
    ensures var t := Release(s, d);
            && |t.actors| == |s.actors| &&
               (forall j :: 0 <= j < |s.actors| ==> t.actors[j].callbacks == s.actors[j].callbacks)
            && |t.callers| == |s.callers| && t.callers == s.callers[d := t.callers[d]]
            && InFlight(t.callers[d]) == [] && InFlight(s.callers[d]) == s.callers[d].toUser
  {
  }

  lemma ReturnFrame(s: State, d: nat)
    requires Inv(s) && Enabled(s, Return(d))
    ensures var t := Apply(s, Return(d));
            && t.callers == Release(s, d).callers && |t.actors| == |s.actors|
            && forall j :: 0 <= j < |s.actors| ==> t.actors[j].callbacks == Release(s, d).actors[j].callbacks
  {
    assert CallerOk(s, d);
    var cbs := s.callers[d].toUser;
    AnswerOne(Release(s, d), cbs);
    if cbs != [] { AnswerFrame(Release(s, d), cbs[0]); }
  }

  /** Callbacks are conserved: a step that does not emit one of the call adds none to those on their way, and only
      answering or dropping one takes it away. */
  lemma StepConserves(s: State, step: Step, i: nat, c: nat)
    requires Inv(s) && Answerable(s) && Enabled(s, step)
    ensures Conserved(s, step, i, c)
  {
    if step.Take? || step.Mark? || step.Finish? || step.Unmark? || step.Emit? {
      ActorConserves(s, step, i, c);
    } else if step.Enter? || step.Check? || step.Send? || step.Lock? {
      ChoiceConserves(s, step, i, c);
    } else if step.Receive? {
      ReceiveConserves(s, step.c, i, c);
    } else if step.Forward? || step.Accept? {
      ForwardConserves(s, step, i, c);
    } else if step.Process? {
      ProcessConserves(s, step.c, i, c);
    } else {
      ReturnConserves(s, step.c, i, c);
    }
  }

  // ----- The counters -----

  /** How a step changes the counter of a function that runs before and after it. */
  lemma CounterStep(s: State, step: Step, i: nat, c: nat)
    requires Inv(s) && Enabled(s, step) && Running(s, i, c) && Running(Apply(s, step), i, c)
    requires Mine(Settles(s, step), i, c) <= s.actors[i].unprocessed
    ensures Apply(s, step).actors[i].unprocessed + Mine(Settles(s, step), i, c) ==
            s.actors[i].unprocessed + Emits(s, step, i, c)
  {
    if step.Process? {
      MineOne(s.callers[step.c].processing.value, i, c);
    } else if step.Return? {
      ReturnCounter(s, step.c, i, c);
    }
  }

  lemma ReturnCounter(s: State, d: nat, i: nat, c: nat)
    requires Inv(s) && Enabled(s, Return(d)) && Running(s, i, c)
    requires Mine(s.callers[d].toUser, i, c) <= s.actors[i].unprocessed
    ensures var t := Apply(s, Return(d));
            i < |t.actors| && t.actors[i].unprocessed + Mine(s.callers[d].toUser, i, c) == s.actors[i].unprocessed
  {
    assert CallerOk(s, d);
    var cbs := s.callers[d].toUser;
    AnswerOne(Release(s, d), cbs);
    if cbs != [] {
      assert cbs == [cbs[0]];
      MineOne(cbs[0], i, c);
    }
  }

  /** A call that starts has nothing on its way. */
  lemma MarkCounts(s: State, j: nat, i: nat, c: nat)
    requires Inv(s) && Answerable(s) && Enabled(s, Mark(j))
    ensures Counted(Apply(s, Mark(j)), i, c)
  {
    assert Counted(s, i, c);
    StepConserves(s, Mark(j), i, c);
    if i == j && c == s.actors[j].phase.call {
      assert ActorOk(s, j);
      var a := s.actors[j];
      assert a.queued[|a.answered|] == c;
      forall k | 0 <= k < |a.answered| ensures a.answered[k] != c { assert a.queued[k] == a.answered[k]; }
    }
  }

  lemma StepCounts(s: State, step: Step, i: nat, c: nat)
    requires Inv(s) && Answerable(s) && Enabled(s, step) && !step.Mark?
    ensures Counted(Apply(s, step), i, c)
  {
    assert Counted(s, i, c);
    StepConserves(s, step, i, c);
    StepStarted(s, step, i, c);
    if Running(Apply(s, step), i, c) {
      CounterStep(s, step, i, c);
    }
  }

  lemma StepStarted(s: State, step: Step, i: nat, c: nat)
    requires Inv(s) && Enabled(s, step)
    ensures Started(s, i, c) ==> Started(Apply(s, step), i, c)
    ensures !step.Mark? && Running(Apply(s, step), i, c) ==> Running(s, i, c)
  {
    if step.Return? {
      assert CallerOk(s, step.c);
      var cbs := s.callers[step.c].toUser;
      AnswerOne(Release(s, step.c), cbs);
      if cbs != [] { AnswerFrame(Release(s, step.c), cbs[0]); }
    }
  }

  lemma StepChannel(s: State, step: Step, i: nat)
    requires Inv(s) && Answerable(s) && Enabled(s, step) && i < |Apply(s, step).actors|
    ensures OwnChannel(Apply(s, step), i)
  {
    if i < |s.actors| { assert OwnChannel(s, i) && ActorOk(s, i); }
    if step.Return? {
      assert CallerOk(s, step.c);
      var cbs := s.callers[step.c].toUser;
      AnswerOne(Release(s, step.c), cbs);
      if cbs != [] { AnswerFrame(Release(s, step.c), cbs[0]); }
    }
  }

  lemma StepAnswerable(s: State, step: Step)
    requires Inv(s) && Answerable(s) && Enabled(s, step)
    ensures Answerable(Apply(s, step))
  {
    forall i: nat | i < |Apply(s, step).actors| ensures OwnChannel(Apply(s, step), i) { StepChannel(s, step, i); }
    forall i: nat, c: nat ensures Counted(Apply(s, step), i, c) {
      if step.Mark? { MarkCounts(s, step.i, i, c); } else { StepCounts(s, step, i, c); }
    }
  }

  lemma {:induction false} SumZero(n: nat, i: nat, c: nat)
    ensures Sum(Init(n).callers, WithCaller(i, c)) == 0
  {
    SumAtMost(Init(n).callers, WithCaller(i, c), 0);
  }

  lemma {:induction false} RunAnswerable(s: State, steps: seq<Step>)
    requires Inv(s) && Answerable(s) && CanRun(s, steps)
    ensures Inv(Run(s, steps)) && Answerable(Run(s, steps))
    decreases |steps|
  {
    if steps != [] {
      StepInv(s, steps[0]);
      StepAnswerable(s, steps[0]);
      RunAnswerable(Apply(s, steps[0]), steps[1..]);
    }
  }

  /** In every run, a running function waits for exactly those of its callbacks that are in its actor's channel or with
      a caller. */
  lemma UnansweredAreOnTheirWay(n: nat, steps: seq<Step>, i: nat)
    requires CanRun(Init(n), steps)
    requires var s := Run(Init(n), steps); i < |s.actors| && s.actors[i].phase.Executing?
    ensures var s := Run(Init(n), steps); s.actors[i].unprocessed == Pending(s, i, s.actors[i].phase.call)
  {
    InitAnswerable(n);
    RunAnswerable(Init(n), steps);
    var s := Run(Init(n), steps);
    assert Counted(s, i, s.actors[i].phase.call);
  }

  lemma InitAnswerable(n: nat)
    ensures Inv(Init(n)) && Answerable(Init(n))
  {
    InitInv(n);
    forall i: nat, c: nat ensures Counted(Init(n), i, c) { SumZero(n, i, c); }
  }
}
