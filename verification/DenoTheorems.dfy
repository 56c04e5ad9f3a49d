/** What callers of the Deno actor pool can rely on. */
module DenoTheorems {
  import opened Sums
  import opened Wrappers
  import opened DenoProtocol
  import opened DenoInvariant
  import opened DenoAnswers

  // ----- Any interleaving of any number of callers -----

  /** One call at a time, answered in queueing order; a running actor is busy; callbacks are
      received in emission order, each once, or still queued; a returned result is the one
      computed for that very call. */
  lemma AnyInterleaving(n: nat, steps: seq<Step>, i: nat, c: nat)
    requires CanRun(Init(n), steps)
    requires var s := Run(Init(n), steps); i < |s.actors| && c < |s.callers|
    ensures var s := Run(Init(n), steps); var a := s.actors[i]; var x := s.callers[c];
            && a.queued == a.answered + Current(a.phase) + a.queue && Distinct(a.queued)
            && (a.phase.Executing? ==> a.busy)
            && a.emitted == Callbacks(a.forwarded) + a.callbacks
            && (x.phase.Returned? ==> c in s.results && x.phase.value == s.results[c].value)
            && (x.phase.Returned? ==> x.phase.actor < |s.actors| && c in s.actors[x.phase.actor].answered)
  {
    InitInv(n);
    RunInv(Init(n), steps);
    var s := Run(Init(n), steps);
    assert ActorOk(s, i) && CallerOk(s, c);
    if s.callers[c].phase.Returned? { assert ActorOk(s, s.callers[c].phase.actor); }
  }

  /** `get_executor` never picks an actor that is running a function when it looks. */
  lemma PickedActorIsNotRunning(s: State, c: nat)
    requires Inv(s) && Enabled(s, Check(c))
    ensures var p := Apply(s, Check(c)).callers[c].phase;
            p.Sending? && p.actor < |s.actors| ==> !s.actors[p.actor].phase.Executing?
  {
    assert CallerOk(s, c);
    var k := s.callers[c].phase.cursor;
    if k < |s.actors| { assert ActorOk(s, k); }
  }

  // ----- No reachable state is stuck -----

  predicate HasReturned(s: State, c: nat) {
    c < |s.callers| && s.callers[c].phase.Returned?
  }

  /** A function returns only once all its callbacks were answered. */
  predicate Patient(s: State, step: Step) {
    step.Finish? ==> step.i < |s.actors| && s.actors[step.i].unprocessed == 0
  }

  /** A step that needs no function to emit a callback, or to return before its callbacks are answered. */
  predicate Progress(s: State, step: Step) {
    Enabled(s, step) && Patient(s, step) && !step.Emit?
  }

  /** A caller with a callback in flight can move it on. */
  lemma CarrierMoves(s: State, d: nat) returns (step: Step)
    requires Inv(s) && d < |s.callers| && InFlight(s.callers[d]) != []
    ensures Progress(s, step)
  {
    var x := s.callers[d];
    assert CallerOk(s, d);
    step := if x.processing.Some? then Process(d) else if x.toUser != [] then Accept(d) else Forward(d);
  }

  /** The holder of the lock of an actor whose channel has a callback. */
  lemma ReceiverMoves(s: State, i: nat) returns (step: Step)
    requires Inv(s) && i < |s.actors| && s.actors[i].lock.Some? && s.actors[i].callbacks != []
    ensures Progress(s, step)
  {
    assert ActorOk(s, i);
    var d := s.actors[i].lock.value;
    if InFlight(s.callers[d]) != [] {
      step := CarrierMoves(s, d);
    } else {
      assert !s.callers[d].phase.Forwarding? && s.callers[d].processing.None?;
      step := Receive(d);
    }
  }

  /** A callback in the channel of a running function is received, or someone moves who is in the way. */
  lemma ChannelMoves(s: State, i: nat) returns (step: Step)
    requires Inv(s) && i < |s.actors| && s.actors[i].phase.Executing? && s.actors[i].callbacks != []
    ensures Progress(s, step)
  {
    RunningCallerWaits(s, i);
    RunningUnanswered(s, i);
    var c := s.actors[i].phase.call;
    assert CallerOk(s, c);
    if s.actors[i].lock.Some? {
      step := ReceiverMoves(s, i);
    } else if InFlight(s.callers[c]) != [] {
      step := CarrierMoves(s, c);
    } else {
      assert s.callers[c].processing.None?;
      step := Lock(c);
    }
  }

  /** The answer to a callback of a running function can get closer. */
  lemma AnswerMoves(s: State, i: nat) returns (step: Step)
    requires Inv(s) && Answerable(s) && i < |s.actors| && s.actors[i].phase.Executing? && s.actors[i].unprocessed > 0
    ensures Progress(s, step)
  {
    var c := s.actors[i].phase.call;
    assert Counted(s, i, c);
    if s.actors[i].callbacks != [] {
      step := ChannelMoves(s, i);
    } else {
      var d := SumPositive(s.callers, WithCaller(i, c));
      step := CarrierMoves(s, d);
    }
  }

  /** An actor with a call in hand or in its queue can move, or the answer it waits for can. */
  lemma ActorMoves(s: State, i: nat) returns (step: Step)
    requires Inv(s) && Answerable(s) && i < |s.actors| && (s.actors[i].queue != [] || !s.actors[i].phase.Idle?)
    ensures Progress(s, step)
  {
    match s.actors[i].phase
    case Idle => step := Take(i);
    case Taken(_) => step := Mark(i);
    case Executing(_, _) =>
      if s.actors[i].unprocessed == 0 {
        step := Finish(i, "");
      } else {
        step := AnswerMoves(s, i);
      }
    case Answered(_) => step := Unmark(i);
  }

  /** The holder of an actor's callback lock, or the actor, can move. */
  lemma HolderMoves(s: State, d: nat) returns (step: Step)
    requires Inv(s) && Answerable(s) && d < |s.callers| &&
             (s.callers[d].phase.Listening? || s.callers[d].phase.Forwarding?)
    ensures Progress(s, step)
  {
    var x := s.callers[d];
    var i := x.phase.actor;
    assert CallerOk(s, d) && ActorOk(s, i);
    if InFlight(x) != [] {
      step := CarrierMoves(s, d);
    } else if d in s.results {
      step := Return(d);
    } else {
      var a := s.actors[i];
      assert d in a.queued && d !in a.answered;
      assert d in Current(a.phase) || d in a.queue;
      step := ActorMoves(s, i);
    }
  }

  lemma SomeoneMoves(s: State, c: nat) returns (step: Step)
    requires Inv(s) && Answerable(s) && c < |s.callers| && !HasReturned(s, c)
    ensures Progress(s, step)
  {
    var x := s.callers[c];
    assert CallerOk(s, c);
    if InFlight(x) != [] {
      step := CarrierMoves(s, c);
      return;
    }
    match x.phase
    case Arriving =>
      if s.poolLock.None? {
        step := Enter(c);
      } else {
        assert CallerOk(s, s.poolLock.value);
        step := Check(s.poolLock.value);
      }
    case Scanning(_) => step := Check(c);
    case Sending(i) =>
      if s.actors[i].queue == [] {
        step := Send(c);
      } else {
        step := ActorMoves(s, i);
      }
    case Waiting(i) =>
      assert ActorOk(s, i);
      if s.actors[i].lock.None? {
        step := Lock(c);
      } else {
        step := HolderMoves(s, s.actors[i].lock.value);
      }
    case _ => step := HolderMoves(s, c);
  }

  lemma {:induction false} SameCallers(s: State, steps: seq<Step>)
    requires CanRun(s, steps)
    ensures |Run(s, steps).callers| == |s.callers|
    decreases |steps|
  {
    if steps != [] {
      if steps[0].Return? { SameCount(Release(s, steps[0].c), s.callers[steps[0].c].toUser); }
      SameCallers(Apply(s, steps[0]), steps[1..]);
    }
  }

  lemma {:induction false} SameCount(s: State, cbs: seq<Callback>)
    ensures |AnswerAll(s, cbs).callers| == |s.callers|
    decreases |cbs|
  {
    if cbs != [] { SameCount(Answer(s, cbs[0]), cbs[1..]); }
  }

  /** Whatever functions have done so far: as long as some caller has not returned, a step is possible that
      neither emits a callback nor lets a function return before all its callbacks were answered. */
  lemma NoDeadlock(n: nat, steps: seq<Step>, c: nat) returns (step: Step)
    requires CanRun(Init(n), steps) && c < n && !HasReturned(Run(Init(n), steps), c)
    ensures Progress(Run(Init(n), steps), step) && Synchronous(Run(Init(n), steps), step)
  {
    InitAnswerable(n);
    RunAnswerable(Init(n), steps);
    SameCallers(Init(n), steps);
    step := SomeoneMoves(Run(Init(n), steps), c);
  }

  // ----- Patient functions -----

  ghost predicate PatientRun(s: State, steps: seq<Step>)
    decreases |steps|
  {
    steps == [] || (Enabled(s, steps[0]) && Patient(s, steps[0]) && PatientRun(Apply(s, steps[0]), steps[1..]))
  }

  lemma {:induction false} PatientRunRuns(s: State, steps: seq<Step>)
    requires PatientRun(s, steps)
    ensures CanRun(s, steps)
    decreases |steps|
  {
    if steps != [] { PatientRunRuns(Apply(s, steps[0]), steps[1..]); }
  }

  /** Only running calls have callbacks on their way. */
  ghost predicate OnlyRunning(s: State) {
    forall i: nat, c: nat :: !Running(s, i, c) ==> Pending(s, i, c) == 0
  }

  lemma PatientStep(s: State, step: Step)
    requires Inv(s) && Answerable(s) && OnlyRunning(s) && Enabled(s, step) && Patient(s, step)
    ensures OnlyRunning(Apply(s, step))
  {
    forall i: nat, c: nat | !Running(Apply(s, step), i, c) ensures Pending(Apply(s, step), i, c) == 0 {
      StepConserves(s, step, i, c);
      assert Counted(s, i, c);
      if Running(s, i, c) { StopsByFinish(s, step, i, c); }
    }
  }

  lemma StopsByFinish(s: State, step: Step, i: nat, c: nat)
    requires Inv(s) && Enabled(s, step) && Running(s, i, c) && !Running(Apply(s, step), i, c)
    ensures step.Finish? && step.i == i
  {
    if step.Return? {
      assert CallerOk(s, step.c);
      var cbs := s.callers[step.c].toUser;
      AnswerOne(Release(s, step.c), cbs);
      if cbs != [] { AnswerFrame(Release(s, step.c), cbs[0]); }
    }
  }

  lemma {:induction false} PatientRunKeeps(s: State, steps: seq<Step>)
    requires Inv(s) && Answerable(s) && OnlyRunning(s) && PatientRun(s, steps) && CanRun(s, steps)
    ensures var t := Run(s, steps); Inv(t) && Answerable(t) && OnlyRunning(t)
    decreases |steps|
  {
    if steps != [] {
      StepInv(s, steps[0]);
      StepAnswerable(s, steps[0]);
      PatientStep(s, steps[0]);
      PatientRunKeeps(Apply(s, steps[0]), steps[1..]);
    }
  }

  lemma PatientlyReached(n: nat, steps: seq<Step>)
    requires PatientRun(Init(n), steps) && CanRun(Init(n), steps)
    ensures var s := Run(Init(n), steps); Inv(s) && Answerable(s) && OnlyRunning(s)
  {
    InitAnswerable(n);
    forall i: nat, c: nat ensures Pending(Init(n), i, c) == 0 { SumZero(n, i, c); }
    PatientRunKeeps(Init(n), steps);
  }

  lemma {:induction false} MineHas(cbs: seq<Callback>, k: nat)
    requires k < |cbs|
    ensures Mine(cbs, cbs[k].actor, cbs[k].call) > 0
  {
    if k > 0 { MineHas(cbs[1..], k - 1); }
  }

  /** With patient functions, a received callback was emitted by the call that the actor is running, so the receiver
      gets its own callback exactly when the actor is running its call. */
  lemma WhoseCallback(n: nat, steps: seq<Step>, c: nat)
    requires PatientRun(Init(n), steps) && CanRun(Init(n), steps) && Enabled(Run(Init(n), steps), Receive(c))
    ensures var s := Run(Init(n), steps); var i := s.callers[c].phase.actor; var cb := s.actors[i].callbacks[0];
            cb.actor == i && Running(s, i, cb.call) && (cb.call == c <==> Running(s, i, c))
  {
    PatientlyReached(n, steps);
    var s := Run(Init(n), steps);
    var i := s.callers[c].phase.actor;
    var cbs := s.actors[i].callbacks;
    assert OwnChannel(s, i);
    MineHas(cbs, 0);
    assert Pending(s, i, cbs[0].call) > 0;
  }

  /** With patient functions, the callback that a returning caller drops, if any, is not its own: it belongs to a call
      that still runs, and gets an error for an answer. */
  lemma LostIsAnothers(n: nat, steps: seq<Step>, c: nat)
    requires PatientRun(Init(n), steps) && CanRun(Init(n), steps) && Enabled(Run(Init(n), steps), Return(c))
    requires Run(Init(n), steps).callers[c].toUser != []
    ensures var s := Run(Init(n), steps); var cb := s.callers[c].toUser[0]; var t := Apply(s, Return(c));
            && c < |t.callers| && t.callers[c].lost == [cb] && cb.call != c
            && Running(s, cb.actor, cb.call) && Running(t, cb.actor, cb.call)
            && t.actors[cb.actor].unprocessed + 1 == s.actors[cb.actor].unprocessed
  {
    PatientlyReached(n, steps);
    var s := Run(Init(n), steps);
    assert CallerOk(s, c);
    var cbs := s.callers[c].toUser;
    var cb := cbs[0];
    assert cbs == [cb];
    MineOne(cb, cb.actor, cb.call);
    InFlightMine(s.callers[c], cb.actor, cb.call);
    SumAtLeast(s.callers, c, WithCaller(cb.actor, cb.call));
    assert Pending(s, cb.actor, cb.call) > 0 && Running(s, cb.actor, cb.call);
    assert Counted(s, cb.actor, cb.call);
    RunningUnanswered(s, cb.actor);
    ReturnCounter(s, c, cb.actor, cb.call);
    AnswerOne(Release(s, c), cbs);
    AnswerFrame(Release(s, c), cb);
  }

  lemma RunningUnanswered(s: State, i: nat)
    requires Inv(s) && i < |s.actors| && s.actors[i].phase.Executing?
    ensures s.actors[i].phase.call !in s.results
  {
    assert ActorOk(s, i);
    var a := s.actors[i];
    assert a.queued[|a.answered|] == a.phase.call;
    forall k | 0 <= k < |a.answered| ensures a.answered[k] != a.phase.call { assert a.queued[k] == a.answered[k]; }
  }

  // ----- Synchronous callbacks, one outstanding caller per actor -----

  /** The function also emits the next callback only once the last one was answered. */
  predicate Synchronous(s: State, step: Step) {
    Patient(s, step) && (step.Emit? ==> step.i < |s.actors| && s.actors[step.i].unprocessed == 0)
  }

  predicate Outstanding(p: CallerPhase, i: nat) {
    p == Sending(i) || (SentTo(p, i) && !p.Returned?)
  }

  /** No two callers wait on one actor. */
  ghost predicate Solo(s: State) {
    forall i, c, d :: 0 <= c < d < |s.callers| ==>
      !(Outstanding(s.callers[c].phase, i) && Outstanding(s.callers[d].phase, i))
  }

  ghost predicate SoloRun(s: State, steps: seq<Step>)
    decreases |steps|
  {
    Solo(s) &&
    (steps == [] || (Enabled(s, steps[0]) && Synchronous(s, steps[0]) && SoloRun(Apply(s, steps[0]), steps[1..])))
  }

  lemma {:induction false} SoloRunRuns(s: State, steps: seq<Step>)
    requires SoloRun(s, steps)
    ensures CanRun(s, steps)
    decreases |steps|
  {
    if steps != [] { SoloRunRuns(Apply(s, steps[0]), steps[1..]); }
  }

  function CallbacksOf(i: nat, c: nat, n: nat): (r: seq<Callback>)
    ensures |r| == n && forall k :: 0 <= k < n ==> r[k] == Callback(i, c, k)
  {
    seq(n, (k: nat) => Callback(i, c, k))
  }

  /** The running call's callbacks are with its own caller or in the channel; none is in flight
      between calls. */
  predicate SoloActor(s: State, i: nat) {
    && i < |s.actors|
    && var a := s.actors[i];
    if a.phase.Executing? then
      var c, n := a.phase.call, a.phase.count;
      && c < |s.callers| && c !in s.results
      && Held(s.callers[c]) + a.callbacks == CallbacksOf(i, c, n)
      && |s.callers[c].processed| + a.unprocessed == n && a.unprocessed <= 1
    else a.callbacks == []
  }

  predicate SoloCaller(s: State, c: nat) {
    && c < |s.callers|
    && var x := s.callers[c];
    if c in s.results then
      !Unsent(x.phase) && Held(x) == x.processed && x.processed == CallbacksOf(x.phase.actor, c, s.results[c].count)
    else if !Unsent(x.phase) && x.phase.actor < |s.actors| && s.actors[x.phase.actor].phase.Executing?
            && s.actors[x.phase.actor].phase.call == c then true
    else Held(x) == []
  }

  ghost predicate SoloInv(s: State) {
    && (forall i: nat :: i < |s.actors| ==> SoloActor(s, i))
    && (forall c: nat :: c < |s.callers| ==> SoloCaller(s, c))
  }

  /** The caller of the running call is waiting on the actor. */
  lemma RunningCallerWaits(s: State, i: nat)
    requires Inv(s) && i < |s.actors| && s.actors[i].phase.Executing?
    ensures var c := s.actors[i].phase.call;
            c < |s.callers| && SentTo(s.callers[c].phase, i) && c in s.actors[i].queued
            && (c !in s.results ==> Outstanding(s.callers[c].phase, i))
  {
    assert ActorOk(s, i);
    var a := s.actors[i];
    var c := a.phase.call;
    assert a.queued[|a.answered|] == c;
    assert CallerOk(s, c);
  }

  /** A step that leaves all actors' calls, callbacks and counters alone, and what caller `c`
      holds. */
  lemma QuietStep(s: State, s': State, c: nat)
    requires Inv(s) && SoloInv(s) && c < |s.callers| == |s'.callers| && s'.results == s.results
    requires |s.actors| <= |s'.actors|
    requires forall i :: 0 <= i < |s.actors| ==>
               s'.actors[i].phase == s.actors[i].phase && s'.actors[i].callbacks == s.actors[i].callbacks
               && s'.actors[i].unprocessed == s.actors[i].unprocessed
    requires forall i :: |s.actors| <= i < |s'.actors| ==> s'.actors[i] == NEW_ACTOR
    requires forall d :: 0 <= d < |s.callers| && d != c ==> s'.callers[d] == s.callers[d]
    requires var x, x' := s.callers[c], s'.callers[c];
             && Held(x') == Held(x) && x'.processed == x.processed
             && (!Unsent(x.phase) ==> !Unsent(x'.phase) && x'.phase.actor == x.phase.actor)
    ensures SoloInv(s')
  {
    assert CallerOk(s, c);
    forall i: nat | i < |s'.actors| ensures SoloActor(s', i) {
      if i < |s.actors| { assert SoloActor(s, i); }
    }
    forall d: nat | d < |s'.callers| ensures SoloCaller(s', d) { assert SoloCaller(s, d) && CallerOk(s, d); }
  }

  lemma SoloTakeMark(s: State, i: nat, step: Step)
    requires Inv(s) && SoloInv(s) && step in {Take(i), Mark(i), Unmark(i)} && Enabled(s, step)
    ensures SoloInv(Apply(s, step))
  {
    var s' := Apply(s, step);
    assert ActorOk(s, i) && SoloActor(s, i);
    if step.Mark? {
      var c := s.actors[i].phase.call;
      assert s.actors[i].queued[|s.actors[i].answered|] == c;
      assert CallerOk(s, c) && SoloCaller(s, c);
      forall k | 0 <= k < |s.actors[i].answered| ensures s.actors[i].answered[k] != c {
        assert s.actors[i].queued[k] == s.actors[i].answered[k];
      }
      assert c !in s.results;
    }
    forall j: nat | j < |s'.actors| ensures SoloActor(s', j) { assert SoloActor(s, j); }
    forall d: nat | d < |s'.callers| ensures SoloCaller(s', d) { assert SoloCaller(s, d) && CallerOk(s, d); }
  }

  lemma SoloEmit(s: State, i: nat)
    requires Inv(s) && SoloInv(s) && Enabled(s, Emit(i)) && Synchronous(s, Emit(i))
    ensures SoloInv(Apply(s, Emit(i)))
  {
    var s' := Apply(s, Emit(i));
    assert ActorOk(s, i) && SoloActor(s, i);
    var a := s.actors[i];
    var c, n := a.phase.call, a.phase.count;
    assert CallbacksOf(i, c, n + 1) == CallbacksOf(i, c, n) + [Callback(i, c, n)];
    forall j: nat | j < |s'.actors| ensures SoloActor(s', j) { assert SoloActor(s, j); }
    forall d: nat | d < |s'.callers| ensures SoloCaller(s', d) { assert SoloCaller(s, d) && CallerOk(s, d); }
  }

  /** When the function returns, its own caller has processed everything. */
  lemma SoloFinish(s: State, i: nat, v: Value)
    requires Inv(s) && SoloInv(s) && Enabled(s, Finish(i, v)) && Synchronous(s, Finish(i, v))
    ensures SoloInv(Apply(s, Finish(i, v)))
  {
    var s' := Apply(s, Finish(i, v));
    assert ActorOk(s, i) && SoloActor(s, i);
    RunningCallerWaits(s, i);
    var c := s.actors[i].phase.call;
    var x := s.callers[c];
    assert Held(x) == x.processed + (Opt(x.processing) + x.toUser + InHand(x.phase));
    forall j: nat | j < |s'.actors| ensures SoloActor(s', j) {
      assert SoloActor(s, j);
      if j != i && s.actors[j].phase.Executing? { RunningCallerWaits(s, j); }
    }
    forall d: nat | d < |s'.callers| ensures SoloCaller(s', d) { assert SoloCaller(s, d) && CallerOk(s, d); }
  }

  /** The caller that holds the lock when a callback arrives is the one whose call is running. */
  lemma ReceiverIsRunning(s: State, c: nat)
    requires Inv(s) && SoloInv(s) && Solo(s) && Enabled(s, Receive(c))
    ensures var i := s.callers[c].phase.actor;
            && s.actors[i].phase.Executing? && s.actors[i].phase.call == c
            && |s.actors[i].callbacks| == 1 && s.actors[i].callbacks[0].call == c
  {
    var i := s.callers[c].phase.actor;
    assert ActorOk(s, i) && SoloActor(s, i);
    RunningCallerWaits(s, i);
    var d := s.actors[i].phase.call;
    assert !(Outstanding(s.callers[c].phase, i) && Outstanding(s.callers[d].phase, i)) || c == d;
    assert (Held(s.callers[d]) + s.actors[i].callbacks)[|Held(s.callers[d])|] == s.actors[i].callbacks[0];
  }

  lemma SoloReceive(s: State, c: nat)
    requires Inv(s) && SoloInv(s) && Solo(s) && Enabled(s, Receive(c))
    ensures SoloInv(Apply(s, Receive(c)))
  {
    var s' := Apply(s, Receive(c));
    var i := s.callers[c].phase.actor;
    ReceiverIsRunning(s, c);
    assert SoloActor(s, i) && CallerOk(s, c);
    var cb := s.actors[i].callbacks[0];
    assert s.actors[i].callbacks == [cb] && s'.actors[i].callbacks == [];
    assert Held(s'.callers[c]) == Held(s.callers[c]) + [cb];
    assert SoloActor(s', i);
    forall j: nat | j < |s'.actors| ensures SoloActor(s', j) {
      assert SoloActor(s, j);
      if j != i && s.actors[j].phase.Executing? { RunningCallerWaits(s, j); }
    }
    forall d: nat | d < |s'.callers| ensures SoloCaller(s', d) { assert SoloCaller(s, d) && CallerOk(s, d); }
  }

  lemma SoloProcess(s: State, c: nat)
    requires Inv(s) && SoloInv(s) && Enabled(s, Process(c))
    ensures SoloInv(Apply(s, Process(c)))
  {
    var s' := Apply(s, Process(c));
    assert CallerOk(s, c) && SoloCaller(s, c);
    var x := s.callers[c];
    var cb := x.processing.value;
    assert Held(x)[|x.processed|] == cb && c !in s.results;
    var i := x.phase.actor;
    assert SoloActor(s, i) && ActorOk(s, i);
    assert s.actors[i].phase.Executing? && s.actors[i].phase.call == c;
    assert (Held(x) + s.actors[i].callbacks)[|x.processed|] == cb;
    assert Held(s'.callers[c]) == Held(x);
    forall j: nat | j < |s'.actors| ensures SoloActor(s', j) {
      assert SoloActor(s, j);
      if j != i && s.actors[j].phase.Executing? { RunningCallerWaits(s, j); }
    }
    forall d: nat | d < |s'.callers| ensures SoloCaller(s', d) { assert SoloCaller(s, d) && CallerOk(s, d); }
  }

  lemma SoloForward(s: State, c: nat, step: Step)
    requires Inv(s) && SoloInv(s) && step in {Forward(c), Accept(c)} && Enabled(s, step)
    ensures SoloInv(Apply(s, step))
  {
    assert CallerOk(s, c);
    assert Held(Apply(s, step).callers[c]) == Held(s.callers[c]);
    QuietStep(s, Apply(s, step), c);
  }

  lemma SoloLock(s: State, c: nat, step: Step)
    requires Inv(s) && SoloInv(s) && step in {Enter(c), Check(c), Send(c), Lock(c)} && Enabled(s, step)
    ensures SoloInv(Apply(s, step))
  {
    assert CallerOk(s, c);
    QuietStep(s, Apply(s, step), c);
  }

  /** A returning caller has processed everything it received. */
  lemma SoloReturn(s: State, c: nat)
    requires Inv(s) && SoloInv(s) && Enabled(s, Return(c))
    ensures var t := Apply(s, Return(c)); SoloInv(t) && c < |t.callers| && t.callers[c].lost == []
  {
    assert CallerOk(s, c) && SoloCaller(s, c);
    var x := s.callers[c];
    assert x.toUser == [] by { assert |Held(x)| == |x.processed|; }
    QuietStep(s, Apply(s, Return(c)), c);
  }

  lemma SoloStep(s: State, step: Step)
    requires Inv(s) && SoloInv(s) && Solo(s) && Enabled(s, step) && Synchronous(s, step)
    ensures SoloInv(Apply(s, step))
  {
    match step
    case Take(i) => SoloTakeMark(s, i, step);
    case Mark(i) => SoloTakeMark(s, i, step);
    case Unmark(i) => SoloTakeMark(s, i, step);
    case Emit(i) => SoloEmit(s, i);
    case Finish(i, v) => SoloFinish(s, i, v);
    case Receive(c) => SoloReceive(s, c);
    case Process(c) => SoloProcess(s, c);
    case Forward(c) => SoloForward(s, c, step);
    case Accept(c) => SoloForward(s, c, step);
    case Enter(c) => SoloLock(s, c, step);
    case Check(c) => SoloLock(s, c, step);
    case Send(c) => SoloLock(s, c, step);
    case Lock(c) => SoloLock(s, c, step);
    case Return(c) => SoloReturn(s, c);
  }

  lemma {:induction false} SoloRunInv(s: State, steps: seq<Step>)
    requires Inv(s) && SoloInv(s) && SoloRun(s, steps) && CanRun(s, steps)
    ensures Inv(Run(s, steps)) && SoloInv(Run(s, steps))
    decreases |steps|
  {
    if steps != [] {
      StepInv(s, steps[0]);
      SoloStep(s, steps[0]);
      SoloRunInv(Apply(s, steps[0]), steps[1..]);
    }
  }

  /** With synchronous callbacks and one outstanding caller per actor, in every run a call that
      has returned had all its callbacks handled by its own caller's processor, in emission
      order, and that processor handled nothing else. */
  lemma OwnCallbacksInOrder(n: nat, steps: seq<Step>, c: nat)
    requires SoloRun(Init(n), steps) && CanRun(Init(n), steps)
    requires HasReturned(Run(Init(n), steps), c)
    ensures var s := Run(Init(n), steps); var x := s.callers[c];
            && c in s.results && x.phase.value == s.results[c].value
            && x.processed == CallbacksOf(x.phase.actor, c, s.results[c].count) && x.lost == []
  {
    InitInv(n);
    SoloRunInv(Init(n), steps);
    var s := Run(Init(n), steps);
    assert CallerOk(s, c) && SoloCaller(s, c);
  }

  /** Even at the moment the result is sent, nothing is left to process. */
  lemma NothingPendingAtResult(n: nat, steps: seq<Step>, i: nat, v: Value)
    requires SoloRun(Init(n), steps) && CanRun(Init(n), steps)
    requires Enabled(Run(Init(n), steps), Finish(i, v)) && Synchronous(Run(Init(n), steps), Finish(i, v))
    ensures var s := Run(Init(n), steps); var a := s.actors[i];
            && a.callbacks == [] && a.phase.call < |s.callers|
            && s.callers[a.phase.call].processed == CallbacksOf(i, a.phase.call, a.phase.count)
  {
    InitInv(n);
    SoloRunInv(Init(n), steps);
    var s := Run(Init(n), steps);
    assert SoloActor(s, i);
    var x := s.callers[s.actors[i].phase.call];
    assert Held(x) == x.processed + (Opt(x.processing) + x.toUser + InHand(x.phase));
  }
}
