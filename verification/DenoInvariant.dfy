/** What holds in every state of every run of the Deno actor pool. */
module DenoInvariant {
  import opened Wrappers
  import opened DenoProtocol

  predicate Distinct(s: seq<nat>) {
    forall i, j :: 0 <= i < j < |s| ==> s[i] != s[j]
  }

  /** The call an actor has taken and not yet answered. */
  function Current(p: ActorPhase): seq<nat> {
    match p
    case Taken(c) => [c]
    case Executing(c, _) => [c]
    case _ => []
  }

  function Callbacks(fs: seq<(Callback, nat)>): (r: seq<Callback>)
    ensures |r| == |fs|
  {
    seq(|fs|, i requires 0 <= i < |fs| => fs[i].0)
  }

  /** The callbacks that one caller received, in order. */
  function ReceivedBy(fs: seq<(Callback, nat)>, c: nat): seq<Callback> {
    if fs == [] then []
    else ReceivedBy(fs[..|fs| - 1], c) + (if fs[|fs| - 1].1 == c then [fs[|fs| - 1].0] else [])
  }

  lemma ReceivedSnoc(fs: seq<(Callback, nat)>, f: (Callback, nat), c: nat)
    ensures ReceivedBy(fs + [f], c) == ReceivedBy(fs, c) + (if f.1 == c then [f.0] else [])
  {
    assert (fs + [f])[..|fs|] == fs;
  }

  lemma {:induction false} ReceivedNone(fs: seq<(Callback, nat)>, c: nat)
    requires forall k :: 0 <= k < |fs| ==> fs[k].1 != c
    ensures ReceivedBy(fs, c) == []
  {
    if fs != [] { ReceivedNone(fs[..|fs| - 1], c); }
  }

  predicate SentTo(p: CallerPhase, i: nat) {
    match p
    case Waiting(j) => j == i
    case Listening(j) => j == i
    case Forwarding(j, _) => j == i
    case Returned(j, _) => j == i
    case _ => false
  }

  predicate Unsent(p: CallerPhase) {
    p.Arriving? || p.Scanning? || p.Sending?
  }

  predicate HoldsLock(p: CallerPhase, i: nat) {
    match p
    case Listening(j) => j == i
    case Forwarding(j, _) => j == i
    case _ => false
  }

  function InHand(p: CallerPhase): seq<Callback> {
    if p.Forwarding? then [p.callback] else []
  }

  function Opt(o: Option<Callback>): seq<Callback> {
    if o.Some? then [o.value] else []
  }

  /** Everything a caller has received, from the oldest to the newest. */
  function Held(x: Caller): seq<Callback> {
    x.processed + Opt(x.processing) + x.toUser + InHand(x.phase) + x.lost
  }

  predicate ActorOk(s: State, i: nat) {
    && i < |s.actors|
    && var a := s.actors[i];
    && (a.busy <==> a.phase.Executing? || a.phase.Answered?)
    && |a.queue| <= 1 && |a.callbacks| <= 1
    && a.queued == a.answered + Current(a.phase) + a.queue && Distinct(a.queued)
    && a.emitted == Callbacks(a.forwarded) + a.callbacks
    && (forall k :: 0 <= k < |a.forwarded| ==> a.forwarded[k].1 in a.queued)
    && (forall c :: c in a.queued ==> c < |s.callers| && SentTo(s.callers[c].phase, i))
    && (forall c :: c in a.queued ==> (c in s.results <==> c in a.answered))
    && (a.lock.Some? ==> a.lock.value < |s.callers| && HoldsLock(s.callers[a.lock.value].phase, i))
  }

  predicate CallerOk(s: State, c: nat) {
    && c < |s.callers|
    && var x := s.callers[c];
    && |x.toUser| <= 1
    && (x.phase.Scanning? <==> s.poolLock == Some(c))
    && (x.phase.Sending? ==> x.phase.actor < |s.actors|)
    && (Unsent(x.phase) ==> c !in s.results && Held(x) == [])
    && (!Unsent(x.phase) ==>
          && x.phase.actor < |s.actors| && c in s.actors[x.phase.actor].queued
          && ReceivedBy(s.actors[x.phase.actor].forwarded, c) == Held(x))
    && (x.phase.Listening? || x.phase.Forwarding? ==> s.actors[x.phase.actor].lock == Some(c))
    && (x.phase.Returned? ==>
        c in s.results && s.results[c].value == x.phase.value && x.processing.None? && x.toUser == [])
    && (!x.phase.Returned? ==> x.lost == [])
  }

  ghost predicate Inv(s: State) {
    && (forall i: nat :: i < |s.actors| ==> ActorOk(s, i))
    && (forall c: nat :: c < |s.callers| ==> CallerOk(s, c))
    && (s.poolLock.Some? ==> s.poolLock.value < |s.callers|)
  }

  lemma InitInv(n: nat)
    ensures Inv(Init(n))
  {
  }

  // ----- Each step keeps the invariant -----

  /** A step of caller `c` that leaves the actors and the results alone. */
  lemma CallerStep(s: State, c: nat, x: Caller, pool: Option<nat>)
    requires Inv(s) && c < |s.callers|
    requires var s' := PutCaller(s, c, x).(poolLock := pool);
             && CallerOk(s', c) && (forall i :: SentTo(x.phase, i) <==> SentTo(s.callers[c].phase, i))
             && (forall i :: HoldsLock(x.phase, i) <==> HoldsLock(s.callers[c].phase, i))
    requires pool == s.poolLock || (s.poolLock in {None, Some(c)} && pool in {None, Some(c)})
    ensures Inv(PutCaller(s, c, x).(poolLock := pool))
  {
    var s' := PutCaller(s, c, x).(poolLock := pool);
    forall i: nat | i < |s'.actors| ensures ActorOk(s', i) { assert ActorOk(s, i); }
    forall d: nat | d < |s'.callers| ensures CallerOk(s', d) { assert CallerOk(s, d); }
  }

  lemma StepEnter(s: State, c: nat)
    requires Inv(s) && Enabled(s, Enter(c))
    ensures Inv(Apply(s, Enter(c)))
  {
    assert CallerOk(s, c);
    CallerStep(s, c, s.callers[c].(phase := Scanning(0)), Some(c));
  }

  lemma StepAllocate(s: State, c: nat)
    requires Inv(s) && Enabled(s, Check(c)) && s.callers[c].phase.cursor >= |s.actors|
    ensures Inv(Apply(s, Check(c)))
  {
    assert CallerOk(s, c);
    var s' := Apply(s, Check(c));
    forall i: nat | i < |s'.actors| ensures ActorOk(s', i) {
      if i < |s.actors| { assert ActorOk(s, i); }
    }
    forall d: nat | d < |s'.callers| ensures CallerOk(s', d) { assert CallerOk(s, d); }
  }

  lemma StepCheck(s: State, c: nat)
    requires Inv(s) && Enabled(s, Check(c))
    ensures Inv(Apply(s, Check(c)))
  {
    assert CallerOk(s, c);
    var k := s.callers[c].phase.cursor;
    if k >= |s.actors| {
      StepAllocate(s, c);
    } else if !s.actors[k].busy {
      CallerStep(s, c, s.callers[c].(phase := Sending(k)), None);
    } else {
      CallerStep(s, c, s.callers[c].(phase := Scanning(k + 1)), s.poolLock);
    }
  }

  lemma StepAccept(s: State, c: nat)
    requires Inv(s) && Enabled(s, Accept(c))
    ensures Inv(Apply(s, Accept(c)))
  {
    assert CallerOk(s, c);
    var x := s.callers[c];
    assert x.toUser == [x.toUser[0]] + x.toUser[1..];
    CallerStep(s, c, x.(processing := Some(x.toUser[0]), toUser := x.toUser[1..]), s.poolLock);
  }

  /** A step of actor `i` alone that keeps its history of calls and callbacks in order. */
  lemma ActorStep(s: State, i: nat, a: Actor)
    requires Inv(s) && i < |s.actors|
    requires var b := s.actors[i];
             && a.queued == b.queued && a.forwarded == b.forwarded && a.lock == b.lock && a.answered == b.answered
             && ActorOk(PutActor(s, i, a), i)
    ensures Inv(PutActor(s, i, a))
  {
    var s' := PutActor(s, i, a);
    forall j: nat | j < |s'.actors| ensures ActorOk(s', j) { assert ActorOk(s, j); }
    forall d: nat | d < |s'.callers| ensures CallerOk(s', d) { assert CallerOk(s, d); }
  }

  lemma StepTake(s: State, i: nat)
    requires Inv(s) && Enabled(s, Take(i))
    ensures Inv(Apply(s, Take(i)))
  {
    assert ActorOk(s, i);
    var a := s.actors[i];
    assert a.queue == [a.queue[0]] + a.queue[1..];
    ActorStep(s, i, a.(phase := Taken(a.queue[0]), queue := a.queue[1..]));
  }

  lemma StepMark(s: State, i: nat)
    requires Inv(s) && Enabled(s, Mark(i))
    ensures Inv(Apply(s, Mark(i)))
  {
    assert ActorOk(s, i);
    var a := s.actors[i];
    ActorStep(s, i, a.(phase := Executing(a.phase.call, 0), busy := true, unprocessed := 0));
  }

  lemma StepEmit(s: State, i: nat)
    requires Inv(s) && Enabled(s, Emit(i))
    ensures Inv(Apply(s, Emit(i)))
  {
    assert ActorOk(s, i);
    ActorStep(s, i, Apply(s, Emit(i)).actors[i]);
  }

  lemma StepUnmark(s: State, i: nat)
    requires Inv(s) && Enabled(s, Unmark(i))
    ensures Inv(Apply(s, Unmark(i)))
  {
    assert ActorOk(s, i);
    ActorStep(s, i, s.actors[i].(phase := Idle, busy := false));
  }

  lemma StepFinish(s: State, i: nat, v: Value)
    requires Inv(s) && Enabled(s, Finish(i, v))
    ensures Inv(Apply(s, Finish(i, v)))
  {
    var s' := Apply(s, Finish(i, v));
    assert ActorOk(s, i);
    var a := s.actors[i];
    var call := a.phase.call;
    assert call == a.queued[|a.answered|] && call in a.queued;
    assert forall k :: 0 <= k < |a.answered| ==> a.queued[k] == a.answered[k];
    assert call !in a.answered && call !in s.results;
    forall j: nat | j < |s'.actors| ensures ActorOk(s', j) {
      assert ActorOk(s, j);
      if j != i { assert call !in s.actors[j].queued; }
    }
    forall d: nat | d < |s'.callers| ensures CallerOk(s', d) { assert CallerOk(s, d); }
  }

  lemma StepProcess(s: State, c: nat)
    requires Inv(s) && Enabled(s, Process(c))
    ensures Inv(Apply(s, Process(c)))
  {
    assert CallerOk(s, c);
    var x := s.callers[c];
    var cb := x.processing.value;
    var x' := x.(processing := None, processed := x.processed + [cb]);
    assert Held(x') == Held(x);
    CallerStep(s, c, x', s.poolLock);
    assert PutCaller(s, c, x').(poolLock := s.poolLock) == PutCaller(s, c, x');
    AnswerInv(PutCaller(s, c, x'), cb);
  }

  lemma AnswerInv(s: State, cb: Callback)
    requires Inv(s)
    ensures Inv(Answer(s, cb))
  {
    if Answer(s, cb) != s {
      assert ActorOk(s, cb.actor);
      ActorStep(s, cb.actor, s.actors[cb.actor].(unprocessed := s.actors[cb.actor].unprocessed - 1));
    }
  }

  lemma {:induction false} AnswerAllInv(s: State, cbs: seq<Callback>)
    requires Inv(s)
    ensures Inv(AnswerAll(s, cbs))
    decreases |cbs|
  {
    if cbs != [] {
      AnswerInv(s, cbs[0]);
      AnswerAllInv(Answer(s, cbs[0]), cbs[1..]);
    }
  }

  /** A step of caller `c` together with the actor `i` it has chosen. */
  lemma JointStep(s: State, c: nat, x: Caller, i: nat, a: Actor)
    requires Inv(s) && c < |s.callers| && i < |s.actors|
    requires var s' := PutActor(PutCaller(s, c, x), i, a); ActorOk(s', i) && CallerOk(s', c)
    requires forall j :: j != i ==> !SentTo(x.phase, j) && !SentTo(s.callers[c].phase, j)
    requires forall j :: j != i ==> !HoldsLock(x.phase, j) && !HoldsLock(s.callers[c].phase, j)
    requires forall d :: d != c ==> (d in s.actors[i].queued ==> d in a.queued)
    requires forall d :: d != c ==> ReceivedBy(a.forwarded, d) == ReceivedBy(s.actors[i].forwarded, d)
    requires s.actors[i].lock.Some? && s.actors[i].lock != Some(c) ==> a.lock == s.actors[i].lock
    ensures Inv(PutActor(PutCaller(s, c, x), i, a))
  {
    var s' := PutActor(PutCaller(s, c, x), i, a);
    forall j: nat | j < |s'.actors| ensures ActorOk(s', j) { assert ActorOk(s, j); }
    forall d: nat | d < |s'.callers| ensures CallerOk(s', d) { assert CallerOk(s, d); }
  }

  lemma SendActorOk(s: State, c: nat)
    requires Inv(s) && Enabled(s, Send(c))
    ensures ActorOk(Apply(s, Send(c)), s.callers[c].phase.actor)
  {
    var i := s.callers[c].phase.actor;
    assert CallerOk(s, c) && ActorOk(s, i);
    var a := s.actors[i];
    assert c !in a.queued;
    var q := a.queued + [c];
    assert q == a.answered + Current(a.phase) + (a.queue + [c]);
    assert Distinct(q);
  }

  lemma StepSend(s: State, c: nat)
    requires Inv(s) && Enabled(s, Send(c))
    ensures Inv(Apply(s, Send(c)))
  {
    var i := s.callers[c].phase.actor;
    assert CallerOk(s, c) && ActorOk(s, i);
    var a := s.actors[i];
    SendActorOk(s, c);
    assert c !in a.queued;
    ReceivedNone(a.forwarded, c);
    var x' := s.callers[c].(phase := Waiting(i));
    assert Held(x') == [];
    JointStep(s, c, x', i, a.(queue := a.queue + [c], queued := a.queued + [c]));
  }

  lemma StepLock(s: State, c: nat)
    requires Inv(s) && Enabled(s, Lock(c))
    ensures Inv(Apply(s, Lock(c)))
  {
    var i := s.callers[c].phase.actor;
    assert CallerOk(s, c) && ActorOk(s, i);
    JointStep(s, c, s.callers[c].(phase := Listening(i)), i, s.actors[i].(lock := Some(c)));
  }

  lemma ForwardedNext(a: Actor, f: (Callback, nat))
    requires a.callbacks != [] && f.0 == a.callbacks[0]
    ensures a.callbacks == [f.0] + a.callbacks[1..]
    ensures Callbacks(a.forwarded + [f]) == Callbacks(a.forwarded) + [f.0]
    ensures forall d ::
              ReceivedBy(a.forwarded + [f], d) == ReceivedBy(a.forwarded, d) + (if d == f.1 then [f.0] else [])
  {
    forall d ensures ReceivedBy(a.forwarded + [f], d) == ReceivedBy(a.forwarded, d) + (if d == f.1 then [f.0] else []) {
      ReceivedSnoc(a.forwarded, f, d);
    }
  }

  lemma ReceiveActorOk(s: State, c: nat)
    requires Inv(s) && Enabled(s, Receive(c))
    ensures ActorOk(Apply(s, Receive(c)), s.callers[c].phase.actor)
  {
    var i := s.callers[c].phase.actor;
    assert CallerOk(s, c) && ActorOk(s, i);
    ForwardedNext(s.actors[i], (s.actors[i].callbacks[0], c));
  }

  lemma ReceiveCallerOk(s: State, c: nat)
    requires Inv(s) && Enabled(s, Receive(c))
    ensures CallerOk(Apply(s, Receive(c)), c)
  {
    assert CallerOk(s, c);
    var a := s.actors[s.callers[c].phase.actor];
    ForwardedNext(a, (a.callbacks[0], c));
    assert Held(Apply(s, Receive(c)).callers[c]) == Held(s.callers[c]) + [a.callbacks[0]];
  }

  lemma StepReceive(s: State, c: nat)
    requires Inv(s) && Enabled(s, Receive(c))
    ensures Inv(Apply(s, Receive(c)))
  {
    var i := s.callers[c].phase.actor;
    assert CallerOk(s, c) && ActorOk(s, i);
    var a := s.actors[i];
    var f := (a.callbacks[0], c);
    ForwardedNext(a, f);
    ReceiveActorOk(s, c);
    ReceiveCallerOk(s, c);
    JointStep(s, c, s.callers[c].(phase := Forwarding(i, f.0)), i,
              a.(callbacks := a.callbacks[1..], forwarded := a.forwarded + [f]));
  }

  lemma StepForward(s: State, c: nat)
    requires Inv(s) && Enabled(s, Forward(c))
    ensures Inv(Apply(s, Forward(c)))
  {
    var x := s.callers[c];
    var i := x.phase.actor;
    assert CallerOk(s, c) && ActorOk(s, i);
    var x' := x.(phase := Waiting(i), toUser := x.toUser + [x.phase.callback]);
    assert Held(x') == Held(x);
    JointStep(s, c, x', i, s.actors[i].(lock := None));
  }

  lemma StepReturn(s: State, c: nat)
    requires Inv(s) && Enabled(s, Return(c))
    ensures Inv(Apply(s, Return(c)))
  {
    var x := s.callers[c];
    var i := x.phase.actor;
    assert CallerOk(s, c) && ActorOk(s, i);
    var x' := x.(phase := Returned(i, s.results[c].value), toUser := [], lost := x.toUser);
    assert Held(x') == Held(x);
    JointStep(s, c, x', i, s.actors[i].(lock := None));
    AnswerAllInv(Release(s, c), x.toUser);
  }

  lemma StepInv(s: State, step: Step)
    requires Inv(s) && Enabled(s, step)
    ensures Inv(Apply(s, step))
  {
    match step
    case Enter(c) => StepEnter(s, c);
    case Check(c) => StepCheck(s, c);
    case Send(c) => StepSend(s, c);
    case Take(i) => StepTake(s, i);
    case Mark(i) => StepMark(s, i);
    case Emit(i) => StepEmit(s, i);
    case Finish(i, v) => StepFinish(s, i, v);
    case Unmark(i) => StepUnmark(s, i);
    case Lock(c) => StepLock(s, c);
    case Receive(c) => StepReceive(s, c);
    case Forward(c) => StepForward(s, c);
    case Accept(c) => StepAccept(s, c);
    case Process(c) => StepProcess(s, c);
    case Return(c) => StepReturn(s, c);
  }

  lemma {:induction false} RunInv(s: State, steps: seq<Step>)
    requires Inv(s) && CanRun(s, steps)
    ensures Inv(Run(s, steps))
    decreases |steps|
  {
    if steps != [] {
      StepInv(s, steps[0]);
      RunInv(Apply(s, steps[0]), steps[1..]);
    }
  }
}
