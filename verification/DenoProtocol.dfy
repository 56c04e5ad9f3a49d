/**
 The Deno actor pool as a transition system.

 Callers, numbered by arrival, look for an actor under the pool lock, queue a call on it,
 and then listen, under the actor's callback lock, for callbacks to forward and for the
 final result.  Actors run one call after another.  Each step below is one atomic action of
 one thread or task; a run is any interleaving of them.  Fields that only record history
 are marked so.
 */
module DenoProtocol {
  import opened Wrappers

  type Value = string

  /** The `index`-th callback emitted while `actor` ran `call`. */
  datatype Callback = Callback(actor: nat, call: nat, index: nat)

  datatype ActorPhase =
    | Idle                            // waiting for a call
    | Taken(call: nat)                // call received, not yet marked busy
    | Executing(call: nat, count: nat) // running the function, which has emitted `count` callbacks
    | Answered(call: nat)             // result sent, still marked busy

  datatype Actor = Actor(
    phase: ActorPhase,
    busy: bool,
    queue: seq<nat>,                  // call channel, capacity 1
    callbacks: seq<Callback>,         // callback channel, capacity 1
    lock: Option<nat>,                // holder of the callback receiver's lock
    unprocessed: nat,                 // callbacks whose answer the running function has not got
    queued: seq<nat>,                 // history: calls in the order they were queued
    answered: seq<nat>,               // history: calls in the order their results were sent
    emitted: seq<Callback>,           // history
    forwarded: seq<(Callback, nat)>   // history: received callbacks, and by which caller
  )

  const NEW_ACTOR := Actor(Idle, false, [], [], None, 0, [], [], [], [])

  datatype CallerPhase =
    | Arriving
    | Scanning(cursor: nat)           // holds the pool lock
    | Sending(actor: nat)             // waits for room in the call channel
    | Waiting(actor: nat)             // waits for the callback lock
    | Listening(actor: nat)           // holds the callback lock, waits for a callback or the result
    | Forwarding(actor: nat, callback: Callback) // holds the lock, waits for room in its own channel
    | Returned(actor: nat, value: Value)

  datatype Caller = Caller(
    phase: CallerPhase,
    toUser: seq<Callback>,            // the channel to the executor's own loop, capacity 1
    processing: Option<Callback>,
    processed: seq<Callback>,         // history: callbacks this caller's processor has handled
    lost: seq<Callback>               // history: callbacks left in the channel when the result came
  )

  const NEW_CALLER := Caller(Arriving, [], None, [], [])

  /** A result as sent by the actor, with (history) how many callbacks the call emitted. */
  datatype Outcome = Outcome(value: Value, count: nat)

  datatype State = State(
    actors: seq<Actor>,
    callers: seq<Caller>,
    poolLock: Option<nat>,
    results: map<nat, Outcome>        // the one-shot reply channels, by call
  )

  function Init(callers: nat): State {
    State([], seq(callers, i => NEW_CALLER), None, map[])
  }

  // ----- Steps -----

  datatype Step =
    | Enter(c: nat)                   // take the pool lock
    | Check(c: nat)                   // look at one actor's busy flag, or allocate
    | Send(c: nat)                    // queue the call
    | Take(i: nat)                    // the actor receives a call
    | Mark(i: nat)                    // busy := true, and the function starts
    | Emit(i: nat)                    // the function emits a callback
    | Finish(i: nat, value: Value)    // the function returns; its result is sent
    | Unmark(i: nat)                  // busy := false
    | Lock(c: nat)                    // acquire the callback lock
    | Receive(c: nat)                 // receive a callback
    | Forward(c: nat)                 // pass it on and release the lock
    | Accept(c: nat)                  // the executor's loop picks it up
    | Process(c: nat)                 // the processor has handled it and answered
    | Return(c: nat)                  // receive the final result, return it through both hops, drop the channel

  /** The caller's forwarding loop runs only while its executor is not inside the processor:
      both are polled by one task. */
  predicate Polled(s: State, c: nat) {
    c < |s.callers| && s.callers[c].processing.None?
  }

  predicate Enabled(s: State, step: Step) {
    match step
    case Enter(c) => c < |s.callers| && s.callers[c].phase.Arriving? && s.poolLock.None?
    case Check(c) => c < |s.callers| && s.callers[c].phase.Scanning?
    case Send(c) => Polled(s, c) && s.callers[c].phase.Sending? &&
                    s.callers[c].phase.actor < |s.actors| && |s.actors[s.callers[c].phase.actor].queue| < 1
    case Take(i) => i < |s.actors| && s.actors[i].phase.Idle? && s.actors[i].queue != []
    case Mark(i) => i < |s.actors| && s.actors[i].phase.Taken?
    case Emit(i) => i < |s.actors| && s.actors[i].phase.Executing? && |s.actors[i].callbacks| < 1
    case Finish(i, _) => i < |s.actors| && s.actors[i].phase.Executing?
    case Unmark(i) => i < |s.actors| && s.actors[i].phase.Answered?
    case Lock(c) => Polled(s, c) && s.callers[c].phase.Waiting? &&
                    s.callers[c].phase.actor < |s.actors| && s.actors[s.callers[c].phase.actor].lock.None?
    case Receive(c) => Polled(s, c) && s.callers[c].phase.Listening? &&
                       s.callers[c].phase.actor < |s.actors| && s.actors[s.callers[c].phase.actor].callbacks != []
    case Forward(c) => Polled(s, c) && s.callers[c].phase.Forwarding? &&
                       s.callers[c].phase.actor < |s.actors| && |s.callers[c].toUser| < 1
    case Accept(c) => Polled(s, c) && s.callers[c].toUser != [] && !s.callers[c].phase.Returned?
    case Process(c) => c < |s.callers| && s.callers[c].processing.Some? && !s.callers[c].phase.Returned?
    case Return(c) => Polled(s, c) && s.callers[c].phase.Listening? &&
                      s.callers[c].phase.actor < |s.actors| && c in s.results
  }

  function PutActor(s: State, i: nat, a: Actor): State
    requires i < |s.actors|
  {
    s.(actors := s.actors[i := a])
  }

  function PutCaller(s: State, c: nat, x: Caller): State
    requires c < |s.callers|
  {
    s.(callers := s.callers[c := x])
  }

  /** The function that emitted the callback, if it is still running, gets an answer. */
  function Answer(s: State, cb: Callback): State {
    if cb.actor < |s.actors| && s.actors[cb.actor].phase.Executing? && s.actors[cb.actor].phase.call == cb.call
       && s.actors[cb.actor].unprocessed > 0
    then PutActor(s, cb.actor, s.actors[cb.actor].(unprocessed := s.actors[cb.actor].unprocessed - 1)) else s
  }

  /** Dropping a message drops the sender of its answer, which the function sees as an error. */
  function AnswerAll(s: State, cbs: seq<Callback>): State
    decreases |cbs|
  {
    if cbs == [] then s else AnswerAll(Answer(s, cbs[0]), cbs[1..])
  }

  function Apply(s: State, step: Step): State
    requires Enabled(s, step)
  {
    match step
    case Enter(c) => PutCaller(s, c, s.callers[c].(phase := Scanning(0))).(poolLock := Some(c))
    case Check(c) =>
      var k := s.callers[c].phase.cursor;
      if k >= |s.actors| then
        // no free actor: allocate one
        PutCaller(s, c, s.callers[c].(phase := Sending(|s.actors|))).(poolLock := None,
                                                                      actors := s.actors + [NEW_ACTOR])
      else if !s.actors[k].busy then
        PutCaller(s, c, s.callers[c].(phase := Sending(k))).(poolLock := None)
      else PutCaller(s, c, s.callers[c].(phase := Scanning(k + 1)))
    case Send(c) =>
      var i := s.callers[c].phase.actor;
      var a := s.actors[i];
      PutActor(PutCaller(s, c, s.callers[c].(phase := Waiting(i))), i,
               a.(queue := a.queue + [c], queued := a.queued + [c]))
    case Take(i) =>
      var a := s.actors[i];
      PutActor(s, i, a.(phase := Taken(a.queue[0]), queue := a.queue[1..]))
    case Mark(i) =>
      var a := s.actors[i];
      PutActor(s, i, a.(phase := Executing(a.phase.call, 0), busy := true, unprocessed := 0))
    case Emit(i) =>
      var a := s.actors[i];
      var cb := Callback(i, a.phase.call, a.phase.count);
      PutActor(s, i, a.(phase := Executing(a.phase.call, a.phase.count + 1), callbacks := a.callbacks + [cb],
                        emitted := a.emitted + [cb], unprocessed := a.unprocessed + 1))
    case Finish(i, v) =>
      var a := s.actors[i];
      PutActor(s, i, a.(phase := Answered(a.phase.call), answered := a.answered + [a.phase.call]))
      .(results := s.results[a.phase.call := Outcome(v, a.phase.count)])
    case Unmark(i) => PutActor(s, i, s.actors[i].(phase := Idle, busy := false))
    case Lock(c) =>
      var i := s.callers[c].phase.actor;
      PutActor(PutCaller(s, c, s.callers[c].(phase := Listening(i))), i, s.actors[i].(lock := Some(c)))
    case Receive(c) =>
      var i := s.callers[c].phase.actor;
      var a := s.actors[i];
      PutActor(PutCaller(s, c, s.callers[c].(phase := Forwarding(i, a.callbacks[0]))), i,
               a.(callbacks := a.callbacks[1..], forwarded := a.forwarded + [(a.callbacks[0], c)]))
    case Forward(c) =>
      var x := s.callers[c];
      var i := x.phase.actor;
      PutActor(PutCaller(s, c, x.(phase := Waiting(i), toUser := x.toUser + [x.phase.callback])), i,
               s.actors[i].(lock := None))
    case Accept(c) =>
      var x := s.callers[c];
      PutCaller(s, c, x.(processing := Some(x.toUser[0]), toUser := x.toUser[1..]))
    case Process(c) =>
      var x := s.callers[c];
      var cb := x.processing.value;
      Answer(PutCaller(s, c, x.(processing := None, processed := x.processed + [cb])), cb)
    case Return(c) =>
      AnswerAll(Release(s, c), s.callers[c].toUser)
  }

  /** The caller has its result; its channel is gone with whatever was in it. */
  function Release(s: State, c: nat): State
    requires Enabled(s, Return(c))
  {
    var x := s.callers[c];
    var i := x.phase.actor;
    PutActor(PutCaller(s, c, x.(phase := Returned(i, s.results[c].value), toUser := [], lost := x.toUser)), i,
             s.actors[i].(lock := None))
  }

  // ----- Runs -----

  predicate CanRun(s: State, steps: seq<Step>)
    decreases |steps|
  {
    steps == [] || (Enabled(s, steps[0]) && CanRun(Apply(s, steps[0]), steps[1..]))
  }

  function Run(s: State, steps: seq<Step>): State
    requires CanRun(s, steps)
    decreases |steps|
  {
    if steps == [] then s else Run(Apply(s, steps[0]), steps[1..])
  }
}
