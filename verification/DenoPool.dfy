/** Which actor a caller gets, when the pool grows, and where a result comes from: properties of whole runs. */
module DenoPool {
  import opened Wrappers
  import opened DenoProtocol
  import opened DenoInvariant
  import opened DenoAnswers

  // ----- The states of a run -----

  lemma {:induction false} RunSplit(s: State, a: seq<Step>, b: seq<Step>)
    ensures CanRun(s, a + b) <==> CanRun(s, a) && CanRun(Run(s, a), b)
    ensures CanRun(s, a + b) ==> Run(s, a + b) == Run(Run(s, a), b)
    decreases |a|
  {
    if a == [] {
      assert a + b == b;
    } else {
      assert (a + b)[0] == a[0] && (a + b)[1..] == a[1..] + b;
      if Enabled(s, a[0]) { RunSplit(Apply(s, a[0]), a[1..], b); }
    }
  }

  /** The state before step `t`. */
  ghost function At(n: nat, steps: seq<Step>, t: nat): State
    requires CanRun(Init(n), steps) && t <= |steps|
  {
    Prefix(n, steps, t);
    Run(Init(n), steps[..t])
  }

  lemma Prefix(n: nat, steps: seq<Step>, t: nat)
    requires CanRun(Init(n), steps) && t <= |steps|
    ensures CanRun(Init(n), steps[..t])
  {
    RunSplit(Init(n), steps[..t], steps[t..]);
    assert steps[..t] + steps[t..] == steps;
  }

  lemma NextState(n: nat, steps: seq<Step>, t: nat)
    requires CanRun(Init(n), steps) && t < |steps|
    ensures Enabled(At(n, steps, t), steps[t]) && At(n, steps, t + 1) == Apply(At(n, steps, t), steps[t])
  {
    Prefix(n, steps, t + 1);
    assert steps[..t + 1] == steps[..t] + [steps[t]];
    RunSplit(Init(n), steps[..t], [steps[t]]);
    assert [steps[t]][1..] == [];
  }

  lemma SameStates(n: nat, steps: seq<Step>, few: nat, t: nat)
    requires CanRun(Init(n), steps) && t <= few <= |steps|
    ensures CanRun(Init(n), steps[..few]) && At(n, steps[..few], t) == At(n, steps, t)
  {
    Prefix(n, steps, few);
    assert steps[..few][..t] == steps[..t];
  }

  lemma StateInv(n: nat, steps: seq<Step>, t: nat)
    requires CanRun(Init(n), steps) && t <= |steps|
    ensures Inv(At(n, steps, t)) && |At(n, steps, t).callers| == n
    decreases t
  {
    if t == 0 {
      InitInv(n);
    } else {
      StateInv(n, steps, t - 1);
      NextState(n, steps, t - 1);
      StepInv(At(n, steps, t - 1), steps[t - 1]);
      CallersStay(At(n, steps, t - 1), steps[t - 1]);
    }
  }

  lemma {:induction false} AnswerAllFrame(s: State, cbs: seq<Callback>)
    ensures var t := AnswerAll(s, cbs);
            && t.callers == s.callers && t.results == s.results && t.poolLock == s.poolLock && |t.actors| == |s.actors|
            && forall i :: 0 <= i < |s.actors| ==> t.actors[i].busy == s.actors[i].busy
    decreases |cbs|
  {
    if cbs != [] { AnswerAllFrame(Answer(s, cbs[0]), cbs[1..]); }
  }

  lemma CallersStay(s: State, step: Step)
    requires Enabled(s, step)
    ensures |Apply(s, step).callers| == |s.callers| && |s.actors| <= |Apply(s, step).actors|
    ensures !step.Check? ==> |Apply(s, step).actors| == |s.actors|
  {
    if step.Return? { AnswerAllFrame(Release(s, step.c), s.callers[step.c].toUser); }
  }

  // ----- Looking for an actor -----

  /** The actor a caller has picked. */
  function Picked(p: CallerPhase): Option<nat> {
    match p
    case Sending(i) => Some(i)
    case Waiting(i) => Some(i)
    case Listening(i) => Some(i)
    case Forwarding(i, _) => Some(i)
    case Returned(i, _) => Some(i)
    case _ => None
  }

  /** At step `t` the caller looks at actor `k`, or past the last one. */
  ghost predicate LooksAt(n: nat, steps: seq<Step>, t: nat, c: nat, k: nat)
    requires CanRun(Init(n), steps)
  {
    t < |steps| && steps[t] == Check(c) && c < |At(n, steps, t).callers| &&
    At(n, steps, t).callers[c].phase == Scanning(k)
  }

  ghost predicate SawBusy(n: nat, steps: seq<Step>, t: nat, c: nat, k: nat)
    requires CanRun(Init(n), steps)
  {
    LooksAt(n, steps, t, c, k) && k < |At(n, steps, t).actors| && At(n, steps, t).actors[k].busy
  }

  ghost predicate SawFree(n: nat, steps: seq<Step>, t: nat, c: nat, k: nat)
    requires CanRun(Init(n), steps)
  {
    LooksAt(n, steps, t, c, k) && k < |At(n, steps, t).actors| && !At(n, steps, t).actors[k].busy
  }

  /** There was no `k`-th actor, and the caller adds one. */
  ghost predicate Added(n: nat, steps: seq<Step>, t: nat, c: nat, k: nat)
    requires CanRun(Init(n), steps)
  {
    LooksAt(n, steps, t, c, k) && |At(n, steps, t).actors| == k && t + 1 <= |steps| &&
    At(n, steps, t + 1).actors == At(n, steps, t).actors + [Actor(Idle, false, [], [], None, 0, [], [], [], [])]
  }

  /** Each of the first `k` actors was busy when the caller looked at it. */
  ghost predicate SawBusyBelow(n: nat, steps: seq<Step>, c: nat, k: nat)
    requires CanRun(Init(n), steps)
  {
    forall j: nat :: j < k ==> FoundBusy(n, steps, c, j)
  }

  ghost predicate FoundBusy(n: nat, steps: seq<Step>, c: nat, k: nat)
    requires CanRun(Init(n), steps)
  {
    exists t: nat :: SawBusy(n, steps, t, c, k)
  }

  ghost predicate GotFree(n: nat, steps: seq<Step>, c: nat, i: nat)
    requires CanRun(Init(n), steps)
  {
    exists t: nat :: SawFree(n, steps, t, c, i)
  }

  ghost predicate GotNew(n: nat, steps: seq<Step>, c: nat, i: nat)
    requires CanRun(Init(n), steps)
  {
    exists t: nat :: Added(n, steps, t, c, i)
  }

  ghost predicate ScannedSoFar(n: nat, steps: seq<Step>, c: nat, p: CallerPhase)
    requires CanRun(Init(n), steps)
  {
    && (p.Scanning? ==> SawBusyBelow(n, steps, c, p.cursor))
    && (Picked(p).Some? ==>
          var i := Picked(p).value;
          SawBusyBelow(n, steps, c, i) && (GotFree(n, steps, c, i) || GotNew(n, steps, c, i)))
  }

  /** What a shorter run has seen, a longer one has. */
  lemma LookedBefore(n: nat, steps: seq<Step>, few: nat, c: nat, k: nat, t: nat)
    requires CanRun(Init(n), steps) && few <= |steps| && CanRun(Init(n), steps[..few])
    ensures LooksAt(n, steps[..few], t, c, k) ==>
              LooksAt(n, steps, t, c, k) && At(n, steps[..few], t) == At(n, steps, t)
    ensures Added(n, steps[..few], t, c, k) ==> Added(n, steps, t, c, k)
  {
    if t < few {
      SameStates(n, steps, few, t);
      SameStates(n, steps, few, t + 1);
    }
  }

  lemma FoundBefore(n: nat, steps: seq<Step>, few: nat, c: nat, k: nat)
    requires CanRun(Init(n), steps) && few <= |steps| && CanRun(Init(n), steps[..few])
    ensures FoundBusy(n, steps[..few], c, k) ==> FoundBusy(n, steps, c, k)
  {
    if FoundBusy(n, steps[..few], c, k) {
      var t: nat :| SawBusy(n, steps[..few], t, c, k);
      LookedBefore(n, steps, few, c, k, t);
      assert SawBusy(n, steps, t, c, k);
    }
  }

  lemma GotBefore(n: nat, steps: seq<Step>, few: nat, c: nat, k: nat)
    requires CanRun(Init(n), steps) && few <= |steps| && CanRun(Init(n), steps[..few])
    ensures GotFree(n, steps[..few], c, k) ==> GotFree(n, steps, c, k)
    ensures GotNew(n, steps[..few], c, k) ==> GotNew(n, steps, c, k)
  {
    if GotFree(n, steps[..few], c, k) {
      var t: nat :| SawFree(n, steps[..few], t, c, k);
      LookedBefore(n, steps, few, c, k, t);
      assert SawFree(n, steps, t, c, k);
    }
    if GotNew(n, steps[..few], c, k) {
      var t: nat :| Added(n, steps[..few], t, c, k);
      LookedBefore(n, steps, few, c, k, t);
    }
  }

  lemma SeenBefore(n: nat, steps: seq<Step>, few: nat, c: nat, k: nat)
    requires CanRun(Init(n), steps) && few <= |steps| && CanRun(Init(n), steps[..few])
    ensures SawBusyBelow(n, steps[..few], c, k) ==> SawBusyBelow(n, steps, c, k)
    ensures GotFree(n, steps[..few], c, k) ==> GotFree(n, steps, c, k)
    ensures GotNew(n, steps[..few], c, k) ==> GotNew(n, steps, c, k)
  {
    GotBefore(n, steps, few, c, k);
    forall j: nat | j < k ensures FoundBusy(n, steps[..few], c, j) ==> FoundBusy(n, steps, c, j) {
      FoundBefore(n, steps, few, c, j);
    }
  }

  /** Only a caller's own `Check` picks its actor, and only its own `Enter` lets it scan. */
  lemma PhaseKept(s: State, step: Step, c: nat)
    requires Enabled(s, step) && c < |s.callers|
    ensures |Apply(s, step).callers| == |s.callers|
    ensures var p, q := s.callers[c].phase, Apply(s, step).callers[c].phase;
            step != Check(c) ==>
              (Picked(q) == Picked(p) && (q.Scanning? ==> q == p || (step == Enter(c) && q.cursor == 0)))
  {
    if step.Return? { AnswerAllFrame(Release(s, step.c), s.callers[step.c].toUser); }
  }

  lemma CheckPhase(s: State, c: nat)
    requires Enabled(s, Check(c))
    ensures var k, t := s.callers[c].phase.cursor, Apply(s, Check(c));
            && (k < |s.actors| && s.actors[k].busy ==> t.callers[c].phase == Scanning(k + 1))
            && (k < |s.actors| && !s.actors[k].busy ==> t.callers[c].phase == Sending(k))
            && (k == |s.actors| ==> t.callers[c].phase == Sending(k))
            && (k == |s.actors| ==> t.actors == s.actors + [Actor(Idle, false, [], [], None, 0, [], [], [], [])])
  {
  }

  /** A scanning caller is never past the end of the pool. */
  lemma {:induction false} CursorInPool(n: nat, steps: seq<Step>, t: nat, c: nat)
    requires CanRun(Init(n), steps) && t <= |steps| && c < n
    requires |At(n, steps, t).callers| == n
    ensures var s := At(n, steps, t); s.callers[c].phase.Scanning? ==> s.callers[c].phase.cursor <= |s.actors|
    decreases t
  {
    if t > 0 {
      StateInv(n, steps, t - 1);
      CursorInPool(n, steps, t - 1, c);
      NextState(n, steps, t - 1);
      var s, step := At(n, steps, t - 1), steps[t - 1];
      PhaseKept(s, step, c);
      CallersStay(s, step);
      if step == Check(c) { CheckPhase(s, c); }
    }
  }

  /** At any time of any run: the actors that a scanning caller has passed over were busy when it looked, and the
      actor that a caller has picked is the first one that was not, or a new one after all others. */
  lemma {:induction false} Scanned(n: nat, steps: seq<Step>, c: nat)
    requires CanRun(Init(n), steps) && c < n
    ensures |Run(Init(n), steps).callers| == n
    ensures ScannedSoFar(n, steps, c, Run(Init(n), steps).callers[c].phase)
    decreases |steps|
  {
    StateInv(n, steps, |steps|);
    assert steps[..|steps|] == steps;
    if steps != [] {
      var t := |steps| - 1;
      Prefix(n, steps, t);
      Scanned(n, steps[..t], c);
      NextState(n, steps, t);
      var s := At(n, steps, t);
      assert s == Run(Init(n), steps[..t]);
      PhaseKept(s, steps[t], c);
      if steps[t] == Check(c) {
        CursorInPool(n, steps, t, c);
        ScanNext(n, steps, c);
      } else {
        var p := s.callers[c].phase;
        SeenBefore(n, steps, t, c, if p.Scanning? then p.cursor else if Picked(p).Some? then Picked(p).value else 0);
      }
    }
  }

  lemma ScanNext(n: nat, steps: seq<Step>, c: nat)
    requires CanRun(Init(n), steps) && steps != [] && steps[|steps| - 1] == Check(c)
    requires var t := |steps| - 1;
             && CanRun(Init(n), steps[..t]) && c < |At(n, steps, t).callers| && Enabled(At(n, steps, t), Check(c))
             && var p := At(n, steps, t).callers[c].phase;
             p.Scanning? && p.cursor <= |At(n, steps, t).actors| && ScannedSoFar(n, steps[..t], c, p)
    ensures c < |Run(Init(n), steps).callers| && ScannedSoFar(n, steps, c, Run(Init(n), steps).callers[c].phase)
  {
    var t := |steps| - 1;
    var s := At(n, steps, t);
    var k := s.callers[c].phase.cursor;
    NextState(n, steps, t);
    assert steps[..t + 1] == steps;
    CheckPhase(s, c);
    SeenBefore(n, steps, t, c, k);
    assert LooksAt(n, steps, t, c, k);
    if k < |s.actors| && s.actors[k].busy {
      assert SawBusy(n, steps, t, c, k);
      assert FoundBusy(n, steps, c, k);
    } else if k < |s.actors| {
      assert SawFree(n, steps, t, c, k);
    } else {
      assert Added(n, steps, t, c, k);
    }
  }

  // ----- What follows -----

  /** A caller gets the first actor that is free when it looks, and a new one only if none is. */
  lemma FirstFreeActor(n: nat, steps: seq<Step>, c: nat, i: nat)
    requires CanRun(Init(n), steps) && c < n && |Run(Init(n), steps).callers| == n
    requires Picked(Run(Init(n), steps).callers[c].phase) == Some(i)
    ensures SawBusyBelow(n, steps, c, i) && (GotFree(n, steps, c, i) || GotNew(n, steps, c, i))
  {
    Scanned(n, steps, c);
  }

  /** The pool grows only by a caller that found every actor busy. */
  lemma PoolGrows(n: nat, steps: seq<Step>, t: nat)
    requires CanRun(Init(n), steps) && t < |steps|
    requires |At(n, steps, t + 1).actors| != |At(n, steps, t).actors|
    ensures steps[t].Check?
    ensures Added(n, steps, t, steps[t].c, |At(n, steps, t).actors|)
    ensures SawBusyBelow(n, steps, steps[t].c, |At(n, steps, t).actors|)
  {
    var s := At(n, steps, t);
    NextState(n, steps, t);
    CallersStay(s, steps[t]);
    var c := steps[t].c;
    StateInv(n, steps, t);
    CursorInPool(n, steps, t, c);
    CheckPhase(s, c);
    Prefix(n, steps, t);
    Scanned(n, steps[..t], c);
    SeenBefore(n, steps, t, c, |s.actors|);
  }

  /** An actor that was there when the caller came was picked because it was free. */
  lemma OldActorWasFree(n: nat, steps: seq<Step>, c: nat, i: nat, e: nat)
    requires CanRun(Init(n), steps) && c < n && |Run(Init(n), steps).callers| == n
    requires Picked(Run(Init(n), steps).callers[c].phase) == Some(i)
    requires e <= |steps| && i < |At(n, steps, e).actors| && |At(n, steps, e).callers| == n
    requires Picked(At(n, steps, e).callers[c].phase) == None
    ensures GotFree(n, steps, c, i)
  {
    FirstFreeActor(n, steps, c, i);
    if t: nat :| Added(n, steps, t, c, i) {
      NextState(n, steps, t);
      StateInv(n, steps, t);
      StateInv(n, steps, t + 1);
      CursorInPool(n, steps, t, c);
      CheckPhase(At(n, steps, t), c);
      if t < e { PickedStays(n, steps, t + 1, e, c); } else { ActorsGrow(n, steps, e, t); }
    }
  }

  lemma {:induction false} PickedStays(n: nat, steps: seq<Step>, t: nat, u: nat, c: nat)
    requires CanRun(Init(n), steps) && t <= u <= |steps| && c < n && |At(n, steps, t).callers| == n
    requires Picked(At(n, steps, t).callers[c].phase).Some?
    ensures |At(n, steps, u).callers| == n
    ensures Picked(At(n, steps, u).callers[c].phase) == Picked(At(n, steps, t).callers[c].phase)
    decreases u - t
  {
    if t < u {
      PickedStays(n, steps, t, u - 1, c);
      NextState(n, steps, u - 1);
      PhaseKept(At(n, steps, u - 1), steps[u - 1], c);
      CallersStay(At(n, steps, u - 1), steps[u - 1]);
    }
  }

  lemma {:induction false} ActorsGrow(n: nat, steps: seq<Step>, t: nat, u: nat)
    requires CanRun(Init(n), steps) && t <= u <= |steps|
    ensures |At(n, steps, t).actors| <= |At(n, steps, u).actors|
    decreases u - t
  {
    if t < u {
      ActorsGrow(n, steps, t, u - 1);
      NextState(n, steps, u - 1);
      CallersStay(At(n, steps, u - 1), steps[u - 1]);
    }
  }

  /** One caller scans at a time, under the pool lock, and no channel holds more than one message. */
  lemma OneAtATime(n: nat, steps: seq<Step>, c: nat, d: nat, i: nat)
    requires CanRun(Init(n), steps) && c < n && d < n
    ensures var s := Run(Init(n), steps);
            && |s.callers| == n
            && (s.callers[c].phase.Scanning? && s.callers[d].phase.Scanning? ==> c == d)
            && |s.callers[c].toUser| <= 1
            && (i < |s.actors| ==> |s.actors[i].queue| <= 1 && |s.actors[i].callbacks| <= 1)
  {
    StateInv(n, steps, |steps|);
    assert steps[..|steps|] == steps;
    var s := Run(Init(n), steps);
    assert CallerOk(s, c) && CallerOk(s, d);
    if i < |s.actors| { assert ActorOk(s, i); }
  }

  // ----- Where a result comes from -----

  /** At step `t` the function that runs call `c` on actor `i` returns the value. */
  ghost predicate Finished(n: nat, steps: seq<Step>, t: nat, c: nat, i: nat, v: Value)
    requires CanRun(Init(n), steps)
  {
    t < |steps| && steps[t] == Finish(i, v) && i < |At(n, steps, t).actors| &&
    At(n, steps, t).actors[i].phase.Executing? && At(n, steps, t).actors[i].phase.call == c
  }

  lemma ResultsKept(s: State, step: Step)
    requires Enabled(s, step) && !step.Finish?
    ensures Apply(s, step).results == s.results
  {
    if step.Return? { AnswerAllFrame(Release(s, step.c), s.callers[step.c].toUser); }
  }

  /** Every result was returned by the function that ran the call. */
  lemma {:induction false} ResultsAreReturned(n: nat, steps: seq<Step>, c: nat)
    requires CanRun(Init(n), steps) && c in Run(Init(n), steps).results
    ensures exists t: nat, i: nat :: Finished(n, steps, t, c, i, Run(Init(n), steps).results[c].value)
    decreases |steps|
  {
    assert steps != [];
    var t := |steps| - 1;
    assert steps[..t + 1] == steps;
    Prefix(n, steps, t);
    NextState(n, steps, t);
    var s := At(n, steps, t);
    assert s == Run(Init(n), steps[..t]) && Run(Init(n), steps) == Apply(s, steps[t]);
    if steps[t].Finish? && s.actors[steps[t].i].phase.call == c {
      assert Finished(n, steps, t, c, steps[t].i, steps[t].value);
    } else {
      if !steps[t].Finish? { ResultsKept(s, steps[t]); }
      ResultsAreReturned(n, steps[..t], c);
      var u: nat, i: nat :| Finished(n, steps[..t], u, c, i, s.results[c].value);
      FinishedBefore(n, steps, t, u, c, i, s.results[c].value);
    }
  }

  lemma FinishedBefore(n: nat, steps: seq<Step>, few: nat, t: nat, c: nat, i: nat, v: Value)
    requires CanRun(Init(n), steps) && few <= |steps| && CanRun(Init(n), steps[..few])
    requires Finished(n, steps[..few], t, c, i, v)
    ensures Finished(n, steps, t, c, i, v)
  {
    SameStates(n, steps, few, t);
  }

  /** A caller returns the value that the function running its call has returned. */
  lemma ReturnsItsResult(n: nat, steps: seq<Step>, c: nat)
    requires CanRun(Init(n), steps) && c < n
    ensures |Run(Init(n), steps).callers| == n
    ensures var p := Run(Init(n), steps).callers[c].phase;
            p.Returned? ==> exists t: nat, i: nat :: Finished(n, steps, t, c, i, p.value)
  {
    StateInv(n, steps, |steps|);
    assert steps[..|steps|] == steps;
    var s := Run(Init(n), steps);
    assert CallerOk(s, c);
    if s.callers[c].phase.Returned? { ResultsAreReturned(n, steps, c); }
  }
}
