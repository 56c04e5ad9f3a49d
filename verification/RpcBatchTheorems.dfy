/** What a batch's answers and final store say about its items. */
module RpcBatchTheorems {
  import opened Wrappers
  import opened Values
  import opened RpcBatch

  /** The items that are answered. */
  function Calls(items: seq<Json>): seq<Json> {
    if items == [] then []
    else
      var n := |items| - 1;
      Calls(items[..n]) + if Notification(items[n]) then [] else [items[n]]
  }

  /** Two runs leave the same store and are answered alike. */
  ghost predicate SameEffect<S>(a: (S, seq<SingleResult>), b: (S, seq<SingleResult>)) {
    a.0 == b.0 && Answers(a.1) == Answers(b.1) && (AllSucceeded(a.1) <==> AllSucceeded(b.1))
  }

  /** Handling a batch is handling its calls: notifications are neither run nor answered. */
  lemma {:induction false} NotificationsAreInert<S>(items: seq<Json>, router: Router<S>, open: bool, s: S)
    ensures SameEffect(RunItems(items, router, open, s), RunItems(Calls(items), router, open, s))
  {
    if items != [] {
      var n := |items| - 1;
      NotificationsAreInert(items[..n], router, open, s);
      var few, fewCalls := RunItems(items[..n], router, open, s), RunItems(Calls(items[..n]), router, open, s);
      var (s2, r) := Resolved(items[n], router, open, few.0);
      ResultNext(few.1, r);
      if Notification(items[n]) {
        assert Calls(items) == Calls(items[..n]);
      } else {
        assert Calls(items) == Calls(items[..n]) + [items[n]];
        RunSnoc(Calls(items[..n]), items[n], router, open, s);
        ResultNext(fewCalls.1, r);
      }
    }
  }

  lemma RunSnoc<S>(items: seq<Json>, j: Json, router: Router<S>, open: bool, s: S)
    ensures var (s1, rs) := RunItems(items, router, open, s);
            var (s2, r) := Resolved(j, router, open, s1);
            RunItems(items + [j], router, open, s) == (s2, rs + [r])
  {
    assert (items + [j])[..|items|] == items;
    RunNext(items + [j], |items|, router, open, s);
    assert (items + [j])[..|items| + 1] == items + [j];
  }

  /** One answer per call. */
  lemma {:induction false} EveryCallAnswered<S>(calls: seq<Json>, router: Router<S>, open: bool, s: S)
    requires forall i :: 0 <= i < |calls| ==> !Notification(calls[i])
    ensures |Answers(RunItems(calls, router, open, s).1)| == |calls|
  {
    if calls != [] {
      var n := |calls| - 1;
      EveryCallAnswered(calls[..n], router, open, s);
      var (s1, rs) := RunItems(calls[..n], router, open, s);
      ResultNext(rs, Resolved(calls[n], router, open, s1).1);
    }
  }

  lemma {:induction false} CallsAreCalls(items: seq<Json>)
    ensures forall i :: 0 <= i < |Calls(items)| ==> !Notification(Calls(items)[i])
  {
    if items != [] { CallsAreCalls(items[..|items| - 1]); }
  }

  /** The `k`-th answer has the `k`-th call's id and its outcome on the store the earlier calls left. */
  lemma {:induction false} AnswerOfCall<S>(calls: seq<Json>, router: Router<S>, open: bool, s: S, k: nat)
    requires forall i :: 0 <= i < |calls| ==> !Notification(calls[i])
    requires k < |calls|
    ensures |Answers(RunItems(calls, router, open, s).1)| == |calls|
    ensures Answers(RunItems(calls, router, open, s).1)[k] ==
            Answer(IdOf(calls[k]), Ran(PlanOf(calls[k], router), open, RunItems(calls[..k], router, open, s).0).1)
  {
    var n := |calls| - 1;
    EveryCallAnswered(calls, router, open, s);
    EveryCallAnswered(calls[..n], router, open, s);
    var (s1, rs) := RunItems(calls[..n], router, open, s);
    ResultNext(rs, Resolved(calls[n], router, open, s1).1);
    if k < n {
      AnswerOfCall(calls[..n], router, open, s, k);
      assert calls[..n][..k] == calls[..k];
    }
  }

  /** What the batch reports of an answer. */
  function AnswerAfter(a: Answer, allSucceeded: bool): Answer {
    if !allSucceeded && a.outcome.Success? then Answer(a.id, Failure(RolledBack)) else a
  }

  predicate NotificationsAreEmpty(rs: seq<SingleResult>) {
    forall i :: 0 <= i < |rs| && rs[i].isNotification ==> rs[i].outcome.Nothing?
  }

  lemma {:induction false} OnlyEmptyNotifications<S>(items: seq<Json>, router: Router<S>, open: bool, s: S)
    ensures NotificationsAreEmpty(RunItems(items, router, open, s).1)
  {
    if items != [] { OnlyEmptyNotifications(items[..|items| - 1], router, open, s); }
  }

  lemma {:induction false} RollbackByAnswer(rs: seq<SingleResult>, rs': seq<SingleResult>, k: nat)
    requires |rs| == |rs'| && forall i :: 0 <= i < |rs| ==> rs'[i] == AfterRollback(rs[i])
    requires k < |Answers(rs)|
    ensures |Answers(rs')| == |Answers(rs)|
    ensures Answers(rs')[k] == AnswerAfter(Answers(rs)[k], false)
  {
    var n := |rs| - 1;
    SameCount(rs, rs');
    SameCount(rs[..n], rs'[..n]);
    if k < |Answers(rs[..n])| { RollbackByAnswer(rs[..n], rs'[..n], k); }
  }

  lemma {:induction false} SameCount(rs: seq<SingleResult>, rs': seq<SingleResult>)
    requires |rs| == |rs'| && forall i :: 0 <= i < |rs| ==> rs'[i] == AfterRollback(rs[i])
    ensures |Answers(rs')| == |Answers(rs)|
  {
    if rs != [] { SameCount(rs[..|rs| - 1], rs'[..|rs| - 1]); }
  }

  predicate AllResults(answers: seq<Answer>) {
    forall k :: 0 <= k < |answers| ==> answers[k].outcome.Success?
  }

  lemma AllResultsSnoc(answers: seq<Answer>, a: Answer)
    ensures AllResults(answers + [a]) <==> AllResults(answers) && a.outcome.Success?
  {
    assert (answers + [a])[|answers|] == a;
    assert forall k :: 0 <= k < |answers| ==> (answers + [a])[k] == answers[k];
  }

  lemma {:induction false} SucceededByAnswer(rs: seq<SingleResult>)
    requires NotificationsAreEmpty(rs)
    ensures AllSucceeded(rs) <==> AllResults(Answers(rs))
  {
    if rs != [] {
      var n := |rs| - 1;
      assert rs == rs[..n] + [rs[n]];
      ResultNext(rs[..n], rs[n]);
      SucceededByAnswer(rs[..n]);
      if rs[n].isNotification {
        assert Answers(rs) == Answers(rs[..n]);
      } else {
        AllResultsSnoc(Answers(rs[..n]), Answer(rs[n].id, rs[n].outcome));
      }
    }
  }

  /** The outcome of the `k`-th call when the calls before it have been run. */
  function OwnOutcome<S>(calls: seq<Json>, router: Router<S>, open: bool, s: S, k: nat): Outcome
    requires k < |calls|
  {
    Ran(PlanOf(calls[k], router), open, RunItems(calls[..k], router, open, s).0).1
  }

  /** A batch answers its calls, in order, each under its own id.  It counts as successful exactly when
      every call succeeds on the store its predecessors left; then the answers are the calls' own outcomes,
      and otherwise no answer carries a result while every failure stays its own. */
  lemma BatchAnswers<S>(items: seq<Json>, router: Router<S>, open: bool, s: S)
    ensures var (calls, rs) := (Calls(items), RunItems(items, router, open, s).1);
            && |Answers(Reported(rs))| == |calls|
            && (AllSucceeded(rs) <==> forall k :: 0 <= k < |calls| ==> OwnOutcome(calls, router, open, s, k).Success?)
            && (forall k :: 0 <= k < |calls| ==>
                  Answers(Reported(rs))[k] ==
                  AnswerAfter(Answer(IdOf(calls[k]), OwnOutcome(calls, router, open, s, k)), AllSucceeded(rs)))
  {
    var (calls, rs) := (Calls(items), RunItems(items, router, open, s).1);
    OwnAnswers(items, router, open, s);
    OnlyEmptyNotifications(items, router, open, s);
    SucceededByAnswer(rs);
    ReportedAnswers(rs);
  }

  lemma OwnAnswers<S>(items: seq<Json>, router: Router<S>, open: bool, s: S)
    ensures var (calls, rs) := (Calls(items), RunItems(items, router, open, s).1);
            && |Answers(rs)| == |calls|
            && forall k :: 0 <= k < |calls| ==>
                 Answers(rs)[k] == Answer(IdOf(calls[k]), OwnOutcome(calls, router, open, s, k))
  {
    var calls := Calls(items);
    CallsAreCalls(items);
    NotificationsAreInert(items, router, open, s);
    EveryCallAnswered(calls, router, open, s);
    forall k | 0 <= k < |calls|
      ensures Answers(RunItems(calls, router, open, s).1)[k] ==
              Answer(IdOf(calls[k]), OwnOutcome(calls, router, open, s, k))
    {
      AnswerOfCall(calls, router, open, s, k);
    }
  }

  lemma ReportedAnswers(rs: seq<SingleResult>)
    ensures |Answers(Reported(rs))| == |Answers(rs)|
    ensures forall k :: 0 <= k < |Answers(rs)| ==>
              Answers(Reported(rs))[k] == AnswerAfter(Answers(rs)[k], AllSucceeded(rs))
  {
    if !AllSucceeded(rs) {
      SameCount(rs, Reported(rs));
      forall k | 0 <= k < |Answers(rs)| ensures Answers(Reported(rs))[k] == AnswerAfter(Answers(rs)[k], false) {
        RollbackByAnswer(rs, Reported(rs), k);
      }
    }
  }

  /** Nothing is sent back exactly when every item is a notification. */
  lemma SilentBatch<S>(items: seq<Json>, router: Router<S>, open: bool, s: S)
    ensures BatchPayload(RunItems(items, router, open, s).1).body == NoBody <==>
            forall i :: 0 <= i < |items| ==> Notification(items[i])
  {
    NotificationsAreInert(items, router, open, s);
    CallsAreCalls(items);
    EveryCallAnswered(Calls(items), router, open, s);
    NoCalls(items);
  }

  lemma {:induction false} NoCalls(items: seq<Json>)
    ensures Calls(items) == [] <==> forall i :: 0 <= i < |items| ==> Notification(items[i])
  {
    if items != [] {
      var n := |items| - 1;
      NoCalls(items[..n]);
      assert forall i :: 0 <= i < n ==> items[..n][i] == items[i];
    }
  }

  lemma {:induction false} HeadersOfSuccess(rs: seq<SingleResult>, i: nat, h: (string, string))
    requires i < |rs| && rs[i].outcome.Success? && h in rs[i].outcome.headers
    ensures h in Headers(rs)
  {
    var n := |rs| - 1;
    if i < n { HeadersOfSuccess(rs[..n], i, h); }
  }

  lemma {:induction false} HeadersFromSuccess(rs: seq<SingleResult>, h: (string, string))
    requires h in Headers(rs)
    ensures exists i :: 0 <= i < |rs| && rs[i].outcome.Success? && h in rs[i].outcome.headers
  {
    var n := |rs| - 1;
    if h in Headers(rs[..n]) {
      HeadersFromSuccess(rs[..n], h);
      var i :| 0 <= i < n && rs[..n][i].outcome.Success? && h in rs[..n][i].outcome.headers;
      assert rs[i] == rs[..n][i];
    }
  }

  lemma {:induction false} SomeAnswer(rs: seq<SingleResult>, i: nat)
    requires i < |rs| && !rs[i].isNotification
    ensures Answers(rs) != []
  {
    var n := |rs| - 1;
    if i < n { SomeAnswer(rs[..n], i); }
  }

  /** If a call of a batch failed, no answer carries a result any more, yet the headers sent are those of all its
      successes, rolled back as they are. */
  lemma HeadersSurviveRollback(rs: seq<SingleResult>, h: (string, string))
    requires !AllSucceeded(rs)
    ensures var p := BatchPayload(rs);
            && p.body.Stream? && (forall k :: 0 <= k < |p.body.answers| ==> !p.body.answers[k].outcome.Success?)
            && (h in p.headers <==> h in JSON_CONTENT
                                    || exists i ::
                                         0 <= i < |rs| && rs[i].outcome.Success? && h in rs[i].outcome.headers)
  {
    var f :| 0 <= f < |rs| && !Succeeded(rs[f]);
    SomeAnswer(rs, f);
    ReportedAnswers(rs);
    if h in Headers(rs) { HeadersFromSuccess(rs, h); }
    if i :| 0 <= i < |rs| && rs[i].outcome.Success? && h in rs[i].outcome.headers { HeadersOfSuccess(rs, i, h); }
  }
}
