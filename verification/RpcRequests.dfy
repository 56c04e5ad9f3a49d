/** What a JSON-RPC router makes of the JSON it is sent, item by item and as a batch. */
module RpcRequests {
  import opened Wrappers
  import opened Values
  import opened RpcBatch
  import opened RpcBatchTheorems

  // ----- The fields of a request -----

  /** The fields of a request object by name, or those of an array of four by position; an absent one is `None`. */
  ghost predicate RequestField(j: Json, name: string, position: nat, v: Option<Json>) {
    match j
    case JObject(fields) => if name in fields then v == Some(fields[name]) else v == None
    case JArray(items) => |items| == 4 && position < 4 && v == Some(items[position])
    case _ => false
  }

  /** The fields of an item that has the form of a request. */
  datatype Fields = Fields(version: string, id: Option<Json>, method_: string, params: Option<Json>)

  ghost predicate HasFields(j: Json, f: Fields) {
    && RequestField(j, "jsonrpc", 0, Some(JString(f.version)))
    && RequestField(j, "id", 1, f.id)
    && RequestField(j, "method", 2, Some(JString(f.method_)))
    && RequestField(j, "params", 3, f.params)
    && (f.id == None || f.id == Some(JNull) || IsId(f.id.value))
  }

  /** A string or an unsigned integer. */
  predicate IsId(j: Json) {
    j.JString? || (j.JNumber? && j.n.PosInt?)
  }

  /** The id under which a request is answered. */
  predicate AnsweredUnder(id: Option<Json>, answer: Option<Id>) {
    match id
    case Some(JString(s)) => answer == Some(StringId(s))
    case Some(JNumber(PosInt(n))) => answer == Some(NumberId(n))
    case _ => answer == None
  }

  /** An absent or null id. */
  predicate WithoutId(f: Fields) {
    f.id == None || f.id == Some(JNull)
  }

  // ----- Handling an item -----

  /** What handling item `j` on store `s` makes of the store, and its result. */
  ghost predicate Handles<S>(j: Json, router: Router<S>, open: bool, s: S, s': S, r: SingleResult) {
    if f :| HasFields(j, f) then HandlesRequest(f, router, open, s, s', r)
    else s' == s && r == SingleResult(None, Failure(InvalidRequest), false)
  }

  ghost predicate HandlesRequest<S>(f: Fields, router: Router<S>, open: bool, s: S, s': S, r: SingleResult) {
    if f.version != "2.0" then
      s' == s && AnsweredUnder(f.id, r.id) && r.outcome == Failure(InvalidRequest) && !r.isNotification
    else if WithoutId(f) then s' == s && r == SingleResult(None, Nothing, true)
    else
      && AnsweredUnder(f.id, r.id) && !r.isNotification
      && if f.method_ == "rpc.discover" then s' == s && r.outcome == Success(router.document, [])
         else HandlesCall(router.resolve(f.method_, if f.params == Some(JNull) then None else f.params), open, s, s',
                          r.outcome)
  }

  /** The resolver answers by itself, or runs its script unless the transaction is over. */
  ghost predicate HandlesCall<S>(p: Plan<S>, open: bool, s: S, s': S, outcome: Outcome) {
    match p
    case Offline(o) => s' == s && outcome == o
    case Script(run, _, refused) => if open then (s', outcome) == run(s) else s' == s && outcome == refused
  }

  lemma FieldsExactly(j: Json, f: Fields)
    ensures HasFields(j, f) <==>
            var r := ParseRequest(j);
            && r.Some? && r.value.version == f.version && r.value.name == f.method_
            && RequestField(j, "id", 1, f.id) && RequestField(j, "params", 3, f.params)
    ensures HasFields(j, f) ==>
              var r := ParseRequest(j).value;
              && AnsweredUnder(f.id, r.id) && (r.id.None? <==> WithoutId(f))
              && r.params == if f.params == Some(JNull) then None else f.params
  {
  }

  lemma FieldsThere(j: Json) returns (f: Fields)
    ensures ParseRequest(j).Some? ==> HasFields(j, f)
  {
    match j
    case JObject(fs) =>
      f := Fields(if ParseRequest(j).Some? then fs["jsonrpc"].s else "", At(fs, "id"),
                  if ParseRequest(j).Some? then fs["method"].s else "", At(fs, "params"));
    case JArray(items) =>
      f := if ParseRequest(j).Some? then Fields(items[0].s, Some(items[1]), items[2].s, Some(items[3]))
           else Fields("", None, "", None);
    case _ => f := Fields("", None, "", None);
  }

  /** Handling an item does what is said of it, and nothing else does. */
  lemma HandlesExactly<S>(j: Json, router: Router<S>, open: bool, s: S, s': S, r: SingleResult)
    ensures Handles(j, router, open, s, s', r) <==> (s', r) == Resolved(j, router, open, s)
  {
    var g := FieldsThere(j);
    forall f
      ensures HasFields(j, f) ==> ParseRequest(j).Some?
      ensures HasFields(j, f) ==>
                (HandlesRequest(f, router, open, s, s', r) <==> (s', r) == Resolved(j, router, open, s))
    {
      if HasFields(j, f) { RequestExactly(j, f, router, open, s, s', r); }
    }
  }

  lemma RequestExactly<S>(j: Json, f: Fields, router: Router<S>, open: bool, s: S, s': S, r: SingleResult)
    requires HasFields(j, f)
    ensures ParseRequest(j).Some?
    ensures HandlesRequest(f, router, open, s, s', r) <==> (s', r) == Resolved(j, router, open, s)
  {
    FieldsExactly(j, f);
    assert SingleResult(r.id, r.outcome, r.isNotification) == r;
  }

  /** A notification is a request of the right version without an id. */
  lemma NotificationExactly(j: Json)
    ensures Notification(j) <==> exists f :: HasFields(j, f) && f.version == "2.0" && WithoutId(f)
  {
    var g := FieldsThere(j);
    forall f ensures HasFields(j, f) ==> (Notification(j) <==> f.version == "2.0" && WithoutId(f)) {
      FieldsExactly(j, f);
    }
  }

  // ----- Handling a batch -----

  /** The items are handled in order, each on the store that the one before has left. */
  ghost predicate HandlesItems<S(!new)>(items: seq<Json>, router: Router<S>, open: bool, s: S, s': S,
                                        rs: seq<SingleResult>)
  {
    if items == [] then s' == s && rs == []
    else rs != [] && exists s1 :: Handles(items[0], router, open, s, s1, rs[0]) &&
                                  HandlesItems(items[1..], router, open, s1, s', rs[1..])
  }

  lemma {:induction false} RunFront<S>(j: Json, rest: seq<Json>, router: Router<S>, open: bool, s: S)
    ensures var (s1, r) := Resolved(j, router, open, s);
            var (s2, rs) := RunItems(rest, router, open, s1);
            RunItems([j] + rest, router, open, s) == (s2, [r] + rs)
  {
    if rest == [] {
      assert [j] + rest == [j] && [j][..0] == [];
      var (s1, r) := Resolved(j, router, open, s);
      assert [] + [r] == [r] + [];
    } else {
      var n := |rest| - 1;
      RunFront(j, rest[..n], router, open, s);
      assert ([j] + rest)[..n + 1] == [j] + rest[..n] && ([j] + rest)[n + 1] == rest[n];
      var (s1, r) := Resolved(j, router, open, s);
      var (s2, rs) := RunItems(rest[..n], router, open, s1);
      var (s3, last) := Resolved(rest[n], router, open, s2);
      assert [r] + rs + [last] == [r] + (rs + [last]);
    }
  }

  lemma {:induction false} ItemsExactly<S(!new)>(items: seq<Json>, router: Router<S>, open: bool, s: S, s': S,
                                                 rs: seq<SingleResult>)
    ensures HandlesItems(items, router, open, s, s', rs) <==> (s', rs) == RunItems(items, router, open, s)
    decreases |items|
  {
    if items != [] {
      var j, rest := items[0], items[1..];
      assert items == [j] + rest;
      RunFront(j, rest, router, open, s);
      var (s1, r) := Resolved(j, router, open, s);
      if rs != [] {
        forall t ensures Handles(j, router, open, s, t, rs[0]) <==> (t, rs[0]) == (s1, r) {
          HandlesExactly(j, router, open, s, t, rs[0]);
        }
        ItemsExactly(rest, router, open, s1, s', rs[1..]);
        assert rs == [rs[0]] + rs[1..];
      }
    }
  }

  // ----- Replies -----

  const JSON_TYPE := [("content-type", "application/json")]

  /** A call that has not succeeded. */
  predicate SomeFailed(rs: seq<SingleResult>) {
    exists i :: 0 <= i < |rs| && !rs[i].isNotification && !rs[i].outcome.Success?
  }

  /** One answer for each call, in order; if one has failed, those that have not are answered by the rollback. */
  function AnswersOf(rs: seq<SingleResult>, failed: bool): seq<Answer> {
    if rs == [] then []
    else if rs[0].isNotification then AnswersOf(rs[1..], failed)
    else [Answer(rs[0].id, if failed && rs[0].outcome.Success? then Failure(RolledBack) else rs[0].outcome)]
         + AnswersOf(rs[1..], failed)
  }

  function HeadersOf(rs: seq<SingleResult>): seq<(string, string)> {
    if rs == [] then []
    else if rs[0].outcome.Success? then rs[0].outcome.headers + HeadersOf(rs[1..]) else HeadersOf(rs[1..])
  }

  /** Nothing is sent for notifications only. */
  function Reply(rs: seq<SingleResult>): Payload {
    if forall i :: 0 <= i < |rs| ==> rs[i].isNotification then Payload(NoBody, [], 204)
    else Payload(Stream(AnswersOf(rs, SomeFailed(rs))), JSON_TYPE + HeadersOf(rs), 200)
  }

  function ReplyToOne(r: SingleResult): Payload {
    if r.isNotification then Payload(NoBody, [], 204)
    else Payload(One(Answer(r.id, r.outcome)), JSON_TYPE + if r.outcome.Success? then r.outcome.headers else [], 200)
  }

  lemma {:induction false} HeadersFront(rs: seq<SingleResult>)
    ensures Headers(rs) == HeadersOf(rs)
  {
    if rs != [] {
      HeadersSplit(rs[0], rs[1..]);
      assert rs == [rs[0]] + rs[1..];
      HeadersFront(rs[1..]);
    }
  }

  lemma {:induction false} HeadersSplit(r: SingleResult, rs: seq<SingleResult>)
    ensures Headers([r] + rs) == (if r.outcome.Success? then r.outcome.headers else []) + Headers(rs)
  {
    if rs == [] {
      assert [r] + rs == [r] && [r][..0] == [];
    } else {
      var n := |rs| - 1;
      assert ([r] + rs)[..n + 1] == [r] + rs[..n] && ([r] + rs)[n + 1] == rs[n];
      HeadersSplit(r, rs[..n]);
    }
  }

  lemma {:induction false} AnswersFront(rs: seq<SingleResult>)
    ensures Answers(rs) == AnswersOf(rs, false)
  {
    if rs != [] {
      AnswersSplit(rs[0], rs[1..]);
      assert rs == [rs[0]] + rs[1..];
      AnswersFront(rs[1..]);
    }
  }

  lemma {:induction false} AnswersSplit(r: SingleResult, rs: seq<SingleResult>)
    ensures Answers([r] + rs) == (if r.isNotification then [] else [Answer(r.id, r.outcome)]) + Answers(rs)
  {
    if rs == [] {
      assert [r] + rs == [r] && [r][..0] == [];
    } else {
      var n := |rs| - 1;
      assert ([r] + rs)[..n + 1] == [r] + rs[..n] && ([r] + rs)[n + 1] == rs[n];
      AnswersSplit(r, rs[..n]);
    }
  }

  lemma {:induction false} RolledBackAnswers(rs: seq<SingleResult>)
    ensures AnswersOf(seq(|rs|, i requires 0 <= i < |rs| => AfterRollback(rs[i])), false) == AnswersOf(rs, true)
  {
    if rs != [] {
      var all := seq(|rs|, i requires 0 <= i < |rs| => AfterRollback(rs[i]));
      assert all[1..] == seq(|rs[1..]|, i requires 0 <= i < |rs[1..]| => AfterRollback(rs[1..][i]));
      RolledBackAnswers(rs[1..]);
    }
  }

  lemma {:induction false} NoAnswers(rs: seq<SingleResult>, failed: bool)
    ensures AnswersOf(rs, failed) == [] <==> forall i :: 0 <= i < |rs| ==> rs[i].isNotification
  {
    if rs != [] {
      NoAnswers(rs[1..], failed);
      assert forall i :: 0 < i < |rs| ==> rs[i] == rs[1..][i - 1];
      if forall i :: 0 <= i < |rs| ==> rs[i].isNotification {
        assert forall i :: 0 <= i < |rs[1..]| ==> rs[1..][i] == rs[i + 1];
      }
    }
  }

  /** What is sent for the results of a batch. */
  lemma ReplyExactly(rs: seq<SingleResult>)
    ensures BatchPayload(rs) == Reply(rs)
  {
    AnswersFront(rs);
    HeadersFront(rs);
    NoAnswers(rs, false);
    assert AllSucceeded(rs) <==> !SomeFailed(rs);
    if !AllSucceeded(rs) {
      RolledBackAnswers(rs);
      AnswersFront(Reported(rs));
    }
  }

  /** A batch is answered by what handling its items in order has made of them. */
  lemma BatchMeans<S(!new)>(items: seq<Json>, router: Router<S>, open: bool, s: S, s': S, rs: seq<SingleResult>)
    requires HandlesItems(items, router, open, s, s', rs)
    ensures RunItems(items, router, open, s) == (s', rs)
    ensures BatchPayload(RunItems(items, router, open, s).1) == Reply(rs)
    ensures AllSucceeded(RunItems(items, router, open, s).1) <==> !SomeFailed(rs)
  {
    ItemsExactly(items, router, open, s, s', rs);
    ReplyExactly(rs);
  }

  /** A request that is no batch is answered for itself. */
  lemma SingleMeans<S>(j: Json, router: Router<S>, open: bool, s: S, s': S, r: SingleResult)
    requires Handles(j, router, open, s, s', r)
    ensures Resolved(j, router, open, s) == (s', r) && (Notification(j) <==> r.isNotification)
    ensures ReplyToOne(r) ==
            if Notification(j) then Payload(NoBody, [], 204)
            else Payload(One(Answer(IdOf(j), r.outcome)), JSON_CONTENT + Headers([r]), 200)
  {
    HandlesExactly(j, router, open, s, s', r);
    assert [r][..0] == [];
  }

  /** An empty batch is answered as an invalid request. */
  lemma EmptyBatchIsInvalid()
    ensures EMPTY_BATCH ==
            Payload(One(Answer(None, Failure(InvalidRequest))), [("content-type", "application/json")], 200)
  {
  }
}
