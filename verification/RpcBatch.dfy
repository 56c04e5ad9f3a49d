/** JSON-RPC requests and batches over one transaction. */
module RpcBatch {
  import opened Wrappers
  import opened Values

  // ----- Requests -----

  datatype Id = StringId(s: string) | NumberId(n: Uint64)

  datatype Request = Request(version: string, id: Option<Id>, name: string, params: Option<Json>)

  datatype RpcError =
    | InvalidRequest
    | RolledBack
    | Other(code: string, message: string)

  /** `Nothing` answers a notification, and stands for a method nobody resolves otherwise. */
  datatype Outcome =
    | Success(body: Json, headers: seq<(string, string)>)
    | Nothing
    | Failure(error: RpcError)

  datatype SingleResult = SingleResult(id: Option<Id>, outcome: Outcome, isNotification: bool)

  /** An absent or null id, a string, or an unsigned integer; anything else is malformed. */
  function ParseId(j: Option<Json>): Option<Option<Id>> {
    match j
    case None => Some(None)
    case Some(JNull) => Some(None)
    case Some(JString(s)) => Some(Some(StringId(s)))
    case Some(JNumber(PosInt(n))) => Some(Some(NumberId(n)))
    case _ => None
  }

  function ParseParts(version: Option<Json>, id: Option<Json>, name: Option<Json>,
                      params: Option<Json>): Option<Request> {
    if version.Some? && version.value.JString? && name.Some? && name.value.JString? && ParseId(id).Some? then
      Some(Request(version.value.s, ParseId(id).value, name.value.s, if params == Some(JNull) then None else params))
    else
      None
  }

  function At(fields: map<string, Json>, k: string): Option<Json> {
    if k in fields then Some(fields[k]) else None
  }

  /** The derived reader takes an object by field names, or an array of the fields in order. */
  function ParseRequest(j: Json): Option<Request> {
    match j
    case JObject(fs) => ParseParts(At(fs, "jsonrpc"), At(fs, "id"), At(fs, "method"), At(fs, "params"))
    case JArray(items) =>
      if |items| == 4 then ParseParts(Some(items[0]), Some(items[1]), Some(items[2]), Some(items[3])) else None
    case _ => None
  }

  // ----- The transaction -----

  datatype Status = Idle | Active | Finalized

  /** What a resolver does: answer without the database, or run a script on it. */
  datatype Plan<!S> =
    | Offline(outcome: Outcome)
    | Script(run: S -> (S, Outcome), needsTransaction: bool, refused: Outcome)

  /** The plan runs inside a transaction, one that is open already or one that is opened for it. */
  predicate RunsInside<S>(p: Plan<S>, status: Status, needed: bool) {
    status.Active? || (status.Idle? && p.Script? && (p.needsTransaction || needed))
  }

  class TransactionHolder<S(!new)> {
    var needsTransaction: bool
    var status: Status
    /** What other connections see, and what this one sees while its transaction is open. */
    var committed: S
    var working: S
    ghost var finalizations: seq<bool>

    constructor (s: S)
      ensures !needsTransaction && status == Idle && committed == s && finalizations == []
    {
      needsTransaction, status, committed, working, finalizations := false, Idle, s, s, [];
    }

    function Current(): S
      reads this
    {
      if status.Active? then working else committed
    }

    method EnsureTransaction()
      modifies this`needsTransaction
      ensures needsTransaction
    {
      needsTransaction := true;
    }

    /** Opens the transaction if the script or an earlier caller wants one; without one, the script commits by
        itself. */
    method Run(p: Plan<S>) returns (outcome: Outcome)
      modifies this
      ensures needsTransaction == old(needsTransaction) && finalizations == old(finalizations)
      ensures status.Finalized? == old(status.Finalized?)
      ensures (Current(), outcome) == Ran(p, !old(status).Finalized?, old(Current()))
      ensures status.Active? <==>
                old(status).Active? ||
                (old(status).Idle? && p.Script? && (p.needsTransaction || old(needsTransaction)))
      ensures status.Active? <==> RunsInside(p, old(status), old(needsTransaction))
      ensures committed == if RunsInside(p, old(status), old(needsTransaction)) then old(committed) else Current()
    {
      if p.Offline? { return p.outcome; }
      if status.Finalized? { return p.refused; }
      if (p.needsTransaction || needsTransaction) && status.Idle? {
        status, working := Active, committed;
      }
      var (s, r) := p.run(Current());
      outcome := r;
      if status.Active? { working := s; } else { committed := s; }
    }

    /** A refused `COMMIT` or `ROLLBACK` leaves the transaction open and nothing committed. */
    method Finalize(commit: bool, accepted: bool) returns (ok: bool)
      modifies this
      ensures needsTransaction == old(needsTransaction) && finalizations == old(finalizations) + [commit]
      ensures ok == (!old(status).Active? || accepted)
      ensures status == if ok then Finalized else old(status)
      ensures committed == if old(status).Active? && accepted && commit then old(working) else old(committed)
    {
      finalizations := finalizations + [commit];
      if status.Active? {
        if !accepted { return false; }
        if commit { committed := working; }
      }
      status := Finalized;
      ok := true;
    }
  }

  /** The store seen next on this connection, and the answer. */
  function Ran<S>(p: Plan<S>, open: bool, s: S): (S, Outcome) {
    match p
    case Offline(outcome) => (s, outcome)
    case Script(run, _, refused) => if open then run(s) else (s, refused)
  }

  // ----- One request -----

  const VERSION := "2.0"
  const DISCOVER := "rpc.discover"

  /** What a router knows: its document, and how subsystems resolve a method. */
  datatype Router<!S> = Router(document: Json, resolve: (string, Option<Json>) -> Plan<S>)

  predicate Notification(j: Json) {
    var r := ParseRequest(j);
    r.Some? && r.value.version == VERSION && r.value.id.None?
  }

  function IdOf(j: Json): Option<Id> {
    var r := ParseRequest(j);
    if r.Some? then r.value.id else None
  }

  /** What handling an item amounts to, before anything is run. */
  function PlanOf<S>(j: Json, router: Router<S>): Plan<S> {
    match ParseRequest(j)
    case None => Offline(Failure(InvalidRequest))
    case Some(r) =>
      if r.version != VERSION then Offline(Failure(InvalidRequest))
      else if r.id.None? then Offline(Nothing)
      else if r.name == DISCOVER then Offline(Success(router.document, []))
      else router.resolve(r.name, r.params)
  }

  function Resolved<S>(j: Json, router: Router<S>, open: bool, s: S): (S, SingleResult) {
    var (s', outcome) := Ran(PlanOf(j, router), open, s);
    (s', SingleResult(IdOf(j), outcome, Notification(j)))
  }

  method ResolveSingleRequest<S(!new)>(j: Json, router: Router<S>, holder: TransactionHolder<S>)
      returns (r: SingleResult)
    modifies holder
    ensures holder.needsTransaction == old(holder.needsTransaction) && holder.finalizations == old(holder.finalizations)
    ensures holder.status.Finalized? == old(holder.status.Finalized?)
    ensures (holder.Current(), r) == Resolved(j, router, !old(holder.status).Finalized?, old(holder.Current()))
    ensures var inside := RunsInside(PlanOf(j, router), old(holder.status), old(holder.needsTransaction));
            (holder.status.Active? <==> inside) && holder.committed == if inside then old(holder.committed)
              else holder.Current()
  {
    var request := ParseRequest(j);
    if request.None? { return SingleResult(None, Failure(InvalidRequest), false); }
    var id := request.value.id;
    if request.value.version != VERSION { return SingleResult(id, Failure(InvalidRequest), false); }
    if id.None? { return SingleResult(None, Nothing, true); }
    if request.value.name == DISCOVER { return SingleResult(id, Success(router.document, []), false); }
    var outcome := holder.Run(router.resolve(request.value.name, request.value.params));
    r := SingleResult(id, outcome, false);
  }

  // ----- Answers -----

  /** `Nothing` is written as the error "method not found". */
  datatype Answer = Answer(id: Option<Id>, outcome: Outcome)

  datatype Body = NoBody | One(answer: Answer) | Stream(answers: seq<Answer>)

  datatype Payload = Payload(body: Body, headers: seq<(string, string)>, status: nat)

  const JSON_CONTENT := [("content-type", "application/json")]

  predicate Succeeded(r: SingleResult) {
    r.isNotification || r.outcome.Success?
  }

  predicate AllSucceeded(rs: seq<SingleResult>) {
    forall i :: 0 <= i < |rs| ==> Succeeded(rs[i])
  }

  function Headers(rs: seq<SingleResult>): seq<(string, string)> {
    if rs == [] then []
    else Headers(rs[..|rs| - 1]) + if rs[|rs| - 1].outcome.Success? then rs[|rs| - 1].outcome.headers else []
  }

  /** A success that has been rolled back becomes an error. */
  function AfterRollback(r: SingleResult): SingleResult {
    if r.outcome.Success? then SingleResult(r.id, Failure(RolledBack), r.isNotification) else r
  }

  function Reported(rs: seq<SingleResult>): seq<SingleResult> {
    if AllSucceeded(rs) then rs else seq(|rs|, i requires 0 <= i < |rs| => AfterRollback(rs[i]))
  }

  function Answers(rs: seq<SingleResult>): seq<Answer> {
    if rs == [] then []
    else
      var last := rs[|rs| - 1];
      Answers(rs[..|rs| - 1]) + if last.isNotification then [] else [Answer(last.id, last.outcome)]
  }

  /** The items in order, each on the store the earlier ones left. */
  function RunItems<S>(items: seq<Json>, router: Router<S>, open: bool, s: S): (r: (S, seq<SingleResult>))
    ensures |r.1| == |items|
  {
    if items == [] then (s, [])
    else
      var n := |items| - 1;
      var (s1, rs) := RunItems(items[..n], router, open, s);
      var (s2, r) := Resolved(items[n], router, open, s1);
      (s2, rs + [r])
  }

  function BatchPayload(rs: seq<SingleResult>): Payload {
    if Answers(rs) == [] then Payload(NoBody, [], 204)
    else Payload(Stream(Answers(Reported(rs))), JSON_CONTENT + Headers(rs), 200)
  }

  const EMPTY_BATCH := Payload(One(Answer(None, Failure(InvalidRequest))), JSON_CONTENT, 200)

  lemma ReportedNotifications(rs: seq<SingleResult>)
    ensures Answers(rs) == [] <==> Answers(Reported(rs)) == []
  {
    if rs != [] && !AllSucceeded(rs) {
      AnswersAfterRollback(rs);
    }
  }

  lemma {:induction false} AnswersAfterRollback(rs: seq<SingleResult>)
    ensures var back := seq(|rs|, i requires 0 <= i < |rs| => AfterRollback(rs[i]));
            |Answers(back)| == |Answers(rs)|
  {
    if rs != [] {
      var n := |rs| - 1;
      var back := seq(|rs|, i requires 0 <= i < |rs| => AfterRollback(rs[i]));
      AnswersAfterRollback(rs[..n]);
      assert back[..n] == seq(n, i requires 0 <= i < n => AfterRollback(rs[..n][i]));
    }
  }

  /** `accepted`: the database's answer to a final `COMMIT` or `ROLLBACK`. */
  method HandleBatch<S(!new)>(items: seq<Json>, router: Router<S>, holder: TransactionHolder<S>, internal: bool,
                              accepted: bool)
    returns (payload: Payload)
    modifies holder
    ensures items == [] ==>
              payload == EMPTY_BATCH && holder.finalizations == old(holder.finalizations) &&
              holder.status == old(holder.status) &&
              holder.Current() == old(holder.Current()) && holder.committed == old(holder.committed)
    ensures items != [] ==>
              var (s, rs) := RunItems(items, router, !old(holder.status).Finalized?, old(holder.Current()));
              && payload == BatchPayload(rs)
              && holder.finalizations == old(holder.finalizations) + (if internal then [] else [AllSucceeded(rs)])
              && (internal ==> holder.committed == old(holder.committed) && holder.Current() == s)
              && (!internal ==> holder.committed == if AllSucceeded(rs) && accepted then s else old(holder.committed))
              && (!internal && accepted ==> holder.status == Finalized)
  {
    if items == [] { return EMPTY_BATCH; }
    holder.EnsureTransaction();
    var results, headers, allSucceeded := ResolveItems(items, router, holder);
    if !internal {
      var _ := holder.Finalize(allSucceeded, accepted);
    }
    payload := Render(results, headers, allSucceeded);
  }

  /** What is sent back for the results of a batch. */
  method Render(rs: seq<SingleResult>, headers: seq<(string, string)>, allSucceeded: bool) returns (payload: Payload)
    requires allSucceeded == AllSucceeded(rs) && headers == JSON_CONTENT + Headers(rs)
    ensures payload == BatchPayload(rs)
  {
    var results := rs;
    if !allSucceeded { results := ReplaceSuccesses(results); }
    assert results == Reported(rs);
    ReportedNotifications(rs);
    var answers := WithoutNotifications(results);
    payload := if answers == [] then Payload(NoBody, [], 204) else Payload(Stream(answers), headers, 200);
  }

  method ResolveItems<S(!new)>(items: seq<Json>, router: Router<S>, holder: TransactionHolder<S>)
    returns (results: seq<SingleResult>, headers: seq<(string, string)>, allSucceeded: bool)
    requires holder.needsTransaction
    modifies holder
    ensures (holder.Current(), results) ==
            RunItems(items, router, !old(holder.status).Finalized?, old(holder.Current()))
    ensures allSucceeded == AllSucceeded(results)
    ensures headers == JSON_CONTENT + Headers(results)
    ensures holder.status.Finalized? == old(holder.status).Finalized?
    ensures holder.committed == old(holder.committed) && holder.finalizations == old(holder.finalizations)
  {
    results, headers, allSucceeded := [], JSON_CONTENT, true;
    ghost var open, start := !holder.status.Finalized?, holder.Current();
    assert items[..0] == [];
    for i := 0 to |items|
      invariant Resolving(items[..i], router, open, start, holder.Current(), results, headers, allSucceeded)
      invariant holder.needsTransaction && holder.status.Finalized? == !open
      invariant holder.committed == old(holder.committed) && holder.finalizations == old(holder.finalizations)
    {
      results, headers, allSucceeded :=
        ResolveNext(items, i, router, holder, open, start, results, headers, allSucceeded);
    }
    assert items[..|items|] == items;
  }

  method ResolveNext<S(!new)>(items: seq<Json>, i: nat, router: Router<S>, holder: TransactionHolder<S>,
                              ghost open: bool, ghost start: S,
                              rs: seq<SingleResult>, hs: seq<(string, string)>, succeeded: bool)
    returns (results: seq<SingleResult>, headers: seq<(string, string)>, allSucceeded: bool)
    requires i < |items| && Resolving(items[..i], router, open, start, holder.Current(), rs, hs, succeeded)
    requires holder.needsTransaction && holder.status.Finalized? == !open
    modifies holder
    ensures Resolving(items[..i + 1], router, open, start, holder.Current(), results, headers, allSucceeded)
    ensures holder.needsTransaction && holder.status.Finalized? == !open
    ensures holder.committed == old(holder.committed) && holder.finalizations == old(holder.finalizations)
  {
    results, headers, allSucceeded := rs, hs, succeeded;
    var result := ResolveSingleRequest(items[i], router, holder);
    ResolvingNext(items, i, router, open, start, old(holder.Current()), holder.Current(), rs, result, hs, succeeded);
    if !(result.isNotification || result.outcome.Success?) { allSucceeded := false; }
    if result.outcome.Success? { headers := headers + result.outcome.headers; }
    results := results + [result];
  }

  /** What the loop over the items has gathered once `done` are resolved. */
  ghost predicate Resolving<S>(done: seq<Json>, router: Router<S>, open: bool, start: S, current: S,
                               results: seq<SingleResult>, headers: seq<(string, string)>, allSucceeded: bool)
  {
    && (current, results) == RunItems(done, router, open, start)
    && allSucceeded == AllSucceeded(results)
    && headers == JSON_CONTENT + Headers(results)
  }

  lemma ResolvingNext<S>(items: seq<Json>, i: nat, router: Router<S>, open: bool, start: S, before: S, after: S,
                         rs: seq<SingleResult>, r: SingleResult, headers: seq<(string, string)>, allSucceeded: bool)
    requires i < |items| && Resolving(items[..i], router, open, start, before, rs, headers, allSucceeded)
    requires (after, r) == Resolved(items[i], router, open, before)
    ensures Resolving(items[..i + 1], router, open, start, after, rs + [r],
                      if r.outcome.Success? then headers + r.outcome.headers else headers, allSucceeded && Succeeded(r))
  {
    RunNext(items, i, router, open, start);
    ResultNext(rs, r);
  }

  lemma ResultNext(rs: seq<SingleResult>, r: SingleResult)
    ensures AllSucceeded(rs + [r]) <==> AllSucceeded(rs) && Succeeded(r)
    ensures Headers(rs + [r]) == Headers(rs) + if r.outcome.Success? then r.outcome.headers else []
    ensures Answers(rs + [r]) == Answers(rs) + if r.isNotification then [] else [Answer(r.id, r.outcome)]
  {
    assert (rs + [r])[..|rs|] == rs;
    assert forall i :: 0 <= i < |rs| ==> (rs + [r])[i] == rs[i];
    if AllSucceeded(rs + [r]) { assert Succeeded((rs + [r])[|rs|]); }
  }

  method ReplaceSuccesses(rs: seq<SingleResult>) returns (results: seq<SingleResult>)
    ensures |results| == |rs| && forall i :: 0 <= i < |rs| ==> results[i] == AfterRollback(rs[i])
  {
    results := rs;
    for k := 0 to |results|
      invariant |results| == |rs|
      invariant forall i :: 0 <= i < |rs| ==> results[i] == if i < k then AfterRollback(rs[i]) else rs[i]
    {
      var r := results[k];
      if r.outcome.Success? { results := results[k := SingleResult(r.id, Failure(RolledBack), r.isNotification)]; }
    }
  }

  method WithoutNotifications(rs: seq<SingleResult>) returns (answers: seq<Answer>)
    ensures answers == Answers(rs)
  {
    answers := [];
    assert rs[..0] == [];
    for k := 0 to |rs|
      invariant answers == Answers(rs[..k])
    {
      assert rs[..k + 1] == rs[..k] + [rs[k]];
      ResultNext(rs[..k], rs[k]);
      if !rs[k].isNotification { answers := answers + [Answer(rs[k].id, rs[k].outcome)]; }
    }
    assert rs[..|rs|] == rs;
  }

  lemma RunNext<S>(items: seq<Json>, i: nat, router: Router<S>, open: bool, s: S)
    requires i < |items|
    ensures var (s1, rs) := RunItems(items[..i], router, open, s);
            var (s2, r) := Resolved(items[i], router, open, s1);
            RunItems(items[..i + 1], router, open, s) == (s2, rs + [r])
  {
    assert items[..i + 1][..i] == items[..i];
  }

  /** A single request commits unless it fails; one that nobody resolves counts as no failure here.  Outside a
      transaction its writes stay even if it fails. */
  method HandleSingle<S(!new)>(j: Json, router: Router<S>, holder: TransactionHolder<S>, internal: bool, accepted: bool)
    returns (payload: Payload)
    modifies holder
    ensures Notification(j) ==>
              payload == Payload(NoBody, [], 204) && holder.finalizations == old(holder.finalizations) &&
              holder.Current() == old(holder.Current())
    ensures !Notification(j) ==>
              var (s, r) := Resolved(j, router, !old(holder.status).Finalized?, old(holder.Current()));
              var inside := RunsInside(PlanOf(j, router), old(holder.status), old(holder.needsTransaction));
              && payload == Payload(One(Answer(IdOf(j), r.outcome)), JSON_CONTENT + Headers([r]), 200)
              && holder.finalizations == old(holder.finalizations) + (if internal then [] else [!r.outcome.Failure?])
              && holder.committed == if inside && (internal || r.outcome.Failure? || !accepted)
                   then old(holder.committed) else s
  {
    var r := ResolveSingleRequest(j, router, holder);
    if r.isNotification { return Payload(NoBody, [], 204); }
    if !internal {
      var _ := holder.Finalize(!r.outcome.Failure?, accepted);
    }
    assert [r][..0] == [] && Headers([r]) == if r.outcome.Success? then r.outcome.headers else [];
    payload :=
      Payload(One(Answer(r.id, r.outcome)), JSON_CONTENT + if r.outcome.Success? then r.outcome.headers else [], 200);
  }
}
