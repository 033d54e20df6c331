/** What processing a candidate leaves in its row, said of the row, the clock and the answer alone. */
module DispatchFacts {
  import opened Wrappers
  import opened Json
  import opened Vocabulary
  import opened ActionTable
  import opened RuntimeReply
  import opened Requests
  import opened Dispatch
  import opened DispatchRuns
  import opened DispatchSafety

  /** The row is past its TTL when processing starts. */
  predicate Late(r: Row, now: nat) {
    r.effectiveAt + r.action.ttl < now
  }

  /** The row was sent before. */
  predicate Sent(r: Row) {
    r.status != Pending && r.operationId.Some?
  }

  /** The row's workload has a policy, or the platform owns it. */
  predicate HasOwner(w: World, r: Row) {
    r.action.tenant == "platform" || (r.action.tenant, r.action.workload) in w.owners
  }

  /** Which rows the candidate query selects: those of four statuses whose retry time has come. */
  lemma DueIff(r: Row, now: nat)
    requires Stored(r.status)
    ensures Due(r, now) <==> StatusText(r.status) in {"pending", "accepted", "queued", "running"} && r.nextRetryAt <= now
  {
    StatusClasses(r.status);
    assert |"pending"| == 7 && |"accepted"| == 8 && |"queued"| == 6 && |"running"| == 7 && "pending"[0] != "running"[0];
  }

  /** A batch holds the oldest due rows: all of them when at most 100 are due, else 100, none older left out. */
  lemma BatchHolds(t: Table, now: nat, list: seq<Candidate>)
    requires Selected(t, now, list)
    ensures |list| == if |DueIds(t, now)| <= 100 then |DueIds(t, now)| else 100
    ensures forall i :: 0 <= i < |list| ==>
              list[i].id in t && t[list[i].id] == list[i].row && list[i].row.nextRetryAt <= now && Live(list[i].row)
    ensures forall i, j :: 0 <= i < j < |list| ==> list[i].id != list[j].id && list[i].row.createdAt <= list[j].row.createdAt
    ensures forall id :: id in t && Live(t[id]) && t[id].nextRetryAt <= now && (forall i :: 0 <= i < |list| ==> list[i].id != id) ==>
              forall i :: 0 <= i < |list| ==> list[i].row.createdAt <= t[id].createdAt
  {
    hide Live;
    forall i | 0 <= i < |list|
      ensures list[i].id in t && t[list[i].id] == list[i].row && list[i].row.nextRetryAt <= now && Live(list[i].row)
    {
      assert Current(t, list[i]) && Due(list[i].row, now);
    }
    forall id | id in t && Live(t[id]) && t[id].nextRetryAt <= now
      ensures id in DueIds(t, now)
    {
      assert Due(t[id], now);
    }
  }

  /** Processing appends the POST to the log; the runtime then has carried out its key if it had before, or applies the POST now. */
  lemma DeliveryHolds(w: World, c: Candidate, e: Env)
    ensures var w', o := Process(w, c, e), OutcomeOf(w, c, e);
            && w'.log == w.log + (if o.post.Some? then [o.post.value] else [])
            && w'.owners == w.owners
            && (o.post.None? ==> w'.effects == w.effects)
            && (o.post.Some? ==>
                  var p := o.post.value;
                  if e.applied && !CarriedOut(w.effects, p.key) then w'.effects == w.effects + [Effect(p.key, p.path, p.body)]
                  else w'.effects == w.effects)
  {
    hide OutcomeOf, Enqueue;
  }

  // ---- the four cases ----------------------------------------------------

  /** A late row fails, with or without a rollback, and nothing is sent; with a new id its rollback is spawned by the second write and noted by the third. */
  lemma LateRowFails(w: World, c: Candidate, e: Env)
    requires Late(c.row, e.start)
    ensures var o := OutcomeOf(w, c, e);
            && o.post.None?
            && (e.writes == 0 ==> o.row == c.row && o.spawn.None? && !o.goOn)
            && (e.writes > 0 ==>
                  && o.row.status == Failed && o.row.terminalStatus == Some(Failed) && o.row.terminalAt == Some(e.finish)
                  && o.row.latencyMs == Some((e.finish - c.row.createdAt) * 1000)
                  && SameDecision(c.row, o.row) && o.row.operationId == c.row.operationId && o.row.attempts == c.row.attempts
                  && o.row.reasonCode == Some(if o.spawn.Some? && e.writes > 2 then "ORCH_ROLLBACK_TRIGGERED" else "ORCH_TTL_EXPIRED")
                  && (c.row.action.rollback.None? ==> o.spawn.None? && o.goOn)
                  && (c.row.action.rollback.Some? ==> (o.goOn <==> o.spawn.Some? && e.writes > 2))
                  && (e.newId !in w.table && c.row.action.rollback.Some? ==> (o.spawn.Some? <==> e.writes > 1)))
  {
    hide KeyOf, RollbackOf, HasKey, Poll, Disown, Send;
  }

  /** A sent row stores what the runtime answers: a running status is kept, a terminal one ends the row, any other changes nothing. */
  lemma PollHolds(w: World, c: Candidate, e: Env, op: RuntimeOperation)
    requires !Late(c.row, e.start) && Sent(c.row) && e.baseUrl && e.reply.HttpReply?
    requires ParseRuntimeResponse(e.reply.httpStatus, e.reply.body, e.reply.value) == Ok(op) && Stored(op.status)
    ensures var o := OutcomeOf(w, c, e);
            && o.post.None? && o.spawn.None?
            && (StatusText(op.status) !in {"accepted", "queued", "running", "succeeded", "failed", "cancelled", "timed_out"} ==> o.row == c.row && o.goOn)
            && (StatusText(op.status) in {"accepted", "queued", "running"} && e.writes > 0 ==>
                  o.goOn && o.row == c.row.(status := op.status, reasonCode := op.reasonCode, reasonMessage := op.reasonMessage, updatedAt := e.finish))
            && (StatusText(op.status) in {"succeeded", "failed", "cancelled", "timed_out"} && e.writes > 0 ==>
                  o.goOn && o.row == c.row.(status := op.status, terminalStatus := Some(op.status), reasonCode := op.reasonCode,
                                            reasonMessage := op.reasonMessage, terminalAt := Some(e.finish),
                                            latencyMs := Some((e.finish - c.row.createdAt) * 1000), updatedAt := e.finish))
  {
    hide ParseRuntimeResponse, Expire, Disown, Send, StatusText;
    StatusClasses(op.status);
  }

  /** A sent row whose poll gets no usable answer is tried again after the backoff of its attempts. */
  lemma PollFailureHolds(w: World, c: Candidate, e: Env)
    requires !Late(c.row, e.start) && Sent(c.row) && e.writes > 0
    requires !e.baseUrl || e.reply.NoReply? || ParseRuntimeResponse(e.reply.httpStatus, e.reply.body, e.reply.value).Err?
    ensures var o := OutcomeOf(w, c, e);
            && o.post.None? && o.spawn.None? && o.goOn
            && o.row.status == c.row.status && SameDecision(c.row, o.row) && o.row.operationId == c.row.operationId
            && o.row.attempts == c.row.attempts + 1 && o.row.reasonCode == Some("ORCH_DEPENDENCY_UNAVAILABLE")
            && o.row.nextRetryAt == e.finish + Doubled(if c.row.attempts + 1 < 6 then c.row.attempts + 1 else 6)
  {
    hide ParseRuntimeResponse, Expire, Disown, Send, Pow2;
    Doubling(if c.row.attempts + 1 < 6 then c.row.attempts + 1 else 6);
  }

  /** The powers of two up to 64. */
  function Doubled(n: nat): nat {
    if n == 0 then 1 else if n == 1 then 2 else if n == 2 then 4 else if n == 3 then 8
    else if n == 4 then 16 else if n == 5 then 32 else 64
  }

  lemma Doubling(n: nat)
    requires n <= 6
    ensures Pow2(n) == Doubled(n)
  {
    assert Pow2(0) == 1 && Pow2(1) == 2 && Pow2(2) == 4 && Pow2(3) == 8;
    assert Pow2(4) == 16 && Pow2(5) == 32 && Pow2(6) == 64;
  }

  /** Once its workload has a policy, an unsent row that is not late goes out if it has a request and there is a base URL. */
  lemma AdoptedRowGoesOut(s: State, s': State, c: Candidate, e: Env)
    requires Next(s, Adopt(c.row.action.tenant, c.row.action.workload), s')
    requires !Late(c.row, e.start) && !Sent(c.row) && e.baseUrl && BuildRequest(c.id, c.row.action.kind, c.row.action.payload).Request?
    ensures OutcomeOf(s'.world, c, e).post.Some? && s'.world.table == s.world.table && s'.world.log == s.world.log
  {
    hide BuildRequest, Expire, Poll, Disown, Answer, Concluded;
  }

  /** An unsent row that nobody owns fails and is not sent. */
  lemma UnownedRowFails(w: World, c: Candidate, e: Env)
    requires !Late(c.row, e.start) && !Sent(c.row) && !HasOwner(w, c.row)
    ensures var o := OutcomeOf(w, c, e);
            && o.post.None? && o.spawn.None? && (o.goOn <==> e.writes > 0)
            && o.row == if e.writes == 0 then c.row
                        else c.row.(status := Failed, terminalStatus := Some(Failed), reasonCode := Some("ORCH_DEPENDENCY_UNAVAILABLE"),
                                    reasonMessage := Some("Cross-tenant or unknown workload ownership"), terminalAt := Some(e.finish),
                                    latencyMs := Some((e.finish - c.row.createdAt) * 1000), updatedAt := e.finish)
  {
    hide Expire, Poll, Send;
  }

  /** The row goes out in this step. */
  predicate GoesOut(w: World, c: Candidate, e: Env) {
    !Late(c.row, e.start) && !Sent(c.row) && HasOwner(w, c.row) && e.baseUrl
    && BuildRequest(c.id, c.row.action.kind, c.row.action.payload).Request?
  }

  /** A POST leaves exactly when the row goes out, with the row's key and request; it is recorded when a write succeeds. */
  lemma PostIff(w: World, c: Candidate, e: Env)
    ensures var o := OutcomeOf(w, c, e);
            && (o.post.Some? <==> GoesOut(w, c, e))
            && (o.post.Some? ==>
                  && o.post.value.key == c.row.key && o.post.value.actionId == c.id && (o.post.value.recorded <==> e.writes > 0)
                  && BuildRequest(c.id, c.row.action.kind, c.row.action.payload) == Request(o.post.value.path, o.post.value.body))
  {
    hide BuildRequest, EnqueueSucceeds, RollbackOf, Answer, MarkTerminal, SetStatus, Retry, Concluded, Refused;
  }

  /** An answered POST leaves the answer's operation in the row: its id, type, status and reasons, and the row ended if the status is terminal. */
  lemma AnsweredRowHolds(w: World, c: Candidate, e: Env, op: RuntimeOperation)
    requires GoesOut(w, c, e) && e.writes > 0 && e.reply.HttpReply?
    requires ParseRuntimeResponse(e.reply.httpStatus, e.reply.body, e.reply.value) == Ok(op) && Stored(op.status)
    ensures var r := OutcomeOf(w, c, e).row;
            && r.operationId == Some(op.operationId) && r.operationType == op.operationType && r.status == op.status
            && r.reasonCode == op.reasonCode && r.reasonMessage == op.reasonMessage
            && r.outboundAt == Some(e.finish) && r.updatedAt == e.finish && r.nextRetryAt == e.finish
            && r.attempts == c.row.attempts + 1 && SameDecision(c.row, r)
            && (if StatusText(op.status) in {"succeeded", "failed", "cancelled", "timed_out"}
                then r.terminalStatus == Some(op.status) && r.terminalAt == Some(e.finish)
                     && r.latencyMs == Some((e.finish - c.row.createdAt) * 1000)
                else r.terminalStatus == c.row.terminalStatus && r.terminalAt == c.row.terminalAt && r.latencyMs == c.row.latencyMs)
  {
    hide BuildRequest, ParseRuntimeResponse, Expire, Poll, Disown, Refused, StatusText;
    StatusClasses(op.status);
  }

  /** A POST that is refused or gets no answer: what the row then is, by the rule on the parsed error. */
  lemma RefusedRowHolds(w: World, c: Candidate, e: Env, message: string)
    requires GoesOut(w, c, e) && e.writes > 0
    requires if e.reply.NoReply? then message == "runtime request failed"
             else ParseRuntimeResponse(e.reply.httpStatus, e.reply.body, e.reply.value) == Err(message)
    ensures var r, d := OutcomeOf(w, c, e).row, ParseDispatchError(message);
            && r.reasonCode == Some(d.code) && r.reasonMessage == Some(d.detail) && r.updatedAt == e.finish
            && SameDecision(c.row, r) && r.operationId == c.row.operationId
            && match Rule(c.row.action.kind, d.code, d.retryable)
               case Fail =>
                 && r.status == Failed && r.terminalStatus == Some(Failed) && r.terminalAt == Some(e.finish)
                 && r.latencyMs == Some((e.finish - c.row.createdAt) * 1000) && r.attempts == c.row.attempts
               case RetryFixed =>
                 r.status == c.row.status && r.attempts == c.row.attempts + 1 && r.nextRetryAt == e.finish + 15
               case RetryBackoff =>
                 && r.status == c.row.status && r.attempts == c.row.attempts + 1
                 && r.nextRetryAt == e.finish + Doubled(if c.row.attempts + 1 < 6 then c.row.attempts + 1 else 6)
  {
    hide BuildRequest, ParseRuntimeResponse, ParseDispatchError, Expire, Poll, Disown, Pow2, Judge, Rule;
    var d := ParseDispatchError(message);
    JudgeIsRule(c.row.action.kind, d.code, d.retryable);
    Doubling(if c.row.attempts + 1 < 6 then c.row.attempts + 1 else 6);
  }

  /** A POST without a reply fails a pool-target row and reschedules any other by its backoff. */
  lemma LostReplyHolds(w: World, c: Candidate, e: Env)
    requires GoesOut(w, c, e) && e.writes > 0 && e.reply.NoReply?
    ensures var r := OutcomeOf(w, c, e).row;
            && r.reasonCode == Some("ORCH_DEPENDENCY_UNAVAILABLE") && r.reasonMessage == Some("runtime request failed")
            && if c.row.action.kind == SetPoolTarget then r.status == Failed
               else r.status == c.row.status && r.attempts == c.row.attempts + 1
                    && r.nextRetryAt == e.finish + Doubled(if c.row.attempts + 1 < 6 then c.row.attempts + 1 else 6)
  {
    hide GoesOut, OutcomeOf, ParseDispatchError, Doubled, ParseRuntimeResponse;
    PlainErrorsRead();
    RefusedRowHolds(w, c, e, "runtime request failed");
    assert |"ORCH_DEPENDENCY_UNAVAILABLE"| == 27 && "ORCH_DEPENDENCY_UNAVAILABLE"[0] == 'O' && |"ORCH_ACTION_UNSUPPORTED"| == 23;
    assert "ELASTICITY_INVALID_ARGUMENT"[0] == "ELASTICITY_RESOURCE_PRESSURE"[0] == 'E';
  }

  /** Without a base URL nothing is sent: a pool-target row fails, any other is rescheduled by its backoff. */
  lemma NoBaseUrlHolds(w: World, c: Candidate, e: Env)
    requires !Late(c.row, e.start) && !Sent(c.row) && HasOwner(w, c.row) && !e.baseUrl && e.writes > 0
    requires BuildRequest(c.id, c.row.action.kind, c.row.action.payload).Request?
    ensures var o := OutcomeOf(w, c, e);
            && o.post.None? && o.spawn.None? && o.goOn && o.row.reasonCode == Some("ORCH_DEPENDENCY_UNAVAILABLE")
            && if c.row.action.kind == SetPoolTarget then o.row.status == Failed
               else o.row.status == c.row.status && o.row.attempts == c.row.attempts + 1
                    && o.row.nextRetryAt == e.finish + Doubled(if c.row.attempts + 1 < 6 then c.row.attempts + 1 else 6)
  {
    hide BuildRequest, ParseDispatchError, Expire, Poll, Disown, Pow2, Judge;
    PlainErrorsRead();
    JudgeIsRule(c.row.action.kind, "ORCH_DEPENDENCY_UNAVAILABLE", None);
    Doubling(if c.row.attempts + 1 < 6 then c.row.attempts + 1 else 6);
    assert |"ORCH_DEPENDENCY_UNAVAILABLE"| == 27 && "ORCH_DEPENDENCY_UNAVAILABLE"[0] == 'O' && |"ORCH_ACTION_UNSUPPORTED"| == 23;
    assert "ELASTICITY_INVALID_ARGUMENT"[0] == "ELASTICITY_RESOURCE_PRESSURE"[0] == 'E';
  }

  /** A row of an unsupported type fails without a POST. */
  lemma UnsupportedRowFails(w: World, c: Candidate, e: Env)
    requires !Late(c.row, e.start) && !Sent(c.row) && HasOwner(w, c.row) && e.writes > 0 && c.row.action.kind.OtherType?
    ensures var o := OutcomeOf(w, c, e);
            && o.post.None? && o.spawn.None? && o.goOn && o.row.status == Failed && o.row.terminalStatus == Some(Failed)
            && o.row.reasonCode == Some("ORCH_ACTION_UNSUPPORTED")
  {
    hide ParseDispatchError, Expire, Poll, Disown, Judge, Retry;
    PlainErrorsRead();
    JudgeIsRule(c.row.action.kind, "ORCH_ACTION_UNSUPPORTED", None);
  }

  /** A row whose payload yields no request is left as it is, and ends the cycle. */
  lemma MalformedRowStays(w: World, c: Candidate, e: Env)
    requires !Late(c.row, e.start) && !Sent(c.row) && HasOwner(w, c.row)
    requires BuildRequest(c.id, c.row.action.kind, c.row.action.payload).Malformed?
    ensures var o := OutcomeOf(w, c, e);
            o.row == c.row && o.post.None? && o.spawn.None? && !o.goOn
  {
    hide BuildRequest, Expire, Poll, Disown;
  }

  // ---- replays -----------------------------------------------------------

  /** The runtime answers a POST that it has carried out before. */
  ghost predicate Replayed(e: Env, id: string, status: string) {
    && e.reply.HttpReply? && 400 <= e.reply.httpStatus < 500
    && Says(e.reply.value, "reason_code", "ELASTICITY_IDEMPOTENCY_REPLAY")
    && Says(e.reply.value, "operation_id", id) && id != "" && Says(e.reply.value, "status", status)
  }

  lemma ReplayIsOperation(e: Env, id: string, status: string)
    requires Replayed(e, id, status)
    ensures e.reply.HttpReply?
    ensures var r := ParseRuntimeResponse(e.reply.httpStatus, e.reply.body, e.reply.value);
            r.Ok? && r.value.operationId == id && StatusText(r.value.status) == status && Stored(r.value.status)
  {
    hide ParseRuntimeResponse, Get, StatusText, Stored;
    AnswerIsOperationIff(e.reply.httpStatus, e.reply.body, e.reply.value);
  }

  /**
    In every run, a replay that is recorded, with any status but pending, leaves the replayed operation
    and its status in the row, and no later POST carries the row's key.
   */
  lemma ReplayEndsSending(run: seq<State>, labels: seq<Label>, i: nat, j: nat, id: string, status: string)
    requires IsRun(run, labels) && i < j < |run| && labels[i].Handle?
    requires run[i].control.Cycle? && run[i].control.queue != []
    requires var c, e := run[i].control.queue[0], labels[i].env;
             GoesOut(run[i].world, c, e) && e.writes > 0 && Replayed(e, id, status) && status != "pending"
    ensures var c := run[i].control.queue[0];
            && c.id in run[i + 1].world.table
            && run[i + 1].world.table[c.id].operationId == Some(id)
            && StatusText(run[i + 1].world.table[c.id].status) == status
            && forall k :: |run[i + 1].world.log| <= k < |run[j].world.log| ==> run[j].world.log[k].key != c.row.key
  {
    hide GoesOut, Coherent, Rooted, Asked, OutcomeOf, Replayed, ParseRuntimeResponse, Live, Speaks, StatusText, Enqueue, KeysUnique, DistinctEffects;
    var s, c, e := run[i], run[i].control.queue[0], labels[i].env;
    InvHolds(run, labels, i);
    assert Next(s, labels[i], run[i + 1]);
    ReplayIsOperation(e, id, status);
    var op := ParseRuntimeResponse(e.reply.httpStatus, e.reply.body, e.reply.value).value;
    AnsweredRowHolds(s.world, c, e, op);
    CurrentIsCoherent(s.world.table, c);
    TableAfter(s.world, c, e);
    NoPostAfterOperationId(run, labels, i + 1, j, c.id);
  }

  // ---- rollbacks ---------------------------------------------------------

  /** The row is the rollback of `parent`, enqueued at the row's creation. */
  ghost predicate IsRollbackOf(r: Row, parentId: string, parent: Row) {
    && parent.action.rollback.Some? && r.action.payload == Canonical(parent.action.rollback.value)
    && r.action.parent == Some(parentId) && r.action.kind == RollbackAction && r.action.rollback.None?
    && r.action.tenant == parent.action.tenant && r.action.workload == parent.action.workload
    && r.action.ttl == parent.action.ttl
    && r.action.window % 5 == 0 && r.action.window <= r.createdAt < r.action.window + 5
  }

  /** A row that is new after processing a candidate is its rollback, pending and created by then. */
  lemma NewRowIsRollback(w: World, c: Candidate, e: Env, id: string)
    requires Current(w.table, c) && id in Process(w, c, e).table && id !in w.table
    ensures var r := Process(w, c, e).table[id];
            id == e.newId && r.status == Pending && r.createdAt == e.finish && IsRollbackOf(r, c.id, c.row)
  {
    hide OutcomeOf, KeyOf, HasKey, Canonical;
    SpawnIsRollback(w, c, e);
  }

  /** The row was enqueued by a decision among the first `i` steps, with canonical payloads. */
  ghost predicate WasDecided(labels: seq<Label>, i: nat, id: string, r: Row) {
    exists k: nat :: k < i && k < |labels| && labels[k].Decide? && labels[k].id == id
                     && r.action == labels[k].action.(payload := Canonical(labels[k].action.payload), rollback := CanonicalOption(labels[k].action.rollback))
  }

  /** The row holds the rollback of a row of the table. */
  ghost predicate HoldsItsParents(t: Table, r: Row) {
    exists p :: p in t && IsRollbackOf(r, p, t[p])
  }

  /** In every run each row was decided, or holds the rollback of its parent. */
  lemma {:induction false} RowsAreDecidedOrRollbacks(run: seq<State>, labels: seq<Label>, i: nat, id: string)
    requires IsRun(run, labels) && i < |run| && id in run[i].world.table
    ensures WasDecided(labels, i, id, run[i].world.table[id]) || HoldsItsParents(run[i].world.table, run[i].world.table[id])
  {
    hide IsRollbackOf, Next, Inv, Settles;
    if i > 0 {
      InvHolds(run, labels, i - 1);
      assert Next(run[i - 1], labels[i - 1], run[i]);
      NextSettles(run[i - 1], labels[i - 1], run[i]);
      var t, t' := run[i - 1].world.table, run[i].world.table;
      DecisionsStay(run[i - 1].world, run[i].world);
      if id in t {
        RowsAreDecidedOrRollbacks(run, labels, i - 1, id);
        if WasDecided(labels, i - 1, id, t[id]) {
          var k: nat :| k < i - 1 && k < |labels| && labels[k].Decide? && labels[k].id == id
                        && t[id].action == labels[k].action.(payload := Canonical(labels[k].action.payload), rollback := CanonicalOption(labels[k].action.rollback));
          assert k < i;
        } else {
          var p :| p in t && IsRollbackOf(t[id], p, t[p]);
          SameRollback(t[id], t'[id], p, t[p], t'[p]);
        }
      } else {
        NewRowOrigin(run[i - 1], labels[i - 1], run[i], id);
        if labels[i - 1].Handle? {
          var c := run[i - 1].control.queue[0];
          SameRollback(t'[id], t'[id], c.id, c.row, t'[c.id]);
        }
      }
    }
  }

  lemma DecisionsStay(w: World, w': World)
    requires Settles(w, w')
    ensures forall id :: id in w.table ==> id in w'.table && SameDecision(w.table[id], w'.table[id])
  {
    forall id | id in w.table
      ensures id in w'.table && SameDecision(w.table[id], w'.table[id])
    {
      assert RowSettles(w, w', id);
    }
  }

  lemma SameRollback(r: Row, r': Row, id: string, parent: Row, parent': Row)
    requires IsRollbackOf(r, id, parent) && SameDecision(r, r') && SameDecision(parent, parent')
    ensures IsRollbackOf(r', id, parent')
  {}

  lemma NewRowOrigin(s: State, l: Label, s': State, id: string)
    requires Inv(s) && Next(s, l, s') && id in s'.world.table && id !in s.world.table
    ensures l.Decide? || l.Handle?
    ensures l.Decide? ==> l.id == id && s'.world.table[id].action == l.action.(payload := Canonical(l.action.payload), rollback := CanonicalOption(l.action.rollback))
    ensures l.Handle? ==> s.control.Cycle? && s.control.queue != []
    ensures l.Handle? ==> var c := s.control.queue[0];
                          c.id in s'.world.table && c.id in s.world.table && s.world.table[c.id] == c.row && IsRollbackOf(s'.world.table[id], c.id, c.row)
  {
    hide KeyOf, HasKey, Coherent, Rooted, Process, Speaks, Selected, IsRollbackOf;
    match l
    case Handle(e) =>
      var c := s.control.queue[0];
      assert Current(s.world.table, c);
      CurrentIsCoherent(s.world.table, c);
      NewRowIsRollback(s.world, c, e, id);
      TableAfter(s.world, c, e);
    case _ =>
  }
}
