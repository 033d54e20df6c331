/** The dispatcher's procedures over the action table, each proved to do what `Dispatch` says. */
module Dispatcher {
  import opened Wrappers
  import opened Vocabulary
  import opened ActionTable
  import opened Database
  import opened RuntimeReply
  import opened Requests
  import D = Dispatch

  /** The world after processing a list of candidates, and whether none of them ended the cycle early. */
  function ProcessAll(w: D.World, list: seq<D.Candidate>, envs: seq<D.Env>): (D.World, bool)
    requires |list| == |envs|
    decreases |list|
  {
    if list == [] then (w, true)
    else if !D.OutcomeOf(w, list[0], envs[0]).goOn then (D.Process(w, list[0], envs[0]), false)
    else ProcessAll(D.Process(w, list[0], envs[0]), list[1..], envs[1..])
  }

  /** Processing one candidate changes no other row. */
  lemma OthersUntouched(w: D.World, c: D.Candidate, e: D.Env, id: string)
    requires id in w.table && id != c.id
    ensures id in D.Process(w, c, e).table && D.Process(w, c, e).table[id] == w.table[id]
  {
    hide D.OutcomeOf, FreshRow, KeyOf;
  }

  /** What has left the dispatcher, and what the runtime has carried out. */
  class Wire {
    ghost var log: seq<D.Post>
    ghost var effects: seq<D.Effect>
  }

  ghost function Snapshot(db: OrchestratorDb, wire: Wire): D.World
    reads db, wire
  {
    D.World(db.rows, db.policies.Keys, wire.log, wire.effects)
  }

  method SetActionStatus(db: OrchestratorDb, id: string, status: Status, reason: Option<string>, message: Option<string>, now: nat)
    requires id in db.rows
    modifies db`rows
    ensures db.rows == old(db.rows)[id := D.SetStatus(old(db.rows)[id], status, reason, message, now)]
  {
    db.rows := db.rows[id := db.rows[id].(status := status, reasonCode := reason, reasonMessage := message, updatedAt := now)];
  }

  method ScheduleRetry(db: OrchestratorDb, id: string, attempt: nat, delay: nat, reason: string, message: string, now: nat)
    requires id in db.rows && attempt == db.rows[id].attempts + 1
    modifies db`rows
    ensures db.rows == old(db.rows)[id := D.Retry(old(db.rows)[id], delay, reason, message, now)]
  {
    db.rows := db.rows[id := db.rows[id].(attempts := attempt, nextRetryAt := now + delay, reasonCode := Some(reason),
                                 reasonMessage := Some(message), updatedAt := now)];
  }

  method MarkTerminal(db: OrchestratorDb, c: D.Candidate, status: Status, reason: Option<string>, message: Option<string>, now: nat)
    requires D.Current(db.rows, c)
    modifies db`rows
    ensures db.rows == old(db.rows)[c.id := D.MarkTerminal(c.row, status, reason, message, now)]
  {
    var latency := (now - c.row.createdAt) * 1000;
    db.rows := db.rows[c.id := db.rows[c.id].(status := status, terminalStatus := Some(status), reasonCode := reason,
                                     reasonMessage := message, terminalAt := Some(now), latencyMs := Some(latency),
                                     updatedAt := now)];
  }

  /** `writes` is how many further statements the database accepts. */
  method EnqueueRollback(db: OrchestratorDb, c: D.Candidate, newId: string, writes: nat, now: nat) returns (ok: bool)
    requires c.id in db.rows
    modifies db`rows
    ensures c.row.action.rollback.None? ==> ok && db.rows == old(db.rows)
    ensures c.row.action.rollback.Some? ==>
              var rb := D.RollbackOf(c, now);
              if writes == 0 || !EnqueueSucceeds(old(db.rows), newId, rb) then !ok && db.rows == old(db.rows)
              else if writes == 1 then !ok && db.rows == Enqueue(old(db.rows), newId, rb, now)
              else
                ok && db.rows == Enqueue(old(db.rows), newId, rb, now)[
                  c.id := D.SetStatus(old(db.rows)[c.id], Failed, Some(RC_ORCH_ROLLBACK_TRIGGERED), Some("Rollback action enqueued"), now)]
  {
    hide KeyOf, FreshRow, D.SetStatus, D.RollbackOf, RC_ORCH_ROLLBACK_TRIGGERED;
    if c.row.action.rollback.None? {
      return true;
    }
    if writes == 0 {
      return false;
    }
    ok := db.EnqueueAction(newId, D.RollbackOf(c, now), now);
    if !ok || writes == 1 {
      return false;
    }
    SetActionStatus(db, c.id, Failed, Some(RC_ORCH_ROLLBACK_TRIGGERED), Some("Rollback action enqueued"), now);
  }

  method ExpireAction(db: OrchestratorDb, c: D.Candidate, e: D.Env) returns (goOn: bool)
    requires D.Current(db.rows, c)
    modifies db`rows
    ensures var o := D.Expire(old(db.rows), c, e);
            && goOn == o.goOn
            && db.rows == (if o.spawn.Some? then Enqueue(old(db.rows)[c.id := o.row], e.newId, o.spawn.value, e.finish)
                        else old(db.rows)[c.id := o.row])
  {
    hide KeyOf, FreshRow, D.SetStatus, D.RollbackOf, D.MarkTerminal, RC_ORCH_ROLLBACK_TRIGGERED, RC_ORCH_TTL_EXPIRED;
    if e.writes == 0 {
      assert db.rows == db.rows[c.id := c.row];
      return false;
    }
    MarkTerminal(db, c, Failed, Some(RC_ORCH_TTL_EXPIRED), Some("TTL expired before completion"), e.finish);
    ghost var marked := db.rows[c.id];
    goOn := EnqueueRollback(db, c, e.newId, e.writes - 1, e.finish);
    MarkedKey(c, e);
    if c.row.action.rollback.Some? {
      SameKeysSameEnqueue(old(db.rows), c.id, marked, D.RollbackOf(c, e.finish), e.newId, e.finish);
      SameKeysSameEnqueue(old(db.rows), c.id, D.SetStatus(marked, Failed, Some(RC_ORCH_ROLLBACK_TRIGGERED), Some("Rollback action enqueued"), e.finish),
                          D.RollbackOf(c, e.finish), e.newId, e.finish);
    }
  }

  method PollAction(db: OrchestratorDb, c: D.Candidate, e: D.Env) returns (goOn: bool)
    requires D.Current(db.rows, c)
    modifies db`rows
    ensures goOn == D.Poll(c, e).goOn && db.rows == old(db.rows)[c.id := D.Poll(c, e).row]
  {
    hide D.SetStatus, D.MarkTerminal, D.Retry, D.BackoffDelay, RC_ORCH_DEPENDENCY_UNAVAILABLE, ParseRuntimeResponse;
    assert db.rows == db.rows[c.id := c.row];
    match D.Answer(e, "runtime poll failed")
    case Ok(op) =>
      if IsRuntimeNonTerminal(op.status) {
        if e.writes == 0 { return false; }
        SetActionStatus(db, c.id, op.status, op.reasonCode, op.reasonMessage, e.finish);
      } else if IsRuntimeTerminalSuccess(op.status) {
        if e.writes == 0 { return false; }
        MarkTerminal(db, c, Succeeded, op.reasonCode, op.reasonMessage, e.finish);
      } else if IsRuntimeTerminalFailure(op.status) {
        if e.writes == 0 { return false; }
        MarkTerminal(db, c, op.status, op.reasonCode, op.reasonMessage, e.finish);
      }
      return true;
    case Err(message) =>
      if e.writes == 0 { return false; }
      var attempt := c.row.attempts + 1;
      ScheduleRetry(db, c.id, attempt, D.BackoffDelay(attempt), RC_ORCH_DEPENDENCY_UNAVAILABLE, message, e.finish);
      return true;
  }

  method RecordRefusal(db: OrchestratorDb, c: D.Candidate, message: string, now: nat)
    requires D.Current(db.rows, c)
    modifies db`rows
    ensures db.rows == old(db.rows)[c.id := D.Refused(c.row, message, now)]
  {
    hide D.SetStatus, D.MarkTerminal, D.Retry, D.BackoffDelay, ParseDispatchError, Judge;
    var d := ParseDispatchError(message);
    var attempt := c.row.attempts + 1;
    match Judge(c.row.action.kind, d.code, d.retryable)
    case Fail => MarkTerminal(db, c, Failed, Some(d.code), Some(d.detail), now);
    case RetryFixed => ScheduleRetry(db, c.id, attempt, D.PRESSURE_DELAY, d.code, d.detail, now);
    case RetryBackoff => ScheduleRetry(db, c.id, attempt, D.BackoffDelay(attempt), d.code, d.detail, now);
  }

  method RecordAnswer(db: OrchestratorDb, c: D.Candidate, answer: Result<RuntimeOperation, string>, now: nat)
    requires D.Current(db.rows, c)
    modifies db`rows
    ensures db.rows == old(db.rows)[c.id := D.Concluded(c.row, answer, now)]
  {
    hide D.Refused;
    match answer
    case Ok(op) =>
      var sent := db.rows[c.id].(outboundAt := Some(now), operationId := Some(op.operationId), operationType := op.operationType,
                              status := op.status, reasonCode := op.reasonCode, reasonMessage := op.reasonMessage,
                              attempts := db.rows[c.id].attempts + 1, nextRetryAt := now, updatedAt := now);
      if IsRuntimeTerminalSuccess(op.status) || IsRuntimeTerminalFailure(op.status) {
        var latency := (now - c.row.createdAt) * 1000;
        sent := sent.(terminalStatus := Some(op.status), terminalAt := Some(now), latencyMs := Some(latency));
      }
      db.rows := db.rows[c.id := sent];
    case Err(message) => RecordRefusal(db, c, message, now);
  }

  method SendAction(db: OrchestratorDb, wire: Wire, c: D.Candidate, e: D.Env) returns (goOn: bool)
    requires D.Current(db.rows, c)
    modifies db`rows, wire
    ensures goOn == D.Send(c, e).goOn
    ensures Snapshot(db, wire) == D.Apply(old(Snapshot(db, wire)), c, e, D.Send(c, e))
  {
    hide D.Refused, D.Concluded, BuildRequest, D.Answer, RC_ORCH_ACTION_UNSUPPORTED, D.Deliver;
    assert db.rows == db.rows[c.id := c.row];
    match BuildRequest(c.id, c.row.action.kind, c.row.action.payload)
    case Malformed => return false;
    case Unsupported =>
      if e.writes == 0 { return false; }
      RecordRefusal(db, c, RC_ORCH_ACTION_UNSUPPORTED, e.finish);
      return true;
    case Request(path, body) =>
      if e.baseUrl {
        ghost var post := D.Post(c.row.key, c.id, path, body, e.writes > 0);
        wire.log := wire.log + [post];
        wire.effects := D.Deliver(wire.effects, post, e.applied);
      }
      if e.writes == 0 { return false; }
      RecordAnswer(db, c, D.Answer(e, "runtime request failed"), e.finish);
      return true;
  }

  /** Processes one candidate whose snapshot is current. */
  method ProcessAction(db: OrchestratorDb, wire: Wire, c: D.Candidate, e: D.Env) returns (goOn: bool)
    requires D.Current(db.rows, c)
    modifies db`rows, wire
    ensures goOn == D.OutcomeOf(old(Snapshot(db, wire)), c, e).goOn
    ensures Snapshot(db, wire) == D.Process(old(Snapshot(db, wire)), c, e)
  {
    hide D.Expire, D.Send, D.Poll, D.Disown, D.Owned, Enqueue;
    if D.TtlExpired(c.row, e.start) {
      ExpireSendsNothing(db.rows, c, e);
      goOn := ExpireAction(db, c, e);
    } else if c.row.status != Pending && c.row.operationId.Some? {
      PollAndDisownOnlyWrite(c, e);
      goOn := PollAction(db, c, e);
    } else if !D.Owned(db.policies.Keys, c.row.action) {
      PollAndDisownOnlyWrite(c, e);
      goOn := DisownAction(db, c, e);
    } else {
      goOn := SendAction(db, wire, c, e);
    }
  }

  method DisownAction(db: OrchestratorDb, c: D.Candidate, e: D.Env) returns (goOn: bool)
    requires D.Current(db.rows, c)
    modifies db`rows
    ensures goOn == D.Disown(c, e).goOn && db.rows == old(db.rows)[c.id := D.Disown(c, e).row]
  {
    hide D.MarkTerminal, RC_ORCH_DEPENDENCY_UNAVAILABLE;
    assert db.rows == db.rows[c.id := c.row];
    if e.writes == 0 { return false; }
    MarkTerminal(db, c, Failed, Some(RC_ORCH_DEPENDENCY_UNAVAILABLE), Some("Cross-tenant or unknown workload ownership"), e.finish);
    return true;
  }

  /** One cycle over the candidates that the query returned: every snapshot is still current when its turn comes. */
  method RunDispatchCycle(db: OrchestratorDb, wire: Wire, now: nat, candidates: seq<D.Candidate>, envs: seq<D.Env>) returns (completed: bool)
    requires D.Selected(db.rows, now, candidates) && |envs| == |candidates|
    modifies db`rows, wire
    ensures (Snapshot(db, wire), completed) == ProcessAll(old(Snapshot(db, wire)), candidates, envs)
  {
    hide D.Process, D.OutcomeOf;
    for i := 0 to |candidates|
      invariant ProcessAll(old(Snapshot(db, wire)), candidates, envs) == ProcessAll(Snapshot(db, wire), candidates[i..], envs[i..])
      invariant forall j :: i <= j < |candidates| ==> D.Current(db.rows, candidates[j])
    {
      var c := candidates[i];
      ghost var before := Snapshot(db, wire);
      assert candidates[i..][0] == c && candidates[i..][1..] == candidates[i + 1..] && envs[i..][1..] == envs[i + 1..];
      var goOn := ProcessAction(db, wire, c, envs[i]);
      if !goOn {
        return false;
      }
      forall j | i + 1 <= j < |candidates| ensures D.Current(db.rows, candidates[j]) {
        OthersUntouched(before, c, envs[i], candidates[j].id);
      }
    }
    return true;
  }

  lemma MarkedKey(c: D.Candidate, e: D.Env)
    ensures var marked := D.MarkTerminal(c.row, Failed, Some(RC_ORCH_TTL_EXPIRED), Some("TTL expired before completion"), e.finish);
            marked.key == c.row.key
            && D.SetStatus(marked, Failed, Some(RC_ORCH_ROLLBACK_TRIGGERED), Some("Rollback action enqueued"), e.finish).key == c.row.key
  {
  }

  /** An insertion looks only at keys and ids, so it commutes with an update of another column. */
  lemma SameKeysSameEnqueue(t: Table, id: string, r: Row, a: NewAction, newId: string, now: nat)
    requires id in t && r.key == t[id].key
    ensures EnqueueSucceeds(t[id := r], newId, a) == EnqueueSucceeds(t, newId, a)
    ensures Enqueue(t[id := r], newId, a, now) == Enqueue(t, newId, a, now)[id := r]
  {
    hide KeyOf, FreshRow;
    var t' := t[id := r];
    forall key ensures HasKey(t', key) <==> HasKey(t, key) {
      if i :| i in t && t[i].key == key {
        assert i in t' && t'[i].key == key;
      }
      if i :| i in t' && t'[i].key == key {
        assert i in t && t[i].key == key;
      }
    }
  }

  lemma ExpireSendsNothing(t: Table, c: D.Candidate, e: D.Env)
    ensures D.Expire(t, c, e).post.None?
  {
    hide EnqueueSucceeds, D.RollbackOf;
  }

  lemma PollAndDisownOnlyWrite(c: D.Candidate, e: D.Env)
    ensures D.Poll(c, e).post.None? && D.Poll(c, e).spawn.None?
    ensures D.Disown(c, e).post.None? && D.Disown(c, e).spawn.None?
  {
    hide D.Answer;
  }
}
