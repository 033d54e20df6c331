/**
  What the dispatcher does with one candidate, as a function of the stored row, the policies and
  everything the environment decides: clock readings, the runtime's answer, lost replies, lost
  database writes.
 */
module Dispatch {
  import opened Wrappers
  import opened Json
  import opened Vocabulary
  import opened IdempotencyKey
  import opened ActionTable
  import opened RuntimeReply
  import opened Requests

  /** A row as it was read at the start of a cycle. */
  datatype Candidate = Candidate(id: string, row: Row)

  datatype Reply = NoReply | HttpReply(httpStatus: int, body: string, value: Json)

  datatype Env = Env(
    start: nat,         // the clock when processing starts
    finish: nat,        // the clock inside the database closure
    baseUrl: bool,      // a control base URL is configured
    reply: Reply,
    applied: bool,      // the runtime carries a POST out if it has not seen its key before
    writes: nat,        // how many database writes succeed before the connection is lost
    newId: string)      // the UUID drawn for a rollback row

  /** A POST that left the dispatcher; `recorded` when its outcome reached the database. */
  datatype Post = Post(key: Digest, actionId: string, path: string, body: Json, recorded: bool)

  /** A request that the runtime carried out. */
  datatype Effect = Effect(key: Digest, path: string, body: Json)

  datatype World = World(
    table: Table,
    owners: set<(string, string)>,   // tenant and workload of every policy
    log: seq<Post>,
    effects: seq<Effect>)

  // ---- the statements on one row -----------------------------------------

  function MarkTerminal(r: Row, status: Status, reason: Option<string>, message: Option<string>, now: nat): Row {
    r.(status := status, terminalStatus := Some(status), reasonCode := reason, reasonMessage := message,
       terminalAt := Some(now), latencyMs := Some((now - r.createdAt) * 1000), updatedAt := now)
  }

  function SetStatus(r: Row, status: Status, reason: Option<string>, message: Option<string>, now: nat): Row {
    r.(status := status, reasonCode := reason, reasonMessage := message, updatedAt := now)
  }

  function Pow2(n: nat): nat {
    if n == 0 then 1 else 2 * Pow2(n - 1)
  }

  function BackoffDelay(attempts: nat): nat {
    Pow2(if attempts < 6 then attempts else 6)
  }

  const PRESSURE_DELAY: nat := 15

  function Retry(r: Row, delay: nat, reason: string, message: string, now: nat): Row {
    r.(attempts := r.attempts + 1, nextRetryAt := now + delay, reasonCode := Some(reason),
       reasonMessage := Some(message), updatedAt := now)
  }

  function Dispatched(r: Row, op: RuntimeOperation, now: nat): Row {
    var sent := r.(outboundAt := Some(now), operationId := Some(op.operationId), operationType := op.operationType,
                   status := op.status, reasonCode := op.reasonCode, reasonMessage := op.reasonMessage,
                   attempts := r.attempts + 1, nextRetryAt := now, updatedAt := now);
    if IsTerminal(op.status) then
      sent.(terminalStatus := Some(op.status), terminalAt := Some(now), latencyMs := Some((now - r.createdAt) * 1000))
    else sent
  }

  // ---- one candidate -----------------------------------------------------

  /** The row after processing, the rollback row to insert, the POST sent, and whether the cycle goes on. */
  datatype Outcome = Outcome(row: Row, spawn: Option<NewAction>, post: Option<Post>, goOn: bool)

  function NothingWritten(r: Row, post: Option<Post>): Outcome {
    Outcome(r, None, post, false)
  }

  predicate TtlExpired(r: Row, now: nat) {
    now > r.effectiveAt + r.action.ttl
  }

  function RollbackOf(c: Candidate, now: nat): NewAction
    requires c.row.action.rollback.Some?
  {
    var a := c.row.action;
    NewAction(a.tenant, a.workload, RollbackAction, a.rollback.value, a.ttl,
              DecisionWindowStart(now, FAST_LOOP_SECONDS), None, Some(c.id))
  }

  /** TTL expiry: mark the row failed, then enqueue its rollback, then say so in the row; any of the writes may be lost. */
  function Expire(t: Table, c: Candidate, e: Env): Outcome {
    var marked := MarkTerminal(c.row, Failed, Some(RC_ORCH_TTL_EXPIRED), Some("TTL expired before completion"), e.finish);
    if e.writes == 0 then NothingWritten(c.row, None)
    else if c.row.action.rollback.None? then Outcome(marked, None, None, true)
    else if e.writes == 1 || !EnqueueSucceeds(t, e.newId, RollbackOf(c, e.finish)) then Outcome(marked, None, None, false)
    else
      var spawn := Some(RollbackOf(c, e.finish));
      if e.writes == 2 then Outcome(marked, spawn, None, false)
      else Outcome(SetStatus(marked, Failed, Some(RC_ORCH_ROLLBACK_TRIGGERED), Some("Rollback action enqueued"), e.finish),
                   spawn, None, true)
  }

  function Answer(e: Env, lost: string): Result<RuntimeOperation, string> {
    if !e.baseUrl then Err(RC_ORCH_DEPENDENCY_UNAVAILABLE)
    else match e.reply
      case NoReply => Err(lost)
      case HttpReply(status, body, value) => ParseRuntimeResponse(status, body, value)
  }

  function Poll(c: Candidate, e: Env): Outcome {
    var r := c.row;
    match Answer(e, "runtime poll failed")
    case Ok(op) =>
      if !IsRuntimeNonTerminal(op.status) && !IsTerminal(op.status) then Outcome(r, None, None, true)
      else if e.writes == 0 then NothingWritten(r, None)
      else if IsRuntimeNonTerminal(op.status) then
        Outcome(SetStatus(r, op.status, op.reasonCode, op.reasonMessage, e.finish), None, None, true)
      else
        Outcome(MarkTerminal(r, op.status, op.reasonCode, op.reasonMessage, e.finish), None, None, true)
    case Err(message) =>
      if e.writes == 0 then NothingWritten(r, None)
      else Outcome(Retry(r, BackoffDelay(r.attempts + 1), RC_ORCH_DEPENDENCY_UNAVAILABLE, message, e.finish), None, None, true)
  }

  predicate Owned(owners: set<(string, string)>, a: NewAction) {
    (a.tenant, a.workload) in owners || a.tenant == PLATFORM_TENANT_ID
  }

  function Disown(c: Candidate, e: Env): Outcome {
    if e.writes == 0 then NothingWritten(c.row, None)
    else Outcome(MarkTerminal(c.row, Failed, Some(RC_ORCH_DEPENDENCY_UNAVAILABLE),
                              Some("Cross-tenant or unknown workload ownership"), e.finish), None, None, true)
  }

  /** The row after a failed dispatch. */
  function Refused(r: Row, message: string, now: nat): Row {
    var d := ParseDispatchError(message);
    match Judge(r.action.kind, d.code, d.retryable)
    case Fail => MarkTerminal(r, Failed, Some(d.code), Some(d.detail), now)
    case RetryFixed => Retry(r, PRESSURE_DELAY, d.code, d.detail, now)
    case RetryBackoff => Retry(r, BackoffDelay(r.attempts + 1), d.code, d.detail, now)
  }

  function Concluded(r: Row, answer: Result<RuntimeOperation, string>, now: nat): Row {
    match answer
    case Ok(op) => Dispatched(r, op, now)
    case Err(message) => Refused(r, message, now)
  }

  function Send(c: Candidate, e: Env): Outcome {
    match BuildRequest(c.id, c.row.action.kind, c.row.action.payload)
    case Malformed => NothingWritten(c.row, None)
    case Unsupported =>
      if e.writes == 0 then NothingWritten(c.row, None)
      else Outcome(Refused(c.row, RC_ORCH_ACTION_UNSUPPORTED, e.finish), None, None, true)
    case Request(path, body) =>
      var post := if e.baseUrl then Some(Post(c.row.key, c.id, path, body, e.writes > 0)) else None;
      if e.writes == 0 then NothingWritten(c.row, post)
      else Outcome(Concluded(c.row, Answer(e, "runtime request failed"), e.finish), None, post, true)
  }

  function OutcomeOf(w: World, c: Candidate, e: Env): Outcome {
    if TtlExpired(c.row, e.start) then Expire(w.table, c, e)
    else if c.row.status != Pending && c.row.operationId.Some? then Poll(c, e)
    else if !Owned(w.owners, c.row.action) then Disown(c, e)
    else Send(c, e)
  }

  /** The runtime carries out a POST at most once per key. */
  function Deliver(effects: seq<Effect>, p: Post, applied: bool): seq<Effect> {
    if applied && forall i :: 0 <= i < |effects| ==> effects[i].key != p.key
    then effects + [Effect(p.key, p.path, p.body)] else effects
  }

  function Apply(w: World, c: Candidate, e: Env, o: Outcome): World {
    var t := w.table[c.id := o.row];
    World(
      if o.spawn.Some? then Enqueue(t, e.newId, o.spawn.value, e.finish) else t,
      w.owners,
      if o.post.Some? then w.log + [o.post.value] else w.log,
      if o.post.Some? then Deliver(w.effects, o.post.value, e.applied) else w.effects)
  }

  function Process(w: World, c: Candidate, e: Env): World {
    Apply(w, c, e, OutcomeOf(w, c, e))
  }

  // ---- selecting candidates ----------------------------------------------

  predicate Live(r: Row) {
    r.status == Pending || IsRuntimeNonTerminal(r.status)
  }

  predicate Due(r: Row, now: nat) {
    Live(r) && r.nextRetryAt <= now
  }

  function DueIds(t: Table, now: nat): set<string> {
    set id | id in t && Due(t[id], now)
  }

  predicate DistinctCandidates(list: seq<Candidate>) {
    forall i, j :: 0 <= i < j < |list| ==> list[i].id != list[j].id
  }

  predicate Current(t: Table, c: Candidate) {
    c.id in t && t[c.id] == c.row
  }

  /** An answer to the candidate query: due rows, oldest first, at most one batch; ties come in any order. */
  ghost predicate Selected(t: Table, now: nat, list: seq<Candidate>) {
    && |list| == (if |DueIds(t, now)| < MAX_DISPATCH_BATCH then |DueIds(t, now)| else MAX_DISPATCH_BATCH)
    && DistinctCandidates(list)
    && (forall i :: 0 <= i < |list| ==> Current(t, list[i]) && Due(list[i].row, now))
    && (forall i, j :: 0 <= i < j < |list| ==> list[i].row.createdAt <= list[j].row.createdAt)
    && (forall id :: id in DueIds(t, now) && (forall i :: 0 <= i < |list| ==> list[i].id != id) ==>
          forall i :: 0 <= i < |list| ==> list[i].row.createdAt <= t[id].createdAt)
  }
}
