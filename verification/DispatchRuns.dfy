/**
  The dispatcher as a labelled transition system, and what holds in every run: rows stay coherent,
  snapshots stay current, POSTs with one key are one request, and no key is carried out twice.
 */
module DispatchRuns {
  import opened Wrappers
  import opened Vocabulary
  import opened ActionTable
  import opened RuntimeReply
  import opened Requests
  import opened Dispatch

  datatype Control = Idle | Cycle(queue: seq<Candidate>)

  datatype State = State(world: World, clock: nat, control: Control)

  datatype Label =
    | Decide(id: string, action: NewAction, now: nat)      // a loop enqueues an action
    | Adopt(tenant: string, workload: string)              // a policy is upserted
    | Begin(now: nat, list: seq<Candidate>)                // a cycle reads its candidates
    | Handle(env: Env)                                     // the cycle processes its next candidate
    | Stop                                                 // the cycle ends, is aborted, or the process restarts

  predicate Init(s: State) {
    s.world.table == map[] && s.world.log == [] && s.world.effects == [] && s.control == Idle
  }

  /** The runtime never answers a POST with the status "pending". */
  predicate Speaks(c: Candidate, e: Env) {
    c.row.operationId.None? && e.baseUrl && e.reply.HttpReply?
    ==> var r := ParseRuntimeResponse(e.reply.httpStatus, e.reply.body, e.reply.value);
        r.Ok? ==> r.value.status != Pending
  }

  ghost predicate Next(s: State, l: Label, s': State) {
    match l
    case Decide(id, action, now) =>
      s' == s.(world := s.world.(table := Enqueue(s.world.table, id, action, now)), clock := now)
    case Adopt(tenant, workload) =>
      s' == s.(world := s.world.(owners := s.world.owners + {(tenant, workload)}))
    case Begin(now, list) =>
      s.control.Idle? && Selected(s.world.table, now, list) && s' == s.(clock := now, control := Cycle(list))
    case Handle(e) =>
      s.control.Cycle? && s.control.queue != [] &&
      var c, rest := s.control.queue[0], s.control.queue[1..];
      && Speaks(c, e)
      && s' == State(Process(s.world, c, e), e.finish, if OutcomeOf(s.world, c, e).goOn then Cycle(rest) else Idle)
    case Stop =>
      s' == s.(control := Idle)
  }

  ghost predicate IsRun(run: seq<State>, labels: seq<Label>) {
    && |run| == |labels| + 1
    && Init(run[0])
    && forall i :: 0 <= i < |labels| ==> Next(run[i], labels[i], run[i + 1])
  }

  /** Which steps are possible: decisions, policies and stops always, a cycle when idle on a batch of the table, a candidate when one is queued. */
  lemma EnabledIff(s: State, l: Label)
    ensures (exists s' :: Next(s, l, s')) <==>
              match l
              case Decide(_, _, _) => true
              case Adopt(_, _) => true
              case Begin(now, list) => s.control == Idle && Selected(s.world.table, now, list)
              case Handle(e) => s.control.Cycle? && s.control.queue != [] && Speaks(s.control.queue[0], e)
              case Stop => true
  {
    hide Selected, Process, OutcomeOf, Speaks, Enqueue;
    match l
    case Decide(id, action, now) =>
      assert Next(s, l, s.(world := s.world.(table := Enqueue(s.world.table, id, action, now)), clock := now));
    case Adopt(tenant, workload) =>
      assert Next(s, l, s.(world := s.world.(owners := s.world.owners + {(tenant, workload)})));
    case Begin(now, list) =>
      assert s.control == Idle && Selected(s.world.table, now, list) ==> Next(s, l, s.(clock := now, control := Cycle(list)));
    case Handle(e) =>
      if s.control.Cycle? && s.control.queue != [] && Speaks(s.control.queue[0], e) {
        var c := s.control.queue[0];
        assert Next(s, l, State(Process(s.world, c, e), e.finish, if OutcomeOf(s.world, c, e).goOn then Cycle(s.control.queue[1..]) else Idle));
      }
    case Stop =>
      assert Next(s, l, s.(control := Idle));
  }

  // ---- the invariant -----------------------------------------------------

  /** What the columns of one row say about each other. */
  predicate Coherent(r: Row) {
    && (r.status == Pending ==> r.operationId.None?)
    && (IsRuntimeNonTerminal(r.status) || r.status.OtherStatus? ==> r.operationId.Some?)
    && (!IsTerminal(r.status) ==> r.terminalStatus.None? && r.terminalAt.None? && r.latencyMs.None?)
    && (IsTerminal(r.status) ==>
          && r.terminalStatus == Some(r.status)
          && r.terminalAt.Some?
          && r.latencyMs == Some(1000 * (r.terminalAt.value - r.createdAt)))
    && r.effectiveAt == r.createdAt
  }

  /** A POST is the request of the row that owns its key. */
  predicate Rooted(t: Table, p: Post) {
    p.actionId in t && t[p.actionId].key == p.key
    && BuildRequest(p.actionId, t[p.actionId].action.kind, t[p.actionId].action.payload) == Request(p.path, p.body)
  }

  /** An effect is what some POST asked for. */
  predicate Asked(log: seq<Post>, x: Effect) {
    exists k :: 0 <= k < |log| && log[k].key == x.key && log[k].path == x.path && log[k].body == x.body
  }

  predicate DistinctEffects(effects: seq<Effect>) {
    forall i, j :: 0 <= i < j < |effects| ==> effects[i].key != effects[j].key
  }

  predicate QueueCurrent(s: State) {
    s.control.Cycle? ==>
      && DistinctCandidates(s.control.queue)
      && forall i :: 0 <= i < |s.control.queue| ==> Current(s.world.table, s.control.queue[i]) && Live(s.control.queue[i].row)
  }

  predicate Inv(s: State) {
    && KeysUnique(s.world.table)
    && (forall id :: id in s.world.table ==> Coherent(s.world.table[id]))
    && QueueCurrent(s)
    && (forall k :: 0 <= k < |s.world.log| ==> Rooted(s.world.table, s.world.log[k]))
    && (forall k :: 0 <= k < |s.world.effects| ==> Asked(s.world.log, s.world.effects[k]))
    && DistinctEffects(s.world.effects)
  }

  // ---- one candidate -----------------------------------------------------

  /** The decision columns of a row, which no statement writes. */
  predicate SameDecision(r: Row, r': Row) {
    r'.action == r.action && r'.key == r.key && r'.createdAt == r.createdAt && r'.effectiveAt == r.effectiveAt
  }

  lemma RefusedKeeps(r: Row, message: string, now: nat)
    requires Coherent(r) && Live(r)
    ensures var r' := Refused(r, message, now);
            Coherent(r') && SameDecision(r, r') && r'.operationId == r.operationId
  {
    hide ParseDispatchError, Judge;
  }

  lemma DispatchedKeeps(r: Row, op: RuntimeOperation, now: nat)
    requires Coherent(r) && Live(r)
    ensures var r' := Dispatched(r, op, now);
            (Coherent(r') <==> op.status != Pending) && SameDecision(r, r') && r'.operationId.Some?
  {
  }

  /** Why the runtime must not answer "pending": such a row has an operation id and is nevertheless sent again. */
  lemma PendingAnswerIsSentAgain(w: World, id: string, r: Row, op: RuntimeOperation, now: nat, e: Env)
    requires op.status == Pending && e.baseUrl
    requires !TtlExpired(r, e.start) && Owned(w.owners, r.action)
    requires BuildRequest(id, r.action.kind, r.action.payload).Request?
    ensures var r' := Dispatched(r, op, now);
            && r'.operationId.Some? && Due(r', now)
            && OutcomeOf(w, Candidate(id, r'), e).post.Some?
            && OutcomeOf(w, Candidate(id, r'), e).post.value.key == r.key
  {
    hide BuildRequest, Answer, Concluded, Owned, Expire, Poll, Disown;
  }

  lemma SendKeeps(c: Candidate, e: Env)
    requires Coherent(c.row) && c.row.status == Pending && Speaks(c, e)
    ensures var o := Send(c, e);
            && Coherent(o.row) && SameDecision(c.row, o.row) && o.spawn.None?
            && (o.post.Some? ==>
                  && o.post.value.key == c.row.key && o.post.value.actionId == c.id
                  && BuildRequest(c.id, c.row.action.kind, c.row.action.payload) == Request(o.post.value.path, o.post.value.body))
  {
    hide BuildRequest, Dispatched, Refused, ParseRuntimeResponse;
    RefusedKeeps(c.row, RC_ORCH_ACTION_UNSUPPORTED, e.finish);
    var a := Answer(e, "runtime request failed");
    if a.Ok? {
      DispatchedKeeps(c.row, a.value, e.finish);
    } else {
      RefusedKeeps(c.row, a.error, e.finish);
    }
  }

  lemma ExpireKeeps(t: Table, c: Candidate, e: Env)
    requires Coherent(c.row) && Live(c.row)
    ensures var o := Expire(t, c, e);
            Coherent(o.row) && SameDecision(c.row, o.row) && o.row.operationId == c.row.operationId && o.post.None?
  {
    hide RollbackOf, EnqueueSucceeds, RC_ORCH_TTL_EXPIRED, RC_ORCH_ROLLBACK_TRIGGERED;
  }

  lemma PollKeeps(c: Candidate, e: Env)
    requires Coherent(c.row) && Live(c.row) && c.row.operationId.Some?
    ensures var o := Poll(c, e);
            && Coherent(o.row) && SameDecision(c.row, o.row) && o.row.operationId == c.row.operationId && o.post.None?
            && o.spawn.None?
  {
    hide Answer, BackoffDelay, RC_ORCH_DEPENDENCY_UNAVAILABLE;
  }

  lemma DisownKeeps(c: Candidate, e: Env)
    requires Coherent(c.row) && Live(c.row)
    ensures var o := Disown(c, e);
            && Coherent(o.row) && SameDecision(c.row, o.row) && o.row.operationId == c.row.operationId && o.post.None?
            && o.spawn.None?
  {
    hide RC_ORCH_DEPENDENCY_UNAVAILABLE;
  }

  /** What processing does to the row of a candidate, and what it may send. */
  lemma OutcomeKeeps(w: World, c: Candidate, e: Env)
    requires Coherent(c.row) && Live(c.row) && Speaks(c, e)
    ensures var o := OutcomeOf(w, c, e);
            && Coherent(o.row) && SameDecision(c.row, o.row)
            && (c.row.operationId.Some? ==> o.row.operationId == c.row.operationId && o.post.None?)
            && (o.post.Some? ==>
                  && o.post.value.key == c.row.key && o.post.value.actionId == c.id
                  && BuildRequest(c.id, c.row.action.kind, c.row.action.payload) == Request(o.post.value.path, o.post.value.body))
  {
    hide Expire, Poll, Disown, Send, BuildRequest, Owned, Speaks;
    if TtlExpired(c.row, e.start) {
      ExpireKeeps(w.table, c, e);
    } else if c.row.status != Pending && c.row.operationId.Some? {
      PollKeeps(c, e);
    } else if !Owned(w.owners, c.row.action) {
      DisownKeeps(c, e);
    } else {
      SendKeeps(c, e);
    }
  }

  // ---- preservation ------------------------------------------------------

  /** `t'` has every row of `t`, with the same decision columns. */
  predicate Extends(t: Table, t': Table) {
    forall id :: id in t ==> id in t' && SameDecision(t[id], t'[id])
  }

  lemma RootedStays(t: Table, t': Table, p: Post)
    requires Rooted(t, p) && Extends(t, t')
    ensures Rooted(t', p)
  {
    hide BuildRequest;
  }

  lemma UpdateKeeps(t: Table, id: string, r: Row)
    requires KeysUnique(t) && id in t && SameDecision(t[id], r) && Coherent(r)
    requires forall i :: i in t ==> Coherent(t[i])
    ensures var t' := t[id := r];
            KeysUnique(t') && Extends(t, t') && forall i :: i in t' ==> Coherent(t'[i])
  {
  }

  lemma EnqueueIsCoherent(t: Table, id: string, a: NewAction, now: nat)
    requires KeysUnique(t) && forall i :: i in t ==> Coherent(t[i])
    ensures var t' := Enqueue(t, id, a, now);
            KeysUnique(t') && Extends(t, t') && (forall i :: i in t' ==> Coherent(t'[i]))
            && forall i :: i in t ==> t'[i] == t[i]
  {
    hide KeyOf;
    EnqueueKeeps(t, id, a, now);
  }

  /** The table after processing: the candidate's row, at most one new row, and nothing else changed. */
  lemma TableAfter(w: World, c: Candidate, e: Env)
    requires KeysUnique(w.table) && Current(w.table, c) && Live(c.row) && Speaks(c, e)
    requires forall id :: id in w.table ==> Coherent(w.table[id])
    ensures var t', o := Process(w, c, e).table, OutcomeOf(w, c, e);
            && KeysUnique(t') && Extends(w.table, t')
            && (forall id :: id in t' ==> Coherent(t'[id]))
            && t'[c.id] == o.row
            && (forall id :: id in w.table && id != c.id ==> t'[id] == w.table[id])
  {
    hide OutcomeOf, KeyOf, Enqueue;
    OutcomeKeeps(w, c, e);
    var o := OutcomeOf(w, c, e);
    UpdateKeeps(w.table, c.id, o.row);
    if o.spawn.Some? {
      EnqueueIsCoherent(w.table[c.id := o.row], e.newId, o.spawn.value, e.finish);
    }
  }

  lemma DeliverKeeps(log: seq<Post>, effects: seq<Effect>, p: Post, applied: bool)
    requires DistinctEffects(effects) && forall k :: 0 <= k < |effects| ==> Asked(log, effects[k])
    ensures var effects' := Deliver(effects, p, applied);
            DistinctEffects(effects') && forall k :: 0 <= k < |effects'| ==> Asked(log + [p], effects'[k])
  {
    var log' := log + [p];
    assert log'[|log|] == p;
    forall x | Asked(log, x) ensures Asked(log', x) {
      var k :| 0 <= k < |log| && log[k].key == x.key && log[k].path == x.path && log[k].body == x.body;
      assert log'[k] == log[k];
    }
  }

  lemma LogStaysRooted(t: Table, t': Table, log: seq<Post>)
    requires Extends(t, t') && forall k :: 0 <= k < |log| ==> Rooted(t, log[k])
    ensures forall k :: 0 <= k < |log| ==> Rooted(t', log[k])
  {
    hide BuildRequest;
  }

  lemma QueueStaysCurrent(w: World, c: Candidate, e: Env, queue: seq<Candidate>)
    requires DistinctCandidates(queue) && queue != [] && queue[0] == c
    requires forall i :: 0 <= i < |queue| ==> Current(w.table, queue[i]) && Live(queue[i].row)
    requires forall id :: id in w.table && id != c.id ==> id in Process(w, c, e).table && Process(w, c, e).table[id] == w.table[id]
    ensures var rest := queue[1..];
            DistinctCandidates(rest)
            && forall i :: 0 <= i < |rest| ==> Current(Process(w, c, e).table, rest[i]) && Live(rest[i].row)
  {
    hide Process;
    var rest := queue[1..];
    forall i | 0 <= i < |rest| ensures Current(Process(w, c, e).table, rest[i]) && Live(rest[i].row) {
      assert rest[i] == queue[i + 1];
      assert Current(w.table, queue[i + 1]);
    }
  }

  lemma LogAfter(w: World, c: Candidate, e: Env)
    requires KeysUnique(w.table) && Current(w.table, c) && Live(c.row) && Speaks(c, e) && Coherent(c.row)
    requires Extends(w.table, Process(w, c, e).table)
    requires forall k :: 0 <= k < |w.log| ==> Rooted(w.table, w.log[k])
    ensures var w' := Process(w, c, e); forall k :: 0 <= k < |w'.log| ==> Rooted(w'.table, w'.log[k])
  {
    hide OutcomeOf, Speaks, BuildRequest, Coherent, Enqueue;
    var w', o := Process(w, c, e), OutcomeOf(w, c, e);
    LogStaysRooted(w.table, w'.table, w.log);
    OutcomeKeeps(w, c, e);
  }

  lemma CurrentIsCoherent(t: Table, c: Candidate)
    requires Current(t, c) && forall id :: id in t ==> Coherent(t[id])
    ensures Coherent(c.row)
  {
    hide Coherent;
  }

  lemma HandleKeepsInv(s: State, e: Env, s': State)
    requires Inv(s) && Next(s, Handle(e), s')
    ensures Inv(s')
  {
    hide OutcomeOf, Speaks, Coherent, Enqueue, Rooted, Current, Live, Asked, KeysUnique, Deliver;
    var c, w := s.control.queue[0], s.world;
    assert Current(w.table, c) && Live(c.row);
    CurrentIsCoherent(w.table, c);
    TableAfter(w, c, e);
    LogAfter(w, c, e);
    QueueStaysCurrent(w, c, e, s.control.queue);
    if OutcomeOf(w, c, e).post.Some? {
      DeliverKeeps(w.log, w.effects, OutcomeOf(w, c, e).post.value, e.applied);
    }
  }

  lemma DecideKeepsInv(s: State, id: string, a: NewAction, now: nat, s': State)
    requires Inv(s) && Next(s, Decide(id, a, now), s')
    ensures Inv(s')
  {
    hide KeyOf, BuildRequest, Coherent, Enqueue;
    EnqueueIsCoherent(s.world.table, id, a, now);
    forall k | 0 <= k < |s.world.log| ensures Rooted(s'.world.table, s.world.log[k]) {
      RootedStays(s.world.table, s'.world.table, s.world.log[k]);
    }
  }

  lemma NextKeepsInv(s: State, l: Label, s': State)
    requires Inv(s) && Next(s, l, s')
    ensures Inv(s')
  {
    match l
    case Decide(id, action, now) => DecideKeepsInv(s, id, action, now, s');
    case Handle(e) => HandleKeepsInv(s, e, s');
    case _ =>
  }

  lemma {:induction false} InvHolds(run: seq<State>, labels: seq<Label>, i: nat)
    requires IsRun(run, labels) && i < |run|
    ensures Inv(run[i])
  {
    if i > 0 {
      InvHolds(run, labels, i - 1);
      NextKeepsInv(run[i - 1], labels[i - 1], run[i]);
    }
  }
}
