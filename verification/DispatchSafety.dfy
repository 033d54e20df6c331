/** Safety over whole runs of the dispatcher. */
module DispatchSafety {
  import opened Wrappers
  import opened Vocabulary
  import opened IdempotencyKey
  import opened ActionTable
  import opened RuntimeReply
  import opened Requests
  import opened Dispatch
  import opened DispatchRuns

  predicate NoNewPosts(log: seq<Post>, log': seq<Post>, key: Digest) {
    forall k :: |log| <= k < |log'| ==> log'[k].key != key
  }

  /** How a row may still change: a terminal row not at all, and an operation id is never lost or sent again. */
  predicate RowSettles(w: World, w': World, id: string)
    requires id in w.table && id in w'.table
  {
    var r, r' := w.table[id], w'.table[id];
    && SameDecision(r, r')
    && (IsTerminal(r.status) ==> r' == r)
    && (r.operationId.Some? ==> r'.operationId == r.operationId)
    && (IsTerminal(r.status) || r.operationId.Some? ==> NoNewPosts(w.log, w'.log, r.key))
  }

  predicate Settles(w: World, w': World) {
    && w.log <= w'.log
    && forall id :: id in w.table ==> id in w'.table && RowSettles(w, w', id)
  }

  lemma SettlesReflexive(w: World)
    ensures Settles(w, w)
  {
  }

  lemma SettlesTransitive(w: World, x: World, y: World)
    requires Settles(w, x) && Settles(x, y)
    ensures Settles(w, y)
  {
    forall id | id in w.table ensures id in y.table && RowSettles(w, y, id) {
      assert RowSettles(w, x, id) && RowSettles(x, y, id);
      forall k | |w.log| <= k < |y.log| && (IsTerminal(w.table[id].status) || w.table[id].operationId.Some?)
        ensures y.log[k].key != w.table[id].key
      {
        if k < |x.log| {
          assert y.log[k] == x.log[k];
        }
      }
    }
  }

  lemma HandleSettles(s: State, e: Env, s': State)
    requires Inv(s) && Next(s, Handle(e), s')
    ensures Settles(s.world, s'.world)
  {
    hide OutcomeOf, Speaks, Coherent, Enqueue, KeyOf, Rooted, Deliver, BuildRequest;
    var c, w, w' := s.control.queue[0], s.world, s'.world;
    CurrentIsCoherent(w.table, c);
    TableAfter(w, c, e);
    OutcomeKeeps(w, c, e);
    forall id | id in w.table && id != c.id ensures w.table[id].key != c.row.key {
    }
    assert RowSettles(w, w', c.id);
  }

  lemma NextSettles(s: State, l: Label, s': State)
    requires Inv(s) && Next(s, l, s')
    ensures Settles(s.world, s'.world)
  {
    hide Speaks, Coherent, Enqueue, KeyOf, Rooted, Process, OutcomeOf, BuildRequest, Selected;
    match l
    case Handle(e) => HandleSettles(s, e, s');
    case Decide(id, a, now) => EnqueueIsCoherent(s.world.table, id, a, now);
    case _ =>
  }

  lemma {:induction false} RunSettles(run: seq<State>, labels: seq<Label>, i: nat, j: nat)
    requires IsRun(run, labels) && i <= j < |run|
    ensures Settles(run[i].world, run[j].world)
    decreases j
  {
    hide Next, Settles, Inv, Init;
    if i == j {
      SettlesReflexive(run[i].world);
    } else {
      RunSettles(run, labels, i, j - 1);
      InvHolds(run, labels, j - 1);
      NextSettles(run[j - 1], labels[j - 1], run[j]);
      SettlesTransitive(run[i].world, run[j - 1].world, run[j].world);
    }
  }

  /** In every run, a row that reached a terminal status never changes again. */
  lemma TerminalIsAbsorbing(run: seq<State>, labels: seq<Label>, i: nat, j: nat, id: string)
    requires IsRun(run, labels) && i <= j < |run|
    requires id in run[i].world.table && IsTerminal(run[i].world.table[id].status)
    ensures id in run[j].world.table && run[j].world.table[id] == run[i].world.table[id]
  {
    hide IsRun;
    RunSettles(run, labels, i, j);
    assert RowSettles(run[i].world, run[j].world, id);
  }

  /** In every run, rows are coherent and a cycle's snapshots are the stored rows until they are processed. */
  lemma RowsCoherentSnapshotsCurrent(run: seq<State>, labels: seq<Label>, i: nat)
    requires IsRun(run, labels) && i < |run|
    ensures forall id :: id in run[i].world.table ==> Coherent(run[i].world.table[id])
    ensures run[i].control.Cycle? ==>
              forall c :: c in run[i].control.queue ==> c.id in run[i].world.table && run[i].world.table[c.id] == c.row
  {
    InvHolds(run, labels, i);
    hide IsRun, Coherent;
    if run[i].control.Cycle? {
      forall c | c in run[i].control.queue ensures Current(run[i].world.table, c) {
        var k :| 0 <= k < |run[i].control.queue| && run[i].control.queue[k] == c;
      }
    }
  }

  /** In every run, all POSTs with one Idempotency-Key come from one row and are one request. */
  lemma OneRequestPerKey(run: seq<State>, labels: seq<Label>, i: nat, j: nat, k: nat)
    requires IsRun(run, labels) && i < |run|
    requires j < |run[i].world.log| && k < |run[i].world.log|
    requires run[i].world.log[j].key == run[i].world.log[k].key
    ensures var p, q := run[i].world.log[j], run[i].world.log[k];
            p.actionId == q.actionId && p.path == q.path && p.body == q.body
            && p.actionId in run[i].world.table
            && BuildRequest(p.actionId, run[i].world.table[p.actionId].action.kind, run[i].world.table[p.actionId].action.payload)
               == Request(p.path, p.body)
  {
    InvHolds(run, labels, i);
    hide IsRun, BuildRequest;
    assert Rooted(run[i].world.table, run[i].world.log[j]) && Rooted(run[i].world.table, run[i].world.log[k]);
  }

  /** In every run, once a row stores its operation id no later POST carries its key. */
  lemma NoPostAfterOperationId(run: seq<State>, labels: seq<Label>, i: nat, j: nat, id: string)
    requires IsRun(run, labels) && i <= j < |run|
    requires id in run[i].world.table && run[i].world.table[id].operationId.Some?
    ensures run[i].world.log <= run[j].world.log
    ensures forall k :: |run[i].world.log| <= k < |run[j].world.log| ==> run[j].world.log[k].key != run[i].world.table[id].key
  {
    hide IsRun;
    RunSettles(run, labels, i, j);
    assert RowSettles(run[i].world, run[j].world, id);
  }

  // ---- effects and decisions ---------------------------------------------

  predicate SoundLabel(l: Label) {
    l.Decide? ==> SoundRequest(l.action)
  }

  lemma NextStaysKeyed(s: State, l: Label, s': State)
    requires Inv(s) && Next(s, l, s') && SoundLabel(l)
    requires forall id :: id in s.world.table ==> Keyed(s.world.table[id])
    ensures forall id :: id in s'.world.table ==> Keyed(s'.world.table[id])
  {
    hide Coherent, KeyOf, Rooted, BuildRequest, Selected, Speaks;
    match l
    case Decide(id, a, now) => EnqueueStaysKeyed(s.world.table, id, a, now);
    case Handle(e) => HandleStaysKeyed(s, e, s');
    case _ =>
  }

  lemma HandleStaysKeyed(s: State, e: Env, s': State)
    requires Inv(s) && Next(s, Handle(e), s')
    requires forall id :: id in s.world.table ==> Keyed(s.world.table[id])
    ensures forall id :: id in s'.world.table ==> Keyed(s'.world.table[id])
  {
    hide Coherent, KeyOf, Rooted, BuildRequest, Speaks, OutcomeOf, Enqueue;
    var c, w := s.control.queue[0], s.world;
    CurrentIsCoherent(w.table, c);
    OutcomeKeeps(w, c, e);
    var o := OutcomeOf(w, c, e);
    assert Keyed(w.table[c.id]) && Keyed(o.row);
    if o.spawn.Some? {
      SpawnIsSound(w, c, e);
      EnqueueStaysKeyed(w.table[c.id := o.row], e.newId, o.spawn.value, e.finish);
    }
  }

  lemma SpawnIsRollback(w: World, c: Candidate, e: Env)
    requires OutcomeOf(w, c, e).spawn.Some?
    ensures c.row.action.rollback.Some? && OutcomeOf(w, c, e).spawn.value == RollbackOf(c, e.finish)
    ensures TtlExpired(c.row, e.start) && OutcomeOf(w, c, e).row.status == Failed
  {
    hide KeyOf, BuildRequest, Answer, EnqueueSucceeds, Refused, Concluded, Retry, RollbackOf;
  }

  /** A rollback is enqueued only for a row that has one, and it has none of its own. */
  lemma SpawnIsSound(w: World, c: Candidate, e: Env)
    requires Keyed(c.row) && OutcomeOf(w, c, e).spawn.Some?
    ensures SoundRequest(OutcomeOf(w, c, e).spawn.value)
    ensures OutcomeOf(w, c, e).spawn.value.kind == RollbackAction && OutcomeOf(w, c, e).spawn.value.rollback.None?
  {
    hide OutcomeOf;
    SpawnIsRollback(w, c, e);
  }

  lemma RollbackOutcome(w: World, c: Candidate, e: Env)
    requires TtlExpired(c.row, e.start) && c.row.action.rollback.Some? && e.writes >= 3 && e.newId !in w.table
    ensures var o := OutcomeOf(w, c, e);
            && o.spawn == Some(RollbackOf(c, e.finish)) && SameDecision(c.row, o.row)
            && o.row.reasonCode == Some(RC_ORCH_ROLLBACK_TRIGGERED)
  {
    hide RollbackOf, KeyOf, HasKey, Send, Poll, Disown;
  }

  /**
    The rollback of an expired row gets a row of its own exactly when no row stands for the same
    decision: a rollback of the workload with the same payload in the same 5-second window swallows
    it. Either way the expired row says that its rollback was enqueued.
   */
  lemma RollbackRowIff(w: World, c: Candidate, e: Env)
    requires Current(w.table, c) && forall id :: id in w.table ==> Keyed(w.table[id])
    requires TtlExpired(c.row, e.start) && c.row.action.rollback.Some? && e.writes >= 3 && e.newId !in w.table
    ensures var t' := Process(w, c, e).table;
            && (e.newId in t' <==> forall id :: id in w.table ==> DecisionOf(w.table[id].action) != DecisionOf(RollbackOf(c, e.finish)))
            && t'[c.id].reasonCode == Some(RC_ORCH_ROLLBACK_TRIGGERED)
  {
    hide OutcomeOf, KeyOf, FreshRow, DecisionOf, Sound;
    RollbackOutcome(w, c, e);
    var rb, t := RollbackOf(c, e.finish), w.table[c.id := OutcomeOf(w, c, e).row];
    assert Keyed(w.table[c.id]);
    RollbackIsSound(c, e.finish);
    forall id | id in w.table
      ensures t[id].key == w.table[id].key
      ensures t[id].key == KeyOf(rb) <==> DecisionOf(w.table[id].action) == DecisionOf(rb)
    {
      assert Keyed(w.table[id]);
      KeyIffDecision(w.table[id].action, rb);
    }
    assert HasKey(t, KeyOf(rb)) <==> exists id :: id in w.table && DecisionOf(w.table[id].action) == DecisionOf(rb);
  }

  lemma RollbackIsSound(c: Candidate, now: nat)
    requires Keyed(c.row) && c.row.action.rollback.Some?
    ensures Sound(RollbackOf(c, now))
  {
    hide KeyOf;
  }

  lemma {:induction false} RowsKeyed(run: seq<State>, labels: seq<Label>, i: nat)
    requires IsRun(run, labels) && i < |run| && forall k :: 0 <= k < |labels| ==> SoundLabel(labels[k])
    ensures forall id :: id in run[i].world.table ==> Keyed(run[i].world.table[id])
  {
    hide Next, Inv, Keyed, SoundLabel;
    if i > 0 {
      RowsKeyed(run, labels, i - 1);
      InvHolds(run, labels, i - 1);
      NextStaysKeyed(run[i - 1], labels[i - 1], run[i]);
    }
  }

  /**
    In every run, whatever replies and writes are lost, the runtime carries out each decision at
    most once: two effects whose rows stand for the same decision are one effect.
   */
  lemma AppliedAtMostOncePerDecision(run: seq<State>, labels: seq<Label>, i: nat, k: nat, l: nat, x: string, y: string)
    requires IsRun(run, labels) && i < |run| && forall k :: 0 <= k < |labels| ==> SoundLabel(labels[k])
    requires k < |run[i].world.effects| && l < |run[i].world.effects|
    requires x in run[i].world.table && run[i].world.table[x].key == run[i].world.effects[k].key
    requires y in run[i].world.table && run[i].world.table[y].key == run[i].world.effects[l].key
    requires DecisionOf(run[i].world.table[x].action) == DecisionOf(run[i].world.table[y].action)
    ensures k == l && x == y
  {
    InvHolds(run, labels, i);
    RowsKeyed(run, labels, i);
    hide IsRun, Coherent, Rooted;
    KeyIffDecision(run[i].world.table[x].action, run[i].world.table[y].action);
  }

  /** In every run, an effect is the request of the row that owns its key. */
  lemma EffectsAreRequests(run: seq<State>, labels: seq<Label>, i: nat, k: nat) returns (id: string)
    requires IsRun(run, labels) && i < |run| && k < |run[i].world.effects|
    ensures var t, x := run[i].world.table, run[i].world.effects[k];
            id in t && t[id].key == x.key && BuildRequest(id, t[id].action.kind, t[id].action.payload) == Request(x.path, x.body)
  {
    InvHolds(run, labels, i);
    hide IsRun, BuildRequest, Coherent;
    var w := run[i].world;
    assert Asked(w.log, w.effects[k]);
    var j :| 0 <= j < |w.log| && w.log[j].key == w.effects[k].key && w.log[j].path == w.effects[k].path && w.log[j].body == w.effects[k].body;
    assert Rooted(w.table, w.log[j]);
    id := w.log[j].actionId;
  }

  // ---- acknowledged means carried out ------------------------------------

  predicate CarriedOut(effects: seq<Effect>, key: Digest) {
    exists k :: 0 <= k < |effects| && effects[k].key == key
  }

  /** The runtime acknowledges a POST, or calls it a replay, only if it has carried its key out. */
  predicate Truthful(s: State, l: Label) {
    l.Handle? && s.control.Cycle? && s.control.queue != [] ==>
      var c, e := s.control.queue[0], l.env;
      var o := OutcomeOf(s.world, c, e);
      o.post.Some? && Answer(e, "").Ok? ==> CarriedOut(Deliver(s.world.effects, o.post.value, e.applied), c.row.key)
  }

  predicate AcknowledgedCarriedOut(w: World) {
    forall id :: id in w.table && w.table[id].operationId.Some? ==> CarriedOut(w.effects, w.table[id].key)
  }

  lemma DeliverOnlyAdds(effects: seq<Effect>, p: Post, applied: bool, key: Digest)
    requires CarriedOut(effects, key)
    ensures CarriedOut(Deliver(effects, p, applied), key)
  {
    var k :| 0 <= k < |effects| && effects[k].key == key;
    assert Deliver(effects, p, applied)[k] == effects[k];
  }

  /** A new operation id is recorded only when a POST was answered. */
  lemma NewOperationIdWasAnswered(w: World, c: Candidate, e: Env)
    requires Coherent(c.row) && Live(c.row)
    requires c.row.operationId.None? && OutcomeOf(w, c, e).row.operationId.Some?
    ensures OutcomeOf(w, c, e).post.Some? && Answer(e, "").Ok?
  {
    hide BuildRequest, ParseRuntimeResponse, ParseDispatchError, Judge, RollbackOf, EnqueueSucceeds;
  }

  lemma HandleAcknowledges(s: State, e: Env, s': State)
    requires Inv(s) && Next(s, Handle(e), s') && Truthful(s, Handle(e)) && AcknowledgedCarriedOut(s.world)
    ensures AcknowledgedCarriedOut(s'.world)
  {
    hide Coherent, KeyOf, Rooted, BuildRequest, Speaks, OutcomeOf, Deliver, CarriedOut, Answer;
    var c, w, w' := s.control.queue[0], s.world, s'.world;
    CurrentIsCoherent(w.table, c);
    TableAfter(w, c, e);
    OutcomeKeeps(w, c, e);
    var o := OutcomeOf(w, c, e);
    if c.row.operationId.None? && o.row.operationId.Some? {
      NewOperationIdWasAnswered(w, c, e);
    }
    forall id | id in w'.table && w'.table[id].operationId.Some? ensures CarriedOut(w'.effects, w'.table[id].key) {
      if id in w.table && w.table[id].operationId.Some? && o.post.Some? {
        DeliverOnlyAdds(w.effects, o.post.value, e.applied, w.table[id].key);
      }
    }
  }

  /** With a truthful runtime, in every run a row that stores an operation id was carried out, exactly once. */
  lemma {:induction false} AcknowledgedExactlyOnce(run: seq<State>, labels: seq<Label>, i: nat)
    requires IsRun(run, labels) && i < |run| && forall k :: 0 <= k < |labels| ==> Truthful(run[k], labels[k])
    ensures AcknowledgedCarriedOut(run[i].world) && DistinctEffects(run[i].world.effects)
  {
    hide Coherent, KeyOf, Rooted, BuildRequest, Speaks, Process, OutcomeOf, Truthful, CarriedOut, Selected;
    InvHolds(run, labels, i);
    if i > 0 {
      AcknowledgedExactlyOnce(run, labels, i - 1);
      InvHolds(run, labels, i - 1);
      var l := labels[i - 1];
      assert Next(run[i - 1], l, run[i]) && Truthful(run[i - 1], l);
      match l
      case Handle(e) => HandleAcknowledges(run[i - 1], e, run[i]);
      case Decide(id, a, now) =>
        EnqueueIsCoherent(run[i - 1].world.table, id, a, now);
      case _ =>
    }
  }
}
