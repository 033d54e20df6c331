/**
  The whole control plane on one database: fast loop, slow loop and dispatcher in any order, with
  any lost replies and writes. A step demands nothing but primary keys and enough draws; what a
  theorem needs beyond that is a condition on the labels before the state it speaks about.
 */
module ControlPlane {
  import opened Json
  import opened Vocabulary
  import opened ActionTable
  import opened Requests
  import opened Dispatch
  import opened DispatchRuns
  import opened DispatchSafety
  import opened Database
  import opened FastLoop
  import opened FreshRows
  import opened SlowLoop

  datatype Plane = Plane(db: State, intents: map<Name, Intent>)

  datatype PlaneLabel =
    | Fast(x: Inputs, draws: seq<Draw>)
    | Slow(run: Run)
    | Other(l: Label)          // a step of the dispatcher, a policy, or an action from other code

  function WithTable(s: State, t: Table): State {
    s.(world := s.world.(table := t))
  }

  ghost predicate PlaneNext(s: Plane, l: PlaneLabel, s': Plane) {
    match l
    case Fast(x, draws) =>
      var plan := FullPlan(x, s.intents);
      && DistinctNames(x.observations) && |plan.actions| <= |draws|
      && s' == Plane(WithTable(s.db, Inserted(s.db.world.table, plan.actions, draws)), plan.intents)
    case Slow(r) =>
      EnoughDraws(r) && s' == s.(db := WithTable(s.db, Inserted(s.db.world.table, PlanOf(r), r.draws)))
    case Other(l) =>
      Next(s.db, l, s'.db) && s'.intents == s.intents
  }

  ghost predicate IsPlaneRun(run: seq<Plane>, labels: seq<PlaneLabel>) {
    && |run| == |labels| + 1
    && Init(run[0].db)
    && forall i :: 0 <= i < |labels| ==> PlaneNext(run[i], labels[i], run[i + 1])
  }

  /** Which steps are possible: a loop's whenever keys are primary and draws suffice, any other whenever the dispatcher's system has it. */
  lemma PlaneEnabledIff(s: Plane, l: PlaneLabel)
    ensures (exists s' :: PlaneNext(s, l, s')) <==>
              match l
              case Fast(x, draws) => DistinctNames(x.observations) && |FullPlan(x, s.intents).actions| <= |draws|
              case Slow(r) => |PlanOf(r)| <= |r.draws|
              case Other(step) => exists db :: Next(s.db, step, db)
  {
    hide Next, FullPlan, PlanOf, EnqueueFirst, DistinctNames;
    match l
    case Fast(x, draws) =>
      var plan := FullPlan(x, s.intents);
      if DistinctNames(x.observations) && |plan.actions| <= |draws| {
        assert PlaneNext(s, l, Plane(WithTable(s.db, Inserted(s.db.world.table, plan.actions, draws)), plan.intents));
      }
    case Slow(r) =>
      if |PlanOf(r)| <= |r.draws| {
        assert PlaneNext(s, l, s.(db := WithTable(s.db, Inserted(s.db.world.table, PlanOf(r), r.draws))));
      }
    case Other(step) =>
      if db :| Next(s.db, step, db) {
        assert PlaneNext(s, l, Plane(db, s.intents));
      }
  }

  // ---- conditions on labels ----------------------------------------------

  /** No name that a label brings in holds the separator, and other code's payloads are JSON values. */
  predicate Separable(l: PlaneLabel) {
    match l
    case Fast(x, _) => PlainNames(x)
    case Slow(r) => forall i :: 0 <= i < |r.groups| ==> '|' !in r.groups[i].nodeGroup
    case Other(l) => SoundLabel(l)
  }

  /** No name that a request needs is blank, and other code's payloads are not malformed. */
  predicate Named(l: PlaneLabel) {
    match l
    case Fast(x, _) => NamesPresent(x)
    case Slow(r) => forall i :: 0 <= i < |r.groups| ==> !Blank(r.groups[i].nodeGroup)
    case Other(l) => l.Decide? ==> !BuildRequest(l.id, l.action.kind, Canonical(l.action.payload)).Malformed?
  }

  /** Other code enqueues no action of the fast loop's types. */
  predicate LeavesFastTypes(l: PlaneLabel) {
    l.Other? && l.l.Decide? ==> !LoopType(TypeName(l.l.action.kind))
  }

  /** Other code enqueues no scaling action. */
  predicate LeavesScaling(l: PlaneLabel) {
    l.Other? && l.l.Decide? ==> !IsScale(l.l.action.kind)
  }

  /** The UUIDs that a fast run draws are new. */
  ghost predicate NewDraws(s: Plane, l: PlaneLabel) {
    l.Fast? ==>
      var actions := FullPlan(l.x, s.intents).actions;
      |actions| <= |l.draws| ==> NewIds(s.db.world.table, Calls(actions, l.draws))
  }

  // ---- the dispatcher's invariant ----------------------------------------

  /** A loop's insertions are decisions of the transition system. */
  lemma {:induction false} CallsKeepInv(s: State, calls: seq<Call>, n: nat)
    requires Inv(s) && n <= |calls|
    ensures Inv(WithTable(s, EnqueueFirst(s.world.table, calls, n)))
  {
    hide Inv, Enqueue;
    if n == 0 {
      assert WithTable(s, s.world.table) == s;
    } else {
      CallsKeepInv(s, calls, n - 1);
      var before, c := WithTable(s, EnqueueFirst(s.world.table, calls, n - 1)), calls[n - 1];
      var after := WithTable(s, EnqueueFirst(s.world.table, calls, n)).(clock := c.now);
      assert Next(before, Decide(c.id, c.action, c.now), after);
      NextKeepsInv(before, Decide(c.id, c.action, c.now), after);
      ClockIsFree(after, s.clock);
    }
  }

  lemma ClockIsFree(s: State, clock: nat)
    requires Inv(s)
    ensures Inv(s.(clock := clock))
  {
    hide Rooted, Asked, Coherent, KeysUnique, DistinctEffects;
  }

  lemma KeysOfInv(s: State)
    requires Inv(s)
    ensures KeysUnique(s.world.table)
  {
    hide Rooted, Asked, Coherent, KeysUnique, DistinctEffects;
  }

  /** With all loops interleaved in any order, the dispatcher's invariant holds in every reachable state. */
  lemma {:induction false} PlaneInvHolds(run: seq<Plane>, labels: seq<PlaneLabel>, i: nat)
    requires IsPlaneRun(run, labels) && i < |run|
    ensures Inv(run[i].db)
  {
    hide Inv, Next, FullPlan, PlanOf, EnqueueFirst;
    if i == 0 {
      InitHasInv(run[0].db);
    } else {
      PlaneInvHolds(run, labels, i - 1);
      var s := run[i - 1];
      assert PlaneNext(s, labels[i - 1], run[i]);
      match labels[i - 1]
      case Fast(x, draws) => CallsKeepInv(s.db, Calls(FullPlan(x, s.intents).actions, draws), |FullPlan(x, s.intents).actions|);
      case Slow(r) => CallsKeepInv(s.db, Calls(PlanOf(r), r.draws), |PlanOf(r)|);
      case Other(l) => NextKeepsInv(s.db, l, run[i].db);
    }
  }

  lemma InitHasInv(s: State)
    requires Init(s)
    ensures Inv(s)
  {}

  // ---- where rows come from ----------------------------------------------

  /** The row is there by a decision of other code, or is the rollback of an expired row. */
  predicate FromOther(l: Label, id: string, r: Row) {
    (l.Decide? && id == l.id && r == FreshRow(l.action, l.now)) || r.action.kind == RollbackAction
  }

  /** Rows that were there keep their decision; the others are new. */
  predicate Grows(t: Table, t': Table) {
    forall id :: id in t ==> id in t' && t'[id].action == t[id].action && t'[id].key == t[id].key
  }

  lemma EnqueueGrows(t: Table, id: string, a: NewAction, now: nat)
    ensures Grows(t, Enqueue(t, id, a, now))
    ensures forall x :: x in Enqueue(t, id, a, now) && x !in t ==> x == id && Enqueue(t, id, a, now)[x] == FreshRow(a, now)
  {
    hide KeyOf, FreshRow, HasKey;
  }

  lemma HandleGrows(s: State, e: Env, s': State)
    requires Inv(s) && Next(s, Handle(e), s')
    ensures Grows(s.world.table, s'.world.table)
    ensures forall id :: id in s'.world.table && id !in s.world.table ==> s'.world.table[id].action.kind == RollbackAction
  {
    hide Coherent, KeyOf, Rooted, BuildRequest, Speaks, OutcomeOf, Enqueue;
    var c, w := s.control.queue[0], s.world;
    CurrentIsCoherent(w.table, c);
    OutcomeKeeps(w, c, e);
    var o := OutcomeOf(w, c, e);
    if o.spawn.Some? {
      SpawnIsRollback(w, c, e);
      EnqueueGrows(w.table[c.id := o.row], e.newId, o.spawn.value, e.finish);
    }
  }

  lemma OtherGrows(s: State, l: Label, s': State)
    requires Inv(s) && Next(s, l, s')
    ensures Grows(s.world.table, s'.world.table)
    ensures forall id :: id in s'.world.table && id !in s.world.table ==> FromOther(l, id, s'.world.table[id])
  {
    hide Inv, Enqueue, Selected, FreshRow;
    match l
    case Decide(id, a, now) => EnqueueGrows(s.world.table, id, a, now);
    case Handle(e) => HandleGrows(s, e, s');
    case _ =>
  }

  /** A rollback is neither a fast-loop type nor a scaling action, and has no separator. */
  lemma RollbackType()
    ensures !LoopType(TypeName(RollbackAction)) && !IsScale(RollbackAction)
  {
    assert "RollbackAction"[0] != "SetPoolTarget"[0];
  }

  lemma LoopTypesDoNotScale(kind: ActionType)
    requires LoopType(TypeName(kind))
    ensures !IsScale(kind)
  {
    assert "ScaleNodeGroupUp"[1] == 'c' == "ScaleNodeGroupDown"[1];
    assert "SetPoolTarget"[1] == "SetBurstPolicy"[1] == "SetPlacementPreference"[1] == 'e';
  }

  /** The row is the fresh row of the `j`th action that a run of a loop planned. */
  predicate FromPlan(actions: seq<NewAction>, draws: seq<Draw>, id: string, r: Row, j: nat) {
    j < |actions| && j < |draws| && r == FreshRow(actions[j], draws[j].now) && id == draws[j].id
  }

  lemma LoopGrows(t: Table, actions: seq<NewAction>, draws: seq<Draw>)
    requires |actions| <= |draws|
    ensures Grows(t, Inserted(t, actions, draws))
    ensures forall id :: id in Inserted(t, actions, draws) && id !in t ==> exists j: nat :: FromPlan(actions, draws, id, Inserted(t, actions, draws)[id], j)
  {
    hide KeyOf, FreshRow, EnqueueFirst;
    var calls, t' := Calls(actions, draws), Inserted(t, actions, draws);
    RowsComeFromCalls(t, calls, |actions|);
    forall id | id in t' && id !in t
      ensures exists j: nat :: FromPlan(actions, draws, id, t'[id], j)
    {
      assert WrittenBy(calls, |actions|, id, t'[id]);
      var j: nat :| j < |actions| && j < |calls| && calls[j].id == id && t'[id] == FreshRow(calls[j].action, calls[j].now);
      assert FromPlan(actions, draws, id, t'[id], j);
    }
  }

  lemma PlaneGrows(s: Plane, l: PlaneLabel, s': Plane)
    requires Inv(s.db) && PlaneNext(s, l, s')
    ensures Grows(s.db.world.table, s'.db.world.table)
  {
    hide Inv, Next, FullPlan, PlanOf, EnqueueFirst, Grows;
    match l
    case Fast(x, draws) => LoopGrows(s.db.world.table, FullPlan(x, s.intents).actions, draws);
    case Slow(r) => LoopGrows(s.db.world.table, PlanOf(r), r.draws);
    case Other(step) => OtherGrows(s.db, step, s'.db);
  }

  // ---- rows keep their decision, whatever happens ------------------------

  lemma InsertionSettles(s: State, calls: seq<Call>)
    requires Inv(s)
    ensures Settles(s.world, WithTable(s, EnqueueFirst(s.world.table, calls, |calls|)).world)
  {
    hide Inv, EnqueueFirst, WrittenBy, IsTerminal;
    RowsComeFromCalls(s.world.table, calls, |calls|);
  }

  lemma PlaneNextSettles(s: Plane, l: PlaneLabel, s': Plane)
    requires Inv(s.db) && PlaneNext(s, l, s')
    ensures Settles(s.db.world, s'.db.world)
  {
    hide Inv, Next, Settles, FullPlan, PlanOf, EnqueueFirst;
    match l
    case Fast(x, draws) => InsertionSettles(s.db, Calls(FullPlan(x, s.intents).actions, draws));
    case Slow(r) => InsertionSettles(s.db, Calls(PlanOf(r), r.draws));
    case Other(step) => NextSettles(s.db, step, s'.db);
  }

  lemma {:induction false} PlaneRunSettles(run: seq<Plane>, labels: seq<PlaneLabel>, i: nat, j: nat)
    requires IsPlaneRun(run, labels) && i <= j < |run|
    ensures Settles(run[i].db.world, run[j].db.world)
    decreases j
  {
    hide PlaneNext, Inv, Settles, Init;
    if i == j {
      SettlesReflexive(run[i].db.world);
    } else {
      PlaneRunSettles(run, labels, i, j - 1);
      PlaneInvHolds(run, labels, j - 1);
      PlaneNextSettles(run[j - 1], labels[j - 1], run[j]);
      SettlesTransitive(run[i].db.world, run[j - 1].db.world, run[j].db.world);
    }
  }

  /** In every run of the whole control plane a row keeps its decision, a terminal row never changes, and no key is sent again once its row is terminal or stores an operation id. */
  lemma RowsSettle(run: seq<Plane>, labels: seq<PlaneLabel>, i: nat, j: nat, id: string)
    requires IsPlaneRun(run, labels) && i <= j < |run| && id in run[i].db.world.table
    ensures id in run[j].db.world.table
    ensures var r, r' := run[i].db.world.table[id], run[j].db.world.table[id];
            && r'.action == r.action && r'.key == r.key
            && (IsTerminal(r.status) ==> r' == r)
            && (r.operationId.Some? ==> r'.operationId == r.operationId)
            && (IsTerminal(r.status) || r.operationId.Some? ==>
                  forall k :: |run[i].db.world.log| <= k < |run[j].db.world.log| ==> run[j].db.world.log[k].key != r.key)
  {
    hide IsPlaneRun, IsTerminal;
    PlaneRunSettles(run, labels, i, j);
    assert RowSettles(run[i].db.world, run[j].db.world, id);
  }

  // ---- the slow loop's rate limit ----------------------------------------

  lemma NextKeepsScaleRows(s: Plane, l: PlaneLabel, s': Plane)
    requires Inv(s.db) && PlaneNext(s, l, s') && LeavesScaling(l) && ScaleRows(s.db.world.table)
    ensures ScaleRows(s'.db.world.table)
  {
    hide Inv, Next, FullPlan, PlanOf, EnqueueFirst, ScaleRows, LoopType, TypeName, IsScale, FreshRow, KeyOf;
    var t, t' := s.db.world.table, s'.db.world.table;
    PlaneGrows(s, l, s');
    match l
    case Slow(r) =>
      KeysOfInv(s.db);
      RunKeepsScaleRows(t, r);
    case Fast(x, draws) =>
      LoopGrows(t, FullPlan(x, s.intents).actions, draws);
      forall id | id in t' && id !in t
        ensures !IsScale(t'[id].action.kind)
      {
        var j: nat :| FromPlan(FullPlan(x, s.intents).actions, draws, id, t'[id], j);
        var k := PlannedAction(x, s.intents, j);
        FreshRowAction(FullPlan(x, s.intents).actions[j], draws[j].now);
        LoopTypesDoNotScale(t'[id].action.kind);
      }
      OthersKeepScaleRows(t, t');
    case Other(step) =>
      OtherGrows(s.db, step, s'.db);
      RollbackType();
      forall id | id in t' && id !in t
        ensures !IsScale(t'[id].action.kind)
      {
        if step.Decide? {
          FreshRowAction(step.action, step.now);
        }
      }
      OthersKeepScaleRows(t, t');
  }

  lemma FreshRowAction(a: NewAction, now: nat)
    ensures FreshRow(a, now).action == a.(payload := Canonical(a.payload), rollback := CanonicalOption(a.rollback))
    ensures FreshRow(a, now).key == KeyOf(a)
  {
    hide KeyOf;
  }

  lemma {:induction false} ScaleRowsHold(run: seq<Plane>, labels: seq<PlaneLabel>, i: nat)
    requires IsPlaneRun(run, labels) && i < |run| && forall k :: 0 <= k < i ==> LeavesScaling(labels[k])
    ensures ScaleRows(run[i].db.world.table)
  {
    hide PlaneNext, Inv, ScaleRow;
    if i > 0 {
      ScaleRowsHold(run, labels, i - 1);
      PlaneInvHolds(run, labels, i - 1);
      NextKeepsScaleRows(run[i - 1], labels[i - 1], run[i]);
    }
  }

  /**
    However often the slow loop is triggered, and whatever else happens, a node group never has more
    rows of one kind, decided from t1 to t2, than floor(t2/120) - floor(t1/120) + 1.
   */
  lemma ScalingIsRateLimited(run: seq<Plane>, labels: seq<PlaneLabel>, i: nat, kind: ActionType, name: string, t1: nat, t2: nat)
    requires IsPlaneRun(run, labels) && i < |run| && forall k :: 0 <= k < i ==> LeavesScaling(labels[k])
    requires IsScale(kind) && t1 <= t2
    ensures |ScalesIn(run[i].db.world.table, kind, name, t1 / SLOW_LOOP_SECONDS, t2 / SLOW_LOOP_SECONDS)|
            <= t2 / SLOW_LOOP_SECONDS - t1 / SLOW_LOOP_SECONDS + 1
  {
    hide Inv, ScaleRows, ScalesIn, IsPlaneRun;
    PlaneInvHolds(run, labels, i);
    ScaleRowsHold(run, labels, i);
    KeysOfInv(run[i].db);
    AtMostOnePerWindow(run[i].db.world.table, kind, name, t1 / SLOW_LOOP_SECONDS, t2 / SLOW_LOOP_SECONDS);
  }

  // ---- no stored payload aborts a cycle ----------------------------------

  /** Every row's payload yields a request, or the row's type is unsupported. */
  predicate NoneMalformed(t: Table) {
    forall id :: id in t ==> !BuildRequest(id, t[id].action.kind, t[id].action.payload).Malformed?
  }

  lemma RollbackIsWellFormed(id: string, payload: Json)
    ensures BuildRequest(id, RollbackAction, payload).Request?
  {
    hide NameAt;
  }

  predicate RowMalformed(t: Table, id: string)
    requires id in t
  {
    BuildRequest(id, t[id].action.kind, t[id].action.payload).Malformed?
  }

  lemma NewRowsDecide(t: Table, t': Table)
    requires NoneMalformed(t) && Grows(t, t')
    requires forall id :: id in t' && id !in t ==> !RowMalformed(t', id)
    ensures NoneMalformed(t')
  {
    hide BuildRequest;
    forall id | id in t'
      ensures !BuildRequest(id, t'[id].action.kind, t'[id].action.payload).Malformed?
    {
      assert id !in t ==> !RowMalformed(t', id);
    }
  }

  lemma NextKeepsNoneMalformed(s: Plane, l: PlaneLabel, s': Plane)
    requires Inv(s.db) && PlaneNext(s, l, s') && Named(l) && NoneMalformed(s.db.world.table)
    ensures NoneMalformed(s'.db.world.table)
  {
    hide Inv, Next, FullPlan, PlanOf, EnqueueFirst, BuildRequest, NamesPresent, FreshRow, Blank, KeyOf, NoneMalformed, Grows, LoopType, IsScale;
    var t, t' := s.db.world.table, s'.db.world.table;
    PlaneGrows(s, l, s');
    match l
    case Fast(x, draws) =>
      LoopGrows(t, FullPlan(x, s.intents).actions, draws);
      forall id | id in t' && id !in t
        ensures !RowMalformed(t', id)
      {
        var j: nat :| FromPlan(FullPlan(x, s.intents).actions, draws, id, t'[id], j);
        FreshRowAction(FullPlan(x, s.intents).actions[j], draws[j].now);
        RunIsDispatchable(x, s.intents, j, t'[id].action.payload, id);
      }
      NewRowsDecide(t, t');
    case Slow(r) =>
      LoopGrows(t, PlanOf(r), r.draws);
      forall id | id in t' && id !in t
        ensures !RowMalformed(t', id)
      {
        var j: nat :| FromPlan(PlanOf(r), r.draws, id, t'[id], j);
        FreshRowAction(PlanOf(r)[j], r.draws[j].now);
        SlowIsDispatchable(r, j, t'[id].action.payload, id);
      }
      NewRowsDecide(t, t');
    case Other(step) =>
      OtherGrows(s.db, step, s'.db);
      forall id | id in t' && id !in t
        ensures !RowMalformed(t', id)
      {
        RollbackIsWellFormed(id, t'[id].action.payload);
        if step.Decide? {
          FreshRowAction(step.action, step.now);
        }
      }
      NewRowsDecide(t, t');
  }

  lemma SlowIsDispatchable(r: Run, j: nat, stored: Json, id: string)
    requires (forall i :: 0 <= i < |r.groups| ==> !Blank(r.groups[i].nodeGroup)) && j < |PlanOf(r)|
    requires ReadBack(stored, PlanOf(r)[j].payload)
    ensures BuildRequest(id, PlanOf(r)[j].kind, stored).Request?
  {
    hide BuildRequest, Blank, PlanOf, SlowWindow, ReadBack;
    var m := PlanOfScales(r, j);
    ScaleDispatchable(PlanOf(r)[j].kind, r.groups[m].nodeGroup, stored, id);
  }

  lemma {:induction false} NoneMalformedHolds(run: seq<Plane>, labels: seq<PlaneLabel>, i: nat)
    requires IsPlaneRun(run, labels) && i < |run| && forall k :: 0 <= k < i ==> Named(labels[k])
    ensures NoneMalformed(run[i].db.world.table)
  {
    hide PlaneNext, Inv, BuildRequest, Named;
    if i > 0 {
      NoneMalformedHolds(run, labels, i - 1);
      PlaneInvHolds(run, labels, i - 1);
      NextKeepsNoneMalformed(run[i - 1], labels[i - 1], run[i]);
    }
  }

  /** When the names that requests need are given, no stored payload can abort a dispatch cycle: only a lost write can. */
  lemma OnlyLostWritesAbort(run: seq<Plane>, labels: seq<PlaneLabel>, i: nat, c: Candidate, e: Env)
    requires IsPlaneRun(run, labels) && i < |run| && forall k :: 0 <= k < i ==> Named(labels[k])
    requires Current(run[i].db.world.table, c) && e.newId !in run[i].db.world.table && e.writes >= 3
    ensures OutcomeOf(run[i].db.world, c, e).goOn
  {
    hide IsPlaneRun, BuildRequest, Named;
    NoneMalformedHolds(run, labels, i);
    ConsiderAborts(run[i].db.world, c, e);
  }

  lemma ConsiderAborts(w: World, c: Candidate, e: Env)
    requires !BuildRequest(c.id, c.row.action.kind, c.row.action.payload).Malformed?
    requires e.newId !in w.table && e.writes >= 3
    ensures OutcomeOf(w, c, e).goOn
  {
    hide BuildRequest, Answer, Owned, Refused, Concluded, MarkTerminal, SetStatus, Retry, RollbackOf, HasKey, BackoffDelay;
  }

  // ---- keys stand for decisions ------------------------------------------

  lemma NextStaysPlaneKeyed(s: Plane, l: PlaneLabel, s': Plane)
    requires Inv(s.db) && PlaneNext(s, l, s') && Separable(l) && AllKeyed(s.db.world.table)
    ensures AllKeyed(s'.db.world.table)
  {
    hide Inv, Next, FullPlan, PlanOf, EnqueueFirst, SoundRequest, Keyed, PlainNames, SoundLabel;
    match l
    case Fast(x, draws) => RunStaysKeyed(x, s.intents, s.db.world.table, draws);
    case Slow(r) =>
      var calls := Calls(PlanOf(r), r.draws);
      forall k | 0 <= k < |calls|
        ensures SoundRequest(calls[k].action)
      {
        SlowActionIsSound(r, k);
      }
      StaysKeyed(s.db.world.table, calls, |calls|);
    case Other(step) => NextStaysKeyed(s.db, step, s'.db);
  }

  lemma SlowActionIsSound(r: Run, j: nat)
    requires (forall i :: 0 <= i < |r.groups| ==> '|' !in r.groups[i].nodeGroup) && j < |PlanOf(r)|
    ensures SoundRequest(PlanOf(r)[j])
  {
    hide PlanOf, SlowWindow;
    var m := PlanOfScales(r, j);
    ScalePayloadWellFormed(r.groups[m].nodeGroup);
  }

  lemma ScalePayloadWellFormed(name: string)
    ensures WellFormed(ScalePayload(name))
  {
    assert "node_group"[0] != "delta_units"[0];
  }

  lemma {:induction false} AllKeyedHolds(run: seq<Plane>, labels: seq<PlaneLabel>, i: nat)
    requires IsPlaneRun(run, labels) && i < |run| && forall k :: 0 <= k < i ==> Separable(labels[k])
    ensures AllKeyed(run[i].db.world.table)
  {
    hide PlaneNext, Inv, Keyed, Separable;
    if i > 0 {
      AllKeyedHolds(run, labels, i - 1);
      PlaneInvHolds(run, labels, i - 1);
      NextStaysPlaneKeyed(run[i - 1], labels[i - 1], run[i]);
    }
  }

  /** In every run whose names hold no separator, the runtime carries out each decision at most once, as the request of its row. */
  lemma EachDecisionAtMostOnce(run: seq<Plane>, labels: seq<PlaneLabel>, i: nat, k: nat, l: nat) returns (x: string, y: string)
    requires IsPlaneRun(run, labels) && i < |run| && forall n :: 0 <= n < i ==> Separable(labels[n])
    requires k < |run[i].db.world.effects| && l < |run[i].db.world.effects|
    ensures var t, e, f := run[i].db.world.table, run[i].db.world.effects[k], run[i].db.world.effects[l];
            && x in t && BuildRequest(x, t[x].action.kind, t[x].action.payload) == Request(e.path, e.body)
            && y in t && BuildRequest(y, t[y].action.kind, t[y].action.payload) == Request(f.path, f.body)
            && (DecisionOf(t[x].action) == DecisionOf(t[y].action) ==> k == l)
  {
    hide IsPlaneRun, BuildRequest, Coherent, KeyOf, Separable;
    PlaneInvHolds(run, labels, i);
    AllKeyedHolds(run, labels, i);
    var w := run[i].db.world;
    x := EffectOwner(w, k);
    y := EffectOwner(w, l);
    assert Keyed(w.table[x]) && Keyed(w.table[y]);
    KeyIffDecision(w.table[x].action, w.table[y].action);
  }

  lemma EffectOwner(w: World, k: nat) returns (id: string)
    requires k < |w.effects| && Asked(w.log, w.effects[k])
    requires forall j :: 0 <= j < |w.log| ==> Rooted(w.table, w.log[j])
    ensures id in w.table && w.table[id].key == w.effects[k].key
    ensures BuildRequest(id, w.table[id].action.kind, w.table[id].action.payload) == Request(w.effects[k].path, w.effects[k].body)
  {
    hide BuildRequest;
    var j :| 0 <= j < |w.log| && w.log[j].key == w.effects[k].key && w.log[j].path == w.effects[k].path && w.log[j].body == w.effects[k].body;
    assert Rooted(w.table, w.log[j]);
    id := w.log[j].actionId;
  }

  // ---- which writes of the fast loop get rows of their own ---------------

  lemma NextKeepsRowsNotNewer(s: Plane, l: PlaneLabel, s': Plane)
    requires Inv(s.db) && PlaneNext(s, l, s') && LeavesFastTypes(l) && RowsNotNewer(s.db.world.table, s.intents)
    ensures RowsNotNewer(s'.db.world.table, s'.intents)
  {
    hide Inv, Next, FullPlan, PlanOf, EnqueueFirst, RowsNotNewer, LoopType, TypeName, FreshRow, IsScale, KeyOf;
    var t, t' := s.db.world.table, s'.db.world.table;
    PlaneGrows(s, l, s');
    match l
    case Fast(x, draws) => RunKeepsRows(x, s.intents, t, draws);
    case Slow(r) =>
      LoopGrows(t, PlanOf(r), r.draws);
      forall id | id in t' && id !in t
        ensures !LoopType(TypeName(t'[id].action.kind))
      {
        var j: nat :| FromPlan(PlanOf(r), r.draws, id, t'[id], j);
        SlowRowIsNoFastRow(r, j, t'[id], r.draws[j].now);
      }
      OthersKeepRows(t, t', s.intents);
    case Other(step) =>
      OtherGrows(s.db, step, s'.db);
      RollbackType();
      forall id | id in t' && id !in t
        ensures !LoopType(TypeName(t'[id].action.kind))
      {
        if step.Decide? {
          FreshRowAction(step.action, step.now);
        }
      }
      OthersKeepRows(t, t', s.intents);
  }

  lemma SlowRowIsNoFastRow(r: Run, j: nat, row: Row, now: nat)
    requires j < |PlanOf(r)| && row == FreshRow(PlanOf(r)[j], now)
    ensures !LoopType(TypeName(row.action.kind))
  {
    hide PlanOf, LoopType, TypeName, IsScale, FreshRow;
    FreshRowAction(PlanOf(r)[j], now);
    var m := PlanOfScales(r, j);
    if LoopType(TypeName(row.action.kind)) {
      LoopTypesDoNotScale(row.action.kind);
    }
  }

  lemma {:induction false} RowsNotNewerHolds(run: seq<Plane>, labels: seq<PlaneLabel>, i: nat)
    requires IsPlaneRun(run, labels) && i < |run| && forall k :: 0 <= k < i ==> LeavesFastTypes(labels[k])
    ensures RowsNotNewer(run[i].db.world.table, run[i].intents)
  {
    hide PlaneNext, Inv, LeavesFastTypes;
    if i > 0 {
      RowsNotNewerHolds(run, labels, i - 1);
      PlaneInvHolds(run, labels, i - 1);
      NextKeepsRowsNotNewer(run[i - 1], labels[i - 1], run[i]);
    }
  }

  /** The action that the `k`th step, a fast run, plans at position `j`. */
  ghost predicate Planned(run: seq<Plane>, labels: seq<PlaneLabel>, k: nat, j: nat, d: Decision) {
    k < |labels| && k < |run| && labels[k].Fast? &&
    var actions := FullPlan(labels[k].x, run[k].intents).actions;
    j < |actions| && DecisionOf(actions[j]) == d
  }

  /** A fast run among the first `i` steps planned the same decision. */
  ghost predicate PlannedBefore(run: seq<Plane>, labels: seq<PlaneLabel>, i: nat, d: Decision) {
    exists k: nat, j: nat :: k < i && Planned(run, labels, k, j, d)
  }

  lemma {:induction false} FastRowsWerePlanned(run: seq<Plane>, labels: seq<PlaneLabel>, i: nat, id: string)
    requires IsPlaneRun(run, labels) && i < |run| && forall k :: 0 <= k < i ==> LeavesFastTypes(labels[k]) && Separable(labels[k])
    requires id in run[i].db.world.table && LoopType(TypeName(run[i].db.world.table[id].action.kind))
    ensures PlannedBefore(run, labels, i, DecisionOf(run[i].db.world.table[id].action))
  {
    hide PlaneNext, Inv, LoopType, TypeName, FullPlan, Separable;
    if i > 0 {
      PlaneInvHolds(run, labels, i - 1);
      PlaneGrows(run[i - 1], labels[i - 1], run[i]);
      if id in run[i - 1].db.world.table {
        FastRowsWerePlanned(run, labels, i - 1, id);
        var d := DecisionOf(run[i].db.world.table[id].action);
        var k: nat, j: nat :| k < i - 1 && Planned(run, labels, k, j, d);
        assert k < i;
      } else {
        var j := NewFastRowWasPlanned(run[i - 1], labels[i - 1], run[i], id);
        assert Planned(run, labels, i - 1, j, DecisionOf(run[i].db.world.table[id].action));
      }
    }
  }

  lemma NewFastRowWasPlanned(s: Plane, l: PlaneLabel, s': Plane, id: string) returns (j: nat)
    requires Inv(s.db) && PlaneNext(s, l, s') && LeavesFastTypes(l) && Separable(l)
    requires id in s'.db.world.table && id !in s.db.world.table && LoopType(TypeName(s'.db.world.table[id].action.kind))
    ensures l.Fast? && j < |FullPlan(l.x, s.intents).actions|
    ensures DecisionOf(FullPlan(l.x, s.intents).actions[j]) == DecisionOf(s'.db.world.table[id].action)
  {
    hide Inv, Next, FullPlan, PlanOf, EnqueueFirst, LoopType, TypeName, FreshRow, IsScale, KeyOf, PlainNames;
    var t, r := s.db.world.table, s'.db.world.table[id];
    match l
    case Fast(x, draws) =>
      LoopGrows(t, FullPlan(x, s.intents).actions, draws);
      j :| FromPlan(FullPlan(x, s.intents).actions, draws, id, r, j);
      FreshRowAction(FullPlan(x, s.intents).actions[j], draws[j].now);
      var k := PlannedAction(x, s.intents, j);
      CanonicalIdempotent(FullPlan(x, s.intents).actions[j].payload);
    case Slow(run) =>
      LoopGrows(t, PlanOf(run), run.draws);
      var m: nat :| FromPlan(PlanOf(run), run.draws, id, r, m);
      SlowRowIsNoFastRow(run, m, r, run.draws[m].now);
      assert false;
    case Other(step) =>
      OtherGrows(s.db, step, s'.db);
      RollbackType();
      if step.Decide? {
        FreshRowAction(step.action, step.now);
      }
      assert false;
  }

  lemma {:induction false} PlannedKeyStays(run: seq<Plane>, labels: seq<PlaneLabel>, i: nat, k: nat, j: nat)
    requires IsPlaneRun(run, labels) && k < i < |run| && labels[k].Fast? && NewDraws(run[k], labels[k])
    requires j < |FullPlan(labels[k].x, run[k].intents).actions|
    ensures HasKey(run[i].db.world.table, KeyOf(FullPlan(labels[k].x, run[k].intents).actions[j]))
  {
    hide Inv, FullPlan, KeyOf, NewIds, Next;
    var actions := FullPlan(labels[k].x, run[k].intents).actions;
    assert PlaneNext(run[i - 1], labels[i - 1], run[i]);
    PlaneInvHolds(run, labels, i - 1);
    if k == i - 1 {
      var t := run[k].db.world.table;
      var calls := Calls(actions, labels[k].draws);
      KeysOfInv(run[k].db);
      EveryCallHasItsKey(t, calls, |actions|);
      assert calls[j].action == actions[j];
    } else {
      PlannedKeyStays(run, labels, i - 1, k, j);
      PlaneGrows(run[i - 1], labels[i - 1], run[i]);
      var t, t' := run[i - 1].db.world.table, run[i].db.world.table;
      var id :| id in t && t[id].key == KeyOf(actions[j]);
      assert id in t' && t'[id].key == KeyOf(actions[j]);
    }
  }

  /**
    An action of a fast run gets a row of its own exactly when no earlier fast run planned the same
    decision: the same workload, type and payload in the same 5-second window.
   */
  lemma FreshRowIff(run: seq<Plane>, labels: seq<PlaneLabel>, i: nat, j: nat)
    requires IsPlaneRun(run, labels) && i < |labels| && labels[i].Fast?
    requires forall k :: 0 <= k <= i ==> LeavesFastTypes(labels[k]) && Separable(labels[k]) && NewDraws(run[k], labels[k])
    requires j < |FullPlan(labels[i].x, run[i].intents).actions|
    ensures var a := FullPlan(labels[i].x, run[i].intents).actions[j];
            NewRow(run[i].db.world.table, run[i + 1].db.world.table, KeyOf(a)) <==> !PlannedBefore(run, labels, i, DecisionOf(a))
  {
    hide Inv, FullPlan, KeyOf, NewIds, Inserted, Init, Next, DecisionOf, Separable, LeavesFastTypes;
    var a := FullPlan(labels[i].x, run[i].intents).actions[j];
    var t := run[i].db.world.table;
    PlaneInvHolds(run, labels, i);
    KeysOfInv(run[i].db);
    assert PlaneNext(run[i], labels[i], run[i + 1]) && NewDraws(run[i], labels[i]);
    FreshIffKeyFree(t, FullPlan(labels[i].x, run[i].intents).actions, labels[i].draws, j);
    PlannedIsSound(run, labels, i, j);
    if HasKey(t, KeyOf(a)) {
      var id :| id in t && t[id].key == KeyOf(a);
      KeyTakenByPlanned(run, labels, i, id, a);
    }
    if PlannedBefore(run, labels, i, DecisionOf(a)) {
      var k: nat, m: nat :| k < i && Planned(run, labels, k, m, DecisionOf(a));
      PlannedIsSound(run, labels, k, m);
      KeyIffDecision(FullPlan(labels[k].x, run[k].intents).actions[m], a);
      PlannedKeyStays(run, labels, i, k, m);
    }
  }

  lemma PlannedIsSound(run: seq<Plane>, labels: seq<PlaneLabel>, i: nat, j: nat)
    requires IsPlaneRun(run, labels) && i < |labels| && labels[i].Fast? && Separable(labels[i])
    requires j < |FullPlan(labels[i].x, run[i].intents).actions|
    ensures Sound(FullPlan(labels[i].x, run[i].intents).actions[j]) && LoopType(TypeName(FullPlan(labels[i].x, run[i].intents).actions[j].kind))
  {
    hide FullPlan, LoopType, TypeName, Sound, PlainNames, Init;
    assert PlaneNext(run[i], labels[i], run[i + 1]);
    var k := PlannedAction(labels[i].x, run[i].intents, j);
  }

  lemma KeyTakenByPlanned(run: seq<Plane>, labels: seq<PlaneLabel>, i: nat, id: string, a: NewAction)
    requires IsPlaneRun(run, labels) && i < |run|
    requires forall k :: 0 <= k < i ==> LeavesFastTypes(labels[k]) && Separable(labels[k])
    requires id in run[i].db.world.table && run[i].db.world.table[id].key == KeyOf(a) && Sound(a) && LoopType(TypeName(a.kind))
    ensures PlannedBefore(run, labels, i, DecisionOf(a))
  {
    hide IsPlaneRun, KeyOf, LoopType, Separable, LeavesFastTypes, Sound, PlannedBefore, TypeName;
    var r := run[i].db.world.table[id];
    AllKeyedHolds(run, labels, i);
    assert Keyed(r);
    KeyIffDecision(r.action, a);
    FastRowsWerePlanned(run, labels, i, id);
  }

  /** So with cooldowns of at least 5 s in a run, whatever happened before, each of its actions gets a row that was not there before. */
  lemma EveryFastRunGetsFreshRows(run: seq<Plane>, labels: seq<PlaneLabel>, i: nat, j: nat)
    requires IsPlaneRun(run, labels) && i < |labels| && labels[i].Fast? && CooledDown(labels[i].x) && NewDraws(run[i], labels[i])
    requires forall k :: 0 <= k <= i ==> LeavesFastTypes(labels[k]) && Separable(labels[k])
    requires j < |FullPlan(labels[i].x, run[i].intents).actions|
    ensures NewRow(run[i].db.world.table, run[i + 1].db.world.table, KeyOf(FullPlan(labels[i].x, run[i].intents).actions[j]))
  {
    hide Inv, AllKeyed, RowsNotNewer, FullPlan, PlainNames, CooledDown, NewIds, Inserted, KeyOf, Init, Next, LeavesFastTypes;
    PlaneInvHolds(run, labels, i);
    KeysOfInv(run[i].db);
    AllKeyedHolds(run, labels, i);
    RowsNotNewerHolds(run, labels, i);
    assert PlaneNext(run[i], labels[i], run[i + 1]) && Separable(labels[i]);
    var x, t := labels[i].x, run[i].db.world.table;
    CooldownLeavesKeysFree(x, run[i].intents, t, j);
    FreshIffKeyFree(t, FullPlan(x, run[i].intents).actions, labels[i].draws, j);
  }
}
