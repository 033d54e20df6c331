/**
  Every intent that the fast loop writes gets rows of its own, and every row the loops make can be
  dispatched.
 */
module FreshRows {
  import opened Wrappers
  import opened Json
  import opened JsonText
  import opened Vocabulary
  import opened IdempotencyKey
  import opened ActionTable
  import opened Requests
  import opened FastLoopMath
  import opened Database
  import opened FastLoop
  import opened FastLoopRuns

  /** The action types that only the fast loop enqueues. */
  predicate LoopType(name: string) {
    name == TypeName(SetPoolTarget) || name == TypeName(SetBurstPolicy) || name == TypeName(SetPlacementPreference)
  }

  /** No row of the fast loop is from a later window than the last write of its workload's intent. */
  predicate RowsNotNewer(t: Table, intents: map<Name, Intent>) {
    forall id :: id in t && LoopType(TypeName(t[id].action.kind)) ==>
      var k := (t[id].action.tenant, t[id].action.workload);
      k in intents && t[id].action.window <= Window(intents[k].updatedAt)
  }

  predicate AllKeyed(t: Table) {
    forall id :: id in t ==> Keyed(t[id])
  }

  /** Observed names hold no separator. */
  predicate PlainNames(x: Inputs) {
    forall i :: 0 <= i < |x.observations| ==> '|' !in x.observations[i].tenant && '|' !in x.observations[i].workload
  }

  /** Every policy has a cooldown of at least one window. */
  predicate CooledDown(x: Inputs) {
    forall k :: k in x.policies ==> x.policies[k].cooldownSeconds >= FAST_LOOP_SECONDS
  }

  lemma PayloadsWellFormed(p: Policy, i: Intent, container: string)
    ensures WellFormed(PoolPayload(p, i)) && WellFormed(BurstPayload(container, i)) && WellFormed(PlacementPayload(i))
  {
    assert "function_id"[0] != "min_instances"[0] && "min_instances"[1] != "max_instances"[1];
    assert |"container_id"| == 12 && |"memory_limit_mb"| == 15 && |"cpu_limit_percent"| == 17;
    PlacementWellFormed(i);
  }

  lemma PlacementWellFormed(i: Intent)
    ensures WellFormed(PlacementPayload(i))
  {
    assert |"tenant_id"| == 9 && |"workload_id"| == 11 && |"node_group"| == 10 && |"anti_affinity"| == 13;
  }

  lemma FastTypes()
    ensures forall kind :: kind == SetPoolTarget || kind == SetBurstPolicy || kind == SetPlacementPreference ==> LoopType(TypeName(kind)) && '|' !in TypeName(kind)
  {}

  lemma ActionFacts(p: Policy, i: Intent, window: int, a: NewAction)
    requires a in ActionsFor(p, i, window)
    ensures a.tenant == i.tenant && a.workload == i.workload && a.window == window && a.rollback.None?
    ensures LoopType(TypeName(a.kind)) && '|' !in TypeName(a.kind) && WellFormed(a.payload)
  {
    hide PoolPayload, BurstPayload, PlacementPayload, LoopType, TypeName;
    FastTypes();
    var j :| 0 <= j < |ActionsFor(p, i, window)| && ActionsFor(p, i, window)[j] == a;
    BurstActionsAre(p, i, window, |p.targetContainerIds|);
    var container := if 0 < j <= |p.targetContainerIds| then p.targetContainerIds[j - 1] else "";
    PayloadsWellFormed(p, i, container);
  }

  lemma WindowsDiffer(u: nat, now: nat)
    requires now >= u + FAST_LOOP_SECONDS
    ensures Window(u) < Window(now)
  {
  }

  lemma WindowMonotone(u: nat, now: nat)
    requires u <= now
    ensures Window(u) <= Window(now)
  {
  }

  /** A planned action, and the workload whose intent was written for it. */
  lemma PlannedAction(x: Inputs, intents: map<Name, Intent>, j: nat) returns (k: Name)
    requires DistinctNames(x.observations) && j < |FullPlan(x, intents).actions|
    ensures var a := FullPlan(x, intents).actions[j];
            && k == (a.tenant, a.workload) && LoopType(TypeName(a.kind)) && a.window == Window(x.now)
            && (PlainNames(x) ==> SoundRequest(a))
            && k in FullPlan(x, intents).intents && FullPlan(x, intents).intents[k].updatedAt == x.now
            && k in x.policies && (k in intents ==> x.now >= intents[k].updatedAt + x.policies[k].cooldownSeconds)
  {
    hide ActionsFor, NewIntent, Window, Skips, LoopType, TypeName;
    var n := |x.observations|;
    var m := ActionsComeFromWrites(x, intents, n, j);
    var o := x.observations[m];
    k := NameOf(o);
    NewIntentFacts(x, o);
    ActionFacts(x.policies[k], NewIntent(x, o), Window(x.now), FullPlan(x, intents).actions[j]);
    PlanPerWorkload(x, intents, n, k);
    ObservationAt(x.observations, n, m);
    OverwriteRule(x, k, Lookup(intents, k));
  }

  lemma {:induction false} ObservationAt(os: seq<Observation>, n: nat, m: nat)
    requires DistinctNames(os) && m < n <= |os|
    ensures ObservationOf(os, n, NameOf(os[m])) == Some(os[m])
  {
    if m < n - 1 {
      ObservationAt(os, n - 1, m);
    }
  }

  lemma NoEarlierRow(t: Table, intents: map<Name, Intent>, a: NewAction, now: nat)
    requires AllKeyed(t) && RowsNotNewer(t, intents)
    requires SoundRequest(a) && LoopType(TypeName(a.kind)) && a.window == Window(now)
    requires (a.tenant, a.workload) in intents ==> now >= intents[(a.tenant, a.workload)].updatedAt + FAST_LOOP_SECONDS
    ensures !HasKey(t, KeyOf(a))
  {
    hide KeyOf, LoopType, Window, TypeName, Sound;
    forall id | id in t ensures t[id].key != KeyOf(a) {
      assert Keyed(t[id]);
      KeyIffDecision(t[id].action, a);
      if DecisionOf(t[id].action) == DecisionOf(a) {
        WindowsDiffer(intents[(a.tenant, a.workload)].updatedAt, now);
      }
    }
  }

  /** With cooldowns of at least 5 s no action of a run finds its key taken. */
  lemma CooldownLeavesKeysFree(x: Inputs, intents: map<Name, Intent>, t: Table, j: nat)
    requires DistinctNames(x.observations) && PlainNames(x) && CooledDown(x) && AllKeyed(t) && RowsNotNewer(t, intents)
    requires j < |FullPlan(x, intents).actions|
    ensures !HasKey(t, KeyOf(FullPlan(x, intents).actions[j]))
  {
    hide KeyOf, LoopType, Window, TypeName, FullPlan, Keyed, SoundRequest, RowsNotNewer;
    var k := PlannedAction(x, intents, j);
    NoEarlierRow(t, intents, FullPlan(x, intents).actions[j], x.now);
  }

  /** A row with this key that was not there before. */
  ghost predicate NewRow(t: Table, t': Table, key: Digest) {
    exists id :: id in t' && id !in t && t'[id].key == key
  }

  /** An action gets a row of its own exactly when no row had its key. */
  lemma FreshIffKeyFree(t: Table, actions: seq<NewAction>, draws: seq<Draw>, j: nat)
    requires KeysUnique(t) && |actions| <= |draws| && NewIds(t, Calls(actions, draws)) && j < |actions|
    ensures NewRow(t, Inserted(t, actions, draws), KeyOf(actions[j])) <==> !HasKey(t, KeyOf(actions[j]))
  {
    hide KeyOf, FreshRow;
    var calls := Calls(actions, draws);
    var t' := Inserted(t, actions, draws);
    EveryCallHasItsKey(t, calls, |actions|);
    RowsComeFromCalls(t, calls, |actions|);
    assert calls[j].action == actions[j];
    var id :| id in t' && t'[id].key == KeyOf(actions[j]);
  }

  lemma StaysKeyed(t: Table, calls: seq<Call>, n: nat)
    requires AllKeyed(t) && n <= |calls| && forall k :: 0 <= k < |calls| ==> SoundRequest(calls[k].action)
    ensures AllKeyed(EnqueueFirst(t, calls, n))
  {
    hide Enqueue, Keyed, SoundRequest;
    if n > 0 {
      StaysKeyed(t, calls, n - 1);
      EnqueueStaysKeyed(EnqueueFirst(t, calls, n - 1), calls[n - 1].id, calls[n - 1].action, calls[n - 1].now);
    }
  }

  /** What the freshness of the next run needs is kept by every run. */
  lemma RunKeepsRows(x: Inputs, intents: map<Name, Intent>, t: Table, draws: seq<Draw>)
    requires DistinctNames(x.observations) && RowsNotNewer(t, intents) && |FullPlan(x, intents).actions| <= |draws|
    ensures RowsNotNewer(Inserted(t, FullPlan(x, intents).actions, draws), FullPlan(x, intents).intents)
  {
    hide KeyOf, LoopType, Window, TypeName, FullPlan, EnqueueFirst;
    var plan := FullPlan(x, intents);
    var calls := Calls(plan.actions, draws);
    RowsComeFromCalls(t, calls, |calls|);
    var t' := Inserted(t, plan.actions, draws);
    forall id | id in t' && LoopType(TypeName(t'[id].action.kind))
      ensures var k := (t'[id].action.tenant, t'[id].action.workload);
              k in plan.intents && t'[id].action.window <= Window(plan.intents[k].updatedAt)
    {
      if id in t {
        IntentsGrow(x, intents, (t[id].action.tenant, t[id].action.workload));
        WindowMonotone(intents[(t[id].action.tenant, t[id].action.workload)].updatedAt,
                       plan.intents[(t[id].action.tenant, t[id].action.workload)].updatedAt);
      } else {
        NewRowIsNotNewer(x, intents, calls, id, t'[id]);
      }
    }
  }

  lemma NewRowIsNotNewer(x: Inputs, intents: map<Name, Intent>, calls: seq<Call>, id: string, r: Row)
    requires DistinctNames(x.observations) && |calls| == |FullPlan(x, intents).actions|
    requires forall j :: 0 <= j < |calls| ==> calls[j].action == FullPlan(x, intents).actions[j]
    requires WrittenBy(calls, |calls|, id, r)
    ensures var k, intents' := (r.action.tenant, r.action.workload), FullPlan(x, intents).intents;
            k in intents' && r.action.window <= Window(intents'[k].updatedAt)
  {
    hide KeyOf, LoopType, Window, TypeName, FullPlan, SoundRequest;
    var j: nat :| j < |calls| && calls[j].id == id && r == FreshRow(calls[j].action, calls[j].now);
    var k := PlannedAction(x, intents, j);
  }

  lemma IntentsGrow(x: Inputs, intents: map<Name, Intent>, k: Name)
    requires DistinctNames(x.observations) && k in intents
    ensures k in FullPlan(x, intents).intents
    ensures intents[k].updatedAt <= FullPlan(x, intents).intents[k].updatedAt
  {
    hide PlanAfter, Writes, NewIntent;
    PlanPerWorkload(x, intents, |x.observations|, k);
    if WritesFor(x, |x.observations|, k, Some(intents[k])) {
      OverwriteRule(x, k, Some(intents[k]));
    }
  }

  /** A run's rows are keyed when the names it observes hold no separator. */
  lemma RunStaysKeyed(x: Inputs, intents: map<Name, Intent>, t: Table, draws: seq<Draw>)
    requires DistinctNames(x.observations) && PlainNames(x) && AllKeyed(t) && |FullPlan(x, intents).actions| <= |draws|
    ensures AllKeyed(Inserted(t, FullPlan(x, intents).actions, draws))
  {
    hide KeyOf, LoopType, Window, TypeName, FullPlan, Keyed, SoundRequest, EnqueueFirst;
    var calls := Calls(FullPlan(x, intents).actions, draws);
    forall j | 0 <= j < |calls|
      ensures SoundRequest(calls[j].action)
    {
      var k := PlannedAction(x, intents, j);
    }
    StaysKeyed(t, calls, |calls|);
  }

  /** Whoever changes no decision columns and makes no rows of these types keeps it too. */
  lemma OthersKeepRows(t: Table, t': Table, intents: map<Name, Intent>)
    requires RowsNotNewer(t, intents)
    requires forall id :: id in t' ==> if id in t then t'[id].action == t[id].action else !LoopType(TypeName(t'[id].action.kind))
    ensures RowsNotNewer(t', intents)
  {
    hide LoopType, TypeName, Window;
  }

  // ---- payloads ----------------------------------------------------------

  /** A payload as the dispatcher gets it: any value whose text is the stored text. */
  predicate ReadBack(stored: Json, payload: Json) {
    Print(stored) == Print(Canonical(payload))
  }

  lemma ReadBackGet(stored: Json, payload: Json, i: nat)
    requires ReadBack(stored, payload) && WellFormed(payload) && payload.Obj? && i < |payload.members|
    ensures Get(stored, payload.members[i].key) == Some(Canonical(payload.members[i].value))
  {
    PrintInjective(stored, Canonical(payload));
    FindUnique(payload.members, i);
    GetCanonical(payload, payload.members[i].key);
  }

  /**
    Two writes of a workload make the same placement decision exactly when they prefer the same group
    with the same anti-affinity, whatever their targets are.
   */
  lemma SamePlacementIff(i: Intent, i': Intent)
    ensures Canonical(PlacementPayload(i)) == Canonical(PlacementPayload(i')) <==>
              (i.tenant == i'.tenant && i.workload == i'.workload
               && i.preferredNodeGroup == i'.preferredNodeGroup && i.antiAffinity == i'.antiAffinity)
  {
    hide Canonical, Print;
    PlacementMembers(i);
    PlacementMembers(i');
  }

  lemma PlacementMembers(i: Intent)
    ensures var v := Canonical(PlacementPayload(i));
            && Get(v, "tenant_id") == Some(Str(i.tenant)) && Get(v, "workload_id") == Some(Str(i.workload))
            && Get(v, "node_group") == Some(Str(i.preferredNodeGroup)) && Get(v, "anti_affinity") == Some(Bool(i.antiAffinity))
  {
    hide Canonical, Print, Get;
    var v := PlacementPayload(i);
    PlacementWellFormed(i);
    assert |v.members| == 4;
    ReadBackGet(Canonical(v), v, 0);
    ReadBackGet(Canonical(v), v, 1);
    ReadBackGet(Canonical(v), v, 2);
    ReadBackGet(Canonical(v), v, 3);
    ScalarsCanonical(i.tenant, 0, i.antiAffinity);
    ScalarsCanonical(i.workload, 0, false);
    ScalarsCanonical(i.preferredNodeGroup, 0, false);
  }

  /** A stored pool payload yields a request exactly when the function id is not blank. */
  lemma PoolDispatchable(p: Policy, i: Intent, stored: Json, id: string)
    requires ReadBack(stored, PoolPayload(p, i))
    ensures BuildRequest(id, SetPoolTarget, stored).Request? <==> !Blank(p.runtimeFunctionId)
  {
    hide Blank, Trim, Canonical, Print;
    PayloadsWellFormed(p, i, "");
    var v := PoolPayload(p, i);
    assert |v.members| == 3;
    ReadBackGet(stored, v, 0);
    ReadBackGet(stored, v, 1);
    ReadBackGet(stored, v, 2);
    ScalarsCanonical(p.runtimeFunctionId, i.poolMinReady, false);
    ScalarsCanonical("", i.poolMaxReady, false);
  }

  lemma ScalarsCanonical(s: string, n: int, b: bool)
    ensures Canonical(Str(s)) == Str(s) && Canonical(Num(n)) == Num(n) && Canonical(Bool(b)) == Bool(b)
  {
  }

  /** A stored burst payload always yields a request. */
  lemma BurstDispatchable(container: string, p: Policy, i: Intent, stored: Json, id: string)
    requires ReadBack(stored, BurstPayload(container, i))
    ensures BuildRequest(id, SetBurstPolicy, stored).Request?
  {
    hide Blank, Trim, Canonical, Print, RoundHalfAway;
    PayloadsWellFormed(p, i, container);
    var v := BurstPayload(container, i);
    assert |v.members| == 3;
    ReadBackGet(stored, v, 0);
    ReadBackGet(stored, v, 1);
    ReadBackGet(stored, v, 2);
    ScalarsCanonical(container, i.burstMemMb, false);
    ScalarsCanonical("", SaturateU32(RoundHalfAway(i.burstCpuCap * 100.0)), false);
  }

  /** A stored placement payload yields a request exactly when its workload and node group are not blank. */
  lemma PlacementDispatchable(p: Policy, i: Intent, stored: Json, id: string)
    requires ReadBack(stored, PlacementPayload(i))
    ensures BuildRequest(id, SetPlacementPreference, stored).Request? <==> !Blank(i.workload) && !Blank(i.preferredNodeGroup)
  {
    hide Blank, Trim, Canonical, Print;
    PayloadsWellFormed(p, i, "");
    var v := PlacementPayload(i);
    assert |v.members| == 4;
    ReadBackGet(stored, v, 1);
    ReadBackGet(stored, v, 2);
    ReadBackGet(stored, v, 3);
    ScalarsCanonical(i.workload, 0, i.antiAffinity);
    ScalarsCanonical(i.preferredNodeGroup, 0, false);
  }

  /** Names as the loops expect them: policies were accepted and no observed name is blank. */
  predicate NamesPresent(x: Inputs) {
    && (forall k :: k in x.policies ==> !Blank(x.policies[k].runtimeFunctionId))
    && (forall i :: 0 <= i < |x.observations| ==> !Blank(x.observations[i].workload) && !Blank(x.observations[i].nodeGroup))
    && (forall i :: 0 <= i < |x.groups| ==> !Blank(x.groups[i].nodeGroup))
  }

  /** No row that a run makes can abort a dispatch cycle through a malformed payload. */
  lemma RunIsDispatchable(x: Inputs, intents: map<Name, Intent>, j: nat, stored: Json, id: string)
    requires DistinctNames(x.observations) && NamesPresent(x) && j < |FullPlan(x, intents).actions|
    requires ReadBack(stored, FullPlan(x, intents).actions[j].payload)
    ensures BuildRequest(id, FullPlan(x, intents).actions[j].kind, stored).Request?
  {
    hide BuildRequest, Blank, ReadBack, Window, Skips, NewIntent, ActionsFor;
    var m := ActionsComeFromWrites(x, intents, |x.observations|, j);
    var o := x.observations[m];
    NewIntentFacts(x, o);
    PreferredGroupPresent(x, o);
    ActionsDispatchable(x.policies[NameOf(o)], NewIntent(x, o), Window(x.now), FullPlan(x, intents).actions[j], stored, id);
  }

  lemma PreferredGroupPresent(x: Inputs, o: Observation)
    requires NamesPresent(x) && NameOf(o) in x.policies && !Blank(o.nodeGroup)
    ensures !Blank(NewIntent(x, o).preferredNodeGroup)
  {
    hide Blank, DesiredUnits, Target, BurstCpu, BurstMem, PoolMin, PoolMax, PoolTarget, ReasonFor, CoolestIndex;
  }

  lemma ActionsDispatchable(p: Policy, i: Intent, window: int, a: NewAction, stored: Json, id: string)
    requires a in ActionsFor(p, i, window) && ReadBack(stored, a.payload)
    requires !Blank(p.runtimeFunctionId) && !Blank(i.workload) && !Blank(i.preferredNodeGroup)
    ensures BuildRequest(id, a.kind, stored).Request?
  {
    hide BuildRequest, Blank, ReadBack, PoolPayload, BurstPayload, PlacementPayload;
    var j :| 0 <= j < |ActionsFor(p, i, window)| && ActionsFor(p, i, window)[j] == a;
    BurstActionsAre(p, i, window, |p.targetContainerIds|);
    if j == 0 {
      PoolDispatchable(p, i, stored, id);
    } else if j <= |p.targetContainerIds| {
      BurstDispatchable(p.targetContainerIds[j - 1], p, i, stored, id);
    } else {
      PlacementDispatchable(p, i, stored, id);
    }
  }
}
