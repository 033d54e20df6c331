/** The fast loop: from observations to intents and the actions that carry them out. */
module FastLoop {
  import opened Wrappers
  import opened Json
  import opened Vocabulary
  import opened IdempotencyKey
  import opened ActionTable
  import opened FastLoopMath
  import opened Database

  /** What one run of the loop reads. */
  datatype Inputs = Inputs(
    policies: map<Name, Policy>,
    slos: map<Name, Slo>,
    observations: seq<Observation>,
    groups: seq<GroupObservation>,
    now: nat)

  function NameOf(o: Observation): Name {
    (o.tenant, o.workload)
  }

  function Lookup<V>(m: map<Name, V>, k: Name): Option<V> {
    if k in m then Some(m[k]) else None
  }

  /** The primary key of the observation table. */
  predicate DistinctNames(os: seq<Observation>) {
    forall i, j :: 0 <= i < j < |os| ==> NameOf(os[i]) != NameOf(os[j])
  }

  function ReasonFor(o: Observation, s: Option<Slo>): string {
    if MaxReal(MaxReal(o.cpuPressure, o.memPressure), o.ioPressure) > 0.85 then "HOT_NODE_GROUP"
    else if o.queueDepth > 0 then "QUEUE_PRESSURE"
    else if Violates(o, s) then "SLO_GUARD"
    else "STEADY_STATE"
  }

  function BuildIntent(o: Observation, p: Policy, s: Option<Slo>, hot: bool, groups: seq<GroupObservation>, now: nat): Intent {
    var d, v := DesiredUnits(o, p, s), Violates(o, s);
    Intent(o.tenant, o.workload, Target(o, p, s), BurstCpu(p, v), BurstMem(p, v), p.burstTtlSeconds,
           PoolMin(d), PoolTarget(d), PoolMax(d),
           if hot then CoolestGroup(groups, o.nodeGroup) else o.nodeGroup, hot, ReasonFor(o, s),
           now, p.burstTtlSeconds, now)
  }

  ghost function IntentFor(o: Observation, p: Policy, s: Option<Slo>, groups: seq<GroupObservation>, now: nat): Intent {
    BuildIntent(o, p, s, OnHottestGroup(o.nodeGroup, groups), groups, now)
  }

  function AbsDiff(a: u32, b: u32): u32 {
    if a > b then a - b else b - a
  }

  /** Cooldown and hysteresis: the current intent stays. */
  predicate Skips(current: Option<Intent>, next: Intent, p: Policy, now: nat) {
    current.Some? &&
    (now - current.value.updatedAt < p.cooldownSeconds
     || AbsDiff(next.targetConcurrency, current.value.targetConcurrency)
        <= Max(Threshold(current.value.targetConcurrency, p), 1))
  }

  // ---- the actions of a written intent -----------------------------------

  function PoolPayload(p: Policy, i: Intent): Json {
    Obj([Member("function_id", Str(p.runtimeFunctionId)),
         Member("min_instances", Num(i.poolMinReady)),
         Member("max_instances", Num(i.poolMaxReady))])
  }

  function BurstPayload(container: string, i: Intent): Json {
    Obj([Member("container_id", Str(container)),
         Member("memory_limit_mb", Num(i.burstMemMb)),
         Member("cpu_limit_percent", Num(SaturateU32(RoundHalfAway(i.burstCpuCap * 100.0))))])
  }

  function PlacementPayload(i: Intent): Json {
    Obj([Member("tenant_id", Str(i.tenant)),
         Member("workload_id", Str(i.workload)),
         Member("node_group", Str(i.preferredNodeGroup)),
         Member("anti_affinity", Bool(i.antiAffinity))])
  }

  function LoopAction(i: Intent, kind: ActionType, payload: Json, ttl: nat, window: int): NewAction {
    NewAction(i.tenant, i.workload, kind, payload, ttl, window, None, None)
  }

  function BurstActions(p: Policy, i: Intent, window: int, n: nat): (r: seq<NewAction>)
    requires n <= |p.targetContainerIds|
    ensures |r| == n
  {
    if n == 0 then []
    else BurstActions(p, i, window, n - 1)
         + [LoopAction(i, SetBurstPolicy, BurstPayload(p.targetContainerIds[n - 1], i), p.burstTtlSeconds, window)]
  }

  function ActionsFor(p: Policy, i: Intent, window: int): (r: seq<NewAction>)
    ensures |r| == |p.targetContainerIds| + 2
  {
    [LoopAction(i, SetPoolTarget, PoolPayload(p, i), p.burstTtlSeconds, window)]
    + BurstActions(p, i, window, |p.targetContainerIds|)
    + [LoopAction(i, SetPlacementPreference, PlacementPayload(i), p.burstTtlSeconds, window)]
  }

  lemma {:induction false} BurstActionsAre(p: Policy, i: Intent, window: int, n: nat)
    requires n <= |p.targetContainerIds|
    ensures forall k :: 0 <= k < n ==>
              BurstActions(p, i, window, n)[k] == LoopAction(i, SetBurstPolicy, BurstPayload(p.targetContainerIds[k], i), p.burstTtlSeconds, window)
  {
    if n > 0 {
      BurstActionsAre(p, i, window, n - 1);
    }
  }

  // ---- one run -----------------------------------------------------------

  datatype Plan = Plan(intents: map<Name, Intent>, actions: seq<NewAction>)

  function Window(now: nat): nat {
    DecisionWindowStart(now, FAST_LOOP_SECONDS)
  }

  ghost predicate Writes(x: Inputs, o: Observation, current: Option<Intent>) {
    var k := NameOf(o);
    k in x.policies
    && !Skips(current, IntentFor(o, x.policies[k], Lookup(x.slos, k), x.groups, x.now), x.policies[k], x.now)
  }

  ghost function NewIntent(x: Inputs, o: Observation): Intent
    requires NameOf(o) in x.policies
  {
    IntentFor(o, x.policies[NameOf(o)], Lookup(x.slos, NameOf(o)), x.groups, x.now)
  }

  ghost function Consider(x: Inputs, plan: Plan, o: Observation): Plan {
    if !Writes(x, o, Lookup(plan.intents, NameOf(o))) then plan
    else
      var i := NewIntent(x, o);
      Plan(plan.intents[NameOf(o) := i], plan.actions + ActionsFor(x.policies[NameOf(o)], i, Window(x.now)))
  }

  /** The plan after the first `n` observations. */
  ghost function PlanAfter(x: Inputs, intents: map<Name, Intent>, n: nat): Plan
    requires n <= |x.observations|
  {
    if n == 0 then Plan(intents, []) else Consider(x, PlanAfter(x, intents, n - 1), x.observations[n - 1])
  }

  ghost function FullPlan(x: Inputs, intents: map<Name, Intent>): Plan {
    PlanAfter(x, intents, |x.observations|)
  }

  /** A UUID and a clock reading, drawn for one insertion. */
  datatype Draw = Draw(id: string, now: nat)

  function Calls(actions: seq<NewAction>, draws: seq<Draw>): seq<Call>
    requires |actions| <= |draws|
  {
    seq(|actions|, k requires 0 <= k < |actions| => Call(draws[k].id, actions[k], draws[k].now))
  }

  function Inserted(t: Table, actions: seq<NewAction>, draws: seq<Draw>): Table
    requires |actions| <= |draws|
  {
    EnqueueFirst(t, Calls(actions, draws), |actions|)
  }

  lemma {:induction false} EnqueueFirstPrefix(t: Table, calls: seq<Call>, calls': seq<Call>, n: nat)
    requires n <= |calls| && n <= |calls'| && forall k :: 0 <= k < n ==> calls[k] == calls'[k]
    ensures EnqueueFirst(t, calls, n) == EnqueueFirst(t, calls', n)
  {
    hide Enqueue;
    if n > 0 {
      EnqueueFirstPrefix(t, calls, calls', n - 1);
    }
  }

  lemma InsertedOneMore(t: Table, actions: seq<NewAction>, a: NewAction, draws: seq<Draw>)
    requires |actions| < |draws|
    ensures Inserted(t, actions + [a], draws)
            == Enqueue(Inserted(t, actions, draws), draws[|actions|].id, a, draws[|actions|].now)
  {
    hide Enqueue;
    EnqueueFirstPrefix(t, Calls(actions + [a], draws), Calls(actions, draws), |actions|);
  }

  ghost function Read(db: OrchestratorDb, now: nat): Inputs
    reads db
  {
    Inputs(db.policies, db.slos, db.observations, db.groups, now)
  }

  method EnqueueNext(db: OrchestratorDb, ghost t: Table, ghost before: seq<NewAction>, a: NewAction, draws: seq<Draw>, used: nat)
    requires used == |before| < |draws| && db.rows == Inserted(t, before, draws)
    modifies db`rows
    ensures db.rows == Inserted(t, before + [a], draws)
  {
    hide Enqueue;
    InsertedOneMore(t, before, a, draws);
    var _ := db.EnqueueAction(draws[used].id, a, draws[used].now);
  }

  /** Enqueues the actions of one written intent, in the order of the source. */
  method EnqueueIntent(
    db: OrchestratorDb, ghost t: Table, ghost before: seq<NewAction>, p: Policy, i: Intent, window: int, draws: seq<Draw>, used: nat)
    requires used == |before| && |before| + |p.targetContainerIds| + 2 <= |draws| && db.rows == Inserted(t, before, draws)
    modifies db`rows
    ensures db.rows == Inserted(t, before + ActionsFor(p, i, window), draws)
  {
    hide Inserted, PoolPayload, BurstPayload, PlacementPayload;
    var pool := LoopAction(i, SetPoolTarget, PoolPayload(p, i), p.burstTtlSeconds, window);
    EnqueueNext(db, t, before, pool, draws, used);
    ghost var done := before + [pool];
    for k := 0 to |p.targetContainerIds|
      invariant done == before + [pool] + BurstActions(p, i, window, k)
      invariant |done| == used + 1 + k
      invariant db.rows == Inserted(t, done, draws)
    {
      var burst := LoopAction(i, SetBurstPolicy, BurstPayload(p.targetContainerIds[k], i), p.burstTtlSeconds, window);
      EnqueueNext(db, t, done, burst, draws, used + 1 + k);
      done := done + [burst];
    }
    var placement := LoopAction(i, SetPlacementPreference, PlacementPayload(i), p.burstTtlSeconds, window);
    EnqueueNext(db, t, done, placement, draws, used + 1 + |p.targetContainerIds|);
    assert done + [placement] == before + ActionsFor(p, i, window);
  }

  /** One run in one transaction. `draws` holds a UUID and a clock reading for every insertion it can make. */
  method RunFastLoop(db: OrchestratorDb, now: nat, draws: seq<Draw>)
    requires |FullPlan(Read(db, now), db.intents).actions| <= |draws|
    modifies db`intents, db`rows
    ensures db.intents == FullPlan(old(Read(db, now)), old(db.intents)).intents
    ensures db.rows == Inserted(old(db.rows), FullPlan(old(Read(db, now)), old(db.intents)).actions, draws)
  {
    hide Inserted, ActionsFor, BuildIntent, Skips;
    ghost var x, plan := Read(db, now), Plan(db.intents, []);
    EmptyInsertion(db.rows, draws);
    var observations := db.observations;
    var window := Window(now);
    var used: nat := 0;
    for n := 0 to |observations|
      invariant db.policies == x.policies && db.slos == x.slos && observations == x.observations && db.groups == x.groups
      invariant plan == PlanAfter(x, old(db.intents), n) && used == |plan.actions|
      invariant db.intents == plan.intents
      invariant |plan.actions| <= |draws|
      invariant db.rows == Inserted(old(db.rows), plan.actions, draws)
    {
      PlanGrows(x, old(db.intents), n + 1, |observations|);
      var o := observations[n];
      if NameOf(o) in db.policies {
        var p := db.policies[NameOf(o)];
        var hot := HottestGroupFor(o.nodeGroup, db.groups);
        var intent := BuildIntent(o, p, Lookup(db.slos, NameOf(o)), hot.Some?, db.groups, now);
        if !Skips(Lookup(db.intents, NameOf(o)), intent, p, now) {
          db.intents := db.intents[NameOf(o) := intent];
          EnqueueIntent(db, old(db.rows), plan.actions, p, intent, window, draws, used);
          used := used + |p.targetContainerIds| + 2;
        }
      }
      plan := Consider(x, plan, o);
    }
  }

  lemma EmptyInsertion(t: Table, draws: seq<Draw>)
    ensures Inserted(t, [], draws) == t
  {
  }

  lemma {:induction false} PlanGrows(x: Inputs, intents: map<Name, Intent>, m: nat, n: nat)
    requires m <= n <= |x.observations|
    ensures |PlanAfter(x, intents, m).actions| <= |PlanAfter(x, intents, n).actions|
  {
    hide Writes, ActionsFor, NewIntent;
    if m < n {
      PlanGrows(x, intents, m, n - 1);
    }
  }
}
