/** What the fast loop writes, said of the observation, the policy and the SLO alone. */
module IntentFacts {
  import opened Wrappers
  import opened Json
  import opened JsonText
  import opened Vocabulary
  import opened Requests
  import opened FastLoopMath
  import opened Database
  import opened FastLoop
  import opened FreshRows

  // ---- arithmetic without rounding functions -----------------------------

  lemma CeilMeans(x: real, n: int)
    ensures Ceil(x) == n <==> n as real >= x > n as real - 1.0
  {}

  /** Active units are raised by as many percent as requests wait, at most 100, rounded up. */
  lemma BoostMeans(active: u32, queue: u32)
    ensures var b, pct := BoostedUnits(active, queue), if queue < 100 then queue else 100;
            100 * b >= active * (100 + pct) > 100 * (b - 1)
  {
    var pct: int := if queue < 100 then queue else 100;
    var x := active as real * QueueBoost(queue);
    assert QueueBoost(queue) == (100 + pct) as real / 100.0;
    assert x == (active * (100 + pct)) as real / 100.0 by {
      assert (active * (100 + pct)) as real == active as real * (100 + pct) as real;
    }
    CeilMeans(x, Ceil(x));
  }

  /** The base is the larger of boosted units and the policy's concurrency, cut to the 32-bit quota sum and to the limit. */
  lemma BaseMeans(o: Observation, p: Policy)
    ensures var base, quota := BaseUnits(o, p), (p.hardQuota + p.softBurst) % 0x1_0000_0000;
            var wanted := if BoostedUnits(o.activeComputeUnits, o.queueDepth) > p.maxConcurrency
                          then BoostedUnits(o.activeComputeUnits, o.queueDepth) else p.maxConcurrency;
            && base <= quota && base <= p.absoluteLimit && base <= wanted
            && (base == quota || base == p.absoluteLimit || base == wanted)
  {
    hide BoostedUnits;
  }

  /** Some measure of the observation is over what the SLO allows. */
  predicate OverSlo(o: Observation, s: Option<Slo>) {
    match s
    case None => false
    case Some(slo) =>
      o.invokeP95Ms > slo.p95LatencyMs || o.coldStartPct > slo.maxColdStartPct
      || o.rejectPct > slo.maxRejectPct || o.costPerComputeUnit > slo.maxCostPerComputeUnit
  }

  /** A violation adds the soft burst, up to the limit. */
  lemma DesiredMeans(o: Observation, p: Policy, s: Option<Slo>)
    ensures var d, base := DesiredUnits(o, p, s), BaseUnits(o, p);
            if OverSlo(o, s) then d == (if base + p.softBurst < p.absoluteLimit then base + p.softBurst else p.absoluteLimit)
            else d == base
  {
    hide BaseUnits;
  }

  /** The three pool sizes are 10, 20 and 30 percent of the desired units, rounded up. */
  lemma PoolsMean(d: int)
    requires 0 <= d <= U32_MAX
    ensures 10 * PoolMin(d) >= d > 10 * (PoolMin(d) - 1)
    ensures 5 * PoolTarget(d) >= d > 5 * (PoolTarget(d) - 1)
    ensures 10 * PoolMax(d) >= 3 * d > 10 * (PoolMax(d) - 1)
  {
    CeilMeans(d as real * 0.10, Ceil(d as real * 0.10));
    CeilMeans(d as real * 0.20, Ceil(d as real * 0.20));
    CeilMeans(d as real * 0.30, Ceil(d as real * 0.30));
  }

  /** A group's pressure is the largest of its three. */
  lemma PressureMeans(g: GroupObservation)
    ensures Pressure(g) >= g.cpuPressure && Pressure(g) >= g.memPressure && Pressure(g) >= g.ioPressure
    ensures Pressure(g) == g.cpuPressure || Pressure(g) == g.memPressure || Pressure(g) == g.ioPressure
  {}

  // ---- the intent --------------------------------------------------------

  /** The workload's group is the first of highest pressure, and that is at least 0.85. */
  ghost predicate SitsOnHottest(nodeGroup: string, groups: seq<GroupObservation>) {
    exists i: nat ::
      && i < |groups| && groups[i].nodeGroup == nodeGroup && Pressure(groups[i]) >= 0.85
      && (forall j :: 0 <= j < |groups| ==> Pressure(groups[j]) <= Pressure(groups[i]))
      && (forall j :: 0 <= j < i ==> Pressure(groups[j]) < Pressure(groups[i]))
  }

  /** The group is the first of lowest pressure. */
  ghost predicate IsCoolest(nodeGroup: string, groups: seq<GroupObservation>) {
    exists i: nat ::
      && i < |groups| && groups[i].nodeGroup == nodeGroup
      && (forall j :: 0 <= j < |groups| ==> Pressure(groups[i]) <= Pressure(groups[j]))
      && (forall j :: 0 <= j < i ==> Pressure(groups[i]) < Pressure(groups[j]))
  }

  lemma HottestMeans(nodeGroup: string, groups: seq<GroupObservation>)
    ensures OnHottestGroup(nodeGroup, groups) <==> SitsOnHottest(nodeGroup, groups)
  {
    hide Pressure;
    if OnHottestGroup(nodeGroup, groups) {
      var i: nat :| FirstHottest(groups, i) && Pressure(groups[i]) >= 0.85 && groups[i].nodeGroup == nodeGroup;
      assert i < |groups| && groups[i].nodeGroup == nodeGroup;
    }
    if SitsOnHottest(nodeGroup, groups) {
      var i: nat :|
        && i < |groups| && groups[i].nodeGroup == nodeGroup && Pressure(groups[i]) >= 0.85
        && (forall j :: 0 <= j < |groups| ==> Pressure(groups[j]) <= Pressure(groups[i]))
        && (forall j :: 0 <= j < i ==> Pressure(groups[j]) < Pressure(groups[i]));
      assert FirstHottest(groups, i);
    }
  }

  /** A workload on the hottest group is sent to the coolest, with anti-affinity; any other stays on its own. */
  lemma PlacementMeans(x: Inputs, o: Observation)
    requires NameOf(o) in x.policies
    ensures var i := NewIntent(x, o);
            && (i.antiAffinity <==> SitsOnHottest(o.nodeGroup, x.groups))
            && (i.antiAffinity ==> IsCoolest(i.preferredNodeGroup, x.groups))
            && (!i.antiAffinity ==> i.preferredNodeGroup == o.nodeGroup)
  {
    hide Pressure, DesiredUnits, Target, BurstCpu, BurstMem, PoolMin, PoolMax, PoolTarget, ReasonFor, OnHottestGroup, SitsOnHottest;
    HottestMeans(o.nodeGroup, x.groups);
    if SitsOnHottest(o.nodeGroup, x.groups) {
      SomeGroup(o.nodeGroup, x.groups);
      var c := CoolestIndex(x.groups, |x.groups|);
      assert x.groups[c].nodeGroup == NewIntent(x, o).preferredNodeGroup;
    }
  }

  lemma SomeGroup(nodeGroup: string, groups: seq<GroupObservation>)
    requires SitsOnHottest(nodeGroup, groups)
    ensures groups != []
  {}

  /** The other fields of a written intent, each against the observation, the policy and the SLO. */
  lemma IntentHolds(x: Inputs, o: Observation)
    requires NameOf(o) in x.policies
    ensures var i, p, s := NewIntent(x, o), x.policies[NameOf(o)], Lookup(x.slos, NameOf(o));
            var d := DesiredUnits(o, p, s);
            && i.tenant == o.tenant && i.workload == o.workload
            && i.targetConcurrency == (if d < 1 then 1 else d)
            && 10 * i.poolMinReady >= d > 10 * (i.poolMinReady - 1)
            && 5 * i.poolTargetReady >= d > 5 * (i.poolTargetReady - 1)
            && 10 * i.poolMaxReady >= 3 * d > 10 * (i.poolMaxReady - 1)
            && i.burstCpuCap == (if OverSlo(o, s) then p.burstCpuCap * 1.2 else p.burstCpuCap)
            && i.burstTtlSeconds == p.burstTtlSeconds && i.ttlSeconds == p.burstTtlSeconds
            && i.effectiveAt == x.now && i.updatedAt == x.now
  {
    hide Pressure, DesiredUnits, BurstMem, PoolMin, PoolMax, PoolTarget, ReasonFor, OnHottestGroup, CoolestGroup;
    var p, s := x.policies[NameOf(o)], Lookup(x.slos, NameOf(o));
    DesiredRange(o, p, s);
    PoolsMean(DesiredUnits(o, p, s));
  }

  /** Burst memory is the policy's, 15 percent up and rounded down on a violation, and then kept between 64 MB and double the policy's. */
  lemma BurstMemMeans(x: Inputs, o: Observation) returns (m: int)
    requires NameOf(o) in x.policies
    ensures var i, p, s := NewIntent(x, o), x.policies[NameOf(o)], Lookup(x.slos, NameOf(o));
            && (if OverSlo(o, s) then 100 * m <= 115 * p.burstMemMb < 100 * (m + 1) else m == p.burstMemMb)
            && i.burstMemMb == (if m < 64 then 64
                                else if m > p.burstMemMb * 2 then p.burstMemMb * 2
                                else if m > 0xFFFF_FFFF then 0xFFFF_FFFF else m)
  {
    hide Pressure, DesiredUnits, PoolMin, PoolMax, PoolTarget, ReasonFor, OnHottestGroup, CoolestGroup, Target, BurstCpu;
    var p, s := x.policies[NameOf(o)], Lookup(x.slos, NameOf(o));
    m := if Violates(o, s) then (p.burstMemMb as real * 1.15).Floor else p.burstMemMb;
  }

  /** The reason: a hot node first, then waiting requests, then the SLO. */
  lemma ReasonMeans(x: Inputs, o: Observation)
    requires NameOf(o) in x.policies
    ensures var r := NewIntent(x, o).reasonCode;
            if o.cpuPressure > 0.85 || o.memPressure > 0.85 || o.ioPressure > 0.85 then r == "HOT_NODE_GROUP"
            else if o.queueDepth > 0 then r == "QUEUE_PRESSURE"
            else if OverSlo(o, Lookup(x.slos, NameOf(o))) then r == "SLO_GUARD"
            else r == "STEADY_STATE"
  {
    hide Pressure, DesiredUnits, PoolMin, PoolMax, PoolTarget, OnHottestGroup, CoolestGroup, Target, BurstMem, BurstCpu;
  }

  // ---- when an intent is written -----------------------------------------

  /** How far apart two targets are. */
  function Distance(a: int, b: int): int {
    if a > b then a - b else b - a
  }

  /**
    An observed workload's intent is written exactly when it has a policy and either no intent yet, or
    one whose cooldown is over and whose target is at least 2 away and at least 1 more than its
    hysteresis share.
   */
  lemma WritesIff(x: Inputs, o: Observation, current: Option<Intent>)
    ensures Writes(x, o, current) <==>
              && NameOf(o) in x.policies
              && (current.Some? ==>
                    var p, c := x.policies[NameOf(o)], current.value;
                    var delta := Distance(NewIntent(x, o).targetConcurrency, c.targetConcurrency);
                    && x.now - c.updatedAt >= p.cooldownSeconds
                    && delta >= 2 && (delta - 1) as real >= c.targetConcurrency as real * (p.hysteresisPct / 100.0))
  {
    hide BuildIntent, OnHottestGroup;
    if NameOf(o) in x.policies && current.Some? {
      var p, c := x.policies[NameOf(o)], current.value;
      var delta := Distance(NewIntent(x, o).targetConcurrency, c.targetConcurrency);
      BeyondThresholdIff(delta, c.targetConcurrency, p);
    }
  }

  lemma BeyondThresholdIff(delta: u32, target: u32, p: Policy)
    ensures delta > Threshold(target, p) <==> delta >= 1 && (delta - 1) as real >= target as real * (p.hysteresisPct / 100.0)
  {
    var x := target as real * (p.hysteresisPct / 100.0);
    CeilMeans(x, Ceil(x));
    if delta - 1 >= Ceil(x) {
      assert (delta - 1) as real >= Ceil(x) as real;
    }
    if (delta - 1) as real >= x {
      assert delta as real > Ceil(x) as real;
    }
  }

  // ---- from the observation to the request -------------------------------

  /** The actions of a written intent: the pool target, a burst policy per container in their order, the placement, all with the policy's ttl. */
  lemma ActionsHold(p: Policy, i: Intent, window: int)
    ensures var actions, n := ActionsFor(p, i, window), |p.targetContainerIds|;
            && |actions| == n + 2
            && (forall j :: 0 <= j < n + 2 ==>
                  actions[j].tenant == i.tenant && actions[j].workload == i.workload && actions[j].ttl == p.burstTtlSeconds
                  && actions[j].window == window && actions[j].rollback.None? && actions[j].parent.None?)
            && actions[0].kind == SetPoolTarget && actions[n + 1].kind == SetPlacementPreference
            && forall j :: 1 <= j <= n ==> actions[j].kind == SetBurstPolicy
  {
    hide PoolPayload, BurstPayload, PlacementPayload;
    BurstActionsAre(p, i, window, |p.targetContainerIds|);
  }

  /** The posted pool bounds are the intent's, each in its place, and the path names the policy's function. */
  lemma PoolPosted(p: Policy, i: Intent, window: int, stored: Json, id: string)
    requires ReadBack(stored, ActionsFor(p, i, window)[0].payload) && !Blank(p.runtimeFunctionId)
    ensures var r := BuildRequest(id, SetPoolTarget, stored);
            && r.Request?
            && r.path == "/api/elasticity/control/functions/" + Trim(p.runtimeFunctionId) + "/pool-target"
            && HasMembers(r.body, ["min_instances", "max_instances"])
            && Get(r.body, "min_instances") == Some(Num(i.poolMinReady))
            && Get(r.body, "max_instances") == Some(Num(i.poolMaxReady))
  {
    hide Trim, Blank, Get, Canonical, Print, BuildRequest, HasMembers;
    assert ActionsFor(p, i, window)[0].payload == PoolPayload(p, i);
    PoolStored(p, i, stored);
    PoolDispatchable(p, i, stored, id);
    PoolRequestHolds(id, stored);
  }

  lemma PoolStored(p: Policy, i: Intent, stored: Json)
    requires ReadBack(stored, PoolPayload(p, i))
    ensures Get(stored, "function_id") == Some(Str(p.runtimeFunctionId))
    ensures Get(stored, "min_instances") == Some(Num(i.poolMinReady)) && Get(stored, "max_instances") == Some(Num(i.poolMaxReady))
  {
    hide Canonical, Print, Get;
    PayloadsWellFormed(p, i, "");
    var v := PoolPayload(p, i);
    assert |v.members| == 3;
    ReadBackGet(stored, v, 0);
    ReadBackGet(stored, v, 1);
    ReadBackGet(stored, v, 2);
    ScalarsCanonical(p.runtimeFunctionId, i.poolMinReady, false);
    ScalarsCanonical("", i.poolMaxReady, false);
  }

  /** So the bounds posted for an observation are 10 and 30 percent of its desired units, rounded up, in order and within the target. */
  lemma PoolBoundsPosted(x: Inputs, o: Observation, stored: Json, id: string)
    requires NameOf(o) in x.policies && !Blank(x.policies[NameOf(o)].runtimeFunctionId)
    requires ReadBack(stored, ActionsFor(x.policies[NameOf(o)], NewIntent(x, o), Window(x.now))[0].payload)
    ensures var d, r := DesiredUnits(o, x.policies[NameOf(o)], Lookup(x.slos, NameOf(o))), BuildRequest(id, SetPoolTarget, stored);
            && r.Request?
            && exists lo: int, hi: int ::
                 && Get(r.body, "min_instances") == Some(Num(lo)) && Get(r.body, "max_instances") == Some(Num(hi))
                 && 10 * lo >= d > 10 * (lo - 1) && 10 * hi >= 3 * d > 10 * (hi - 1)
                 && 0 <= lo <= hi <= NewIntent(x, o).targetConcurrency
  {
    hide DesiredUnits, NewIntent, BuildRequest, Trim, Blank, Get, ReadBack, HasMembers, ActionsFor, Window;
    var i := NewIntent(x, o);
    PoolPosted(x.policies[NameOf(o)], i, Window(x.now), stored, id);
    IntentHolds(x, o);
    DesiredRange(o, x.policies[NameOf(o)], Lookup(x.slos, NameOf(o)));
  }

  /** The posted limits of a container are the intent's memory and its CPU cap in percent, to the nearest. */
  lemma BurstPosted(p: Policy, i: Intent, window: int, k: nat, stored: Json, id: string)
    requires k < |p.targetContainerIds| && ReadBack(stored, ActionsFor(p, i, window)[k + 1].payload)
    ensures var r := BuildRequest(id, SetBurstPolicy, stored);
            && r.Request?
            && r.path == "/api/elasticity/control/containers/" + p.targetContainerIds[k] + "/resize"
            && HasMembers(r.body, ["memory_limit_mb", "cpu_limit_percent"])
            && Get(r.body, "memory_limit_mb") == Some(Num(i.burstMemMb))
            && exists n: int :: Get(r.body, "cpu_limit_percent") == Some(Num(n)) && IsPercent(n, i.burstCpuCap)
  {
    hide Get, Canonical, Print, BuildRequest, HasMembers;
    BurstActionsAre(p, i, window, |p.targetContainerIds|);
    assert ActionsFor(p, i, window)[k + 1].payload == BurstPayload(p.targetContainerIds[k], i);
    BurstStored(p.targetContainerIds[k], p, i, stored);
    BurstDispatchable(p.targetContainerIds[k], p, i, stored, id);
    BurstRequestHolds(id, stored);
    PercentMeans(i.burstCpuCap);
  }

  /** The nearest 32-bit number of percent, halves going up. */
  predicate IsPercent(n: int, cap: real) {
    if cap <= 0.0 then n == 0
    else if cap * 100.0 > 0xFFFF_FFFF as real then n == 0xFFFF_FFFF
    else n as real - 0.5 <= cap * 100.0 < n as real + 0.5
  }

  lemma PercentMeans(cap: real)
    ensures IsPercent(SaturateU32(RoundHalfAway(cap * 100.0)), cap)
  {}

  lemma BurstStored(container: string, p: Policy, i: Intent, stored: Json)
    requires ReadBack(stored, BurstPayload(container, i))
    ensures Get(stored, "container_id") == Some(Str(container)) && Get(stored, "memory_limit_mb") == Some(Num(i.burstMemMb))
    ensures Get(stored, "cpu_limit_percent") == Some(Num(SaturateU32(RoundHalfAway(i.burstCpuCap * 100.0))))
  {
    hide Canonical, Print, Get, RoundHalfAway;
    PayloadsWellFormed(p, i, container);
    var v := BurstPayload(container, i);
    assert |v.members| == 3;
    ReadBackGet(stored, v, 0);
    ReadBackGet(stored, v, 1);
    ReadBackGet(stored, v, 2);
    ScalarsCanonical(container, i.burstMemMb, false);
    ScalarsCanonical("", SaturateU32(RoundHalfAway(i.burstCpuCap * 100.0)), false);
  }

  /** The posted placement is the intent's preferred group, trimmed, with its anti-affinity, for its workload. */
  lemma PlacementPosted(p: Policy, i: Intent, window: int, stored: Json, id: string)
    requires ReadBack(stored, ActionsFor(p, i, window)[|p.targetContainerIds| + 1].payload)
    requires !Blank(i.workload) && !Blank(i.preferredNodeGroup)
    ensures var r := BuildRequest(id, SetPlacementPreference, stored);
            && r.Request?
            && r.path == "/api/elasticity/control/workloads/" + Trim(i.workload) + "/placement-preference"
            && HasMembers(r.body, ["node_group", "anti_affinity"])
            && Get(r.body, "node_group") == Some(Str(Trim(i.preferredNodeGroup)))
            && Get(r.body, "anti_affinity") == Some(Bool(i.antiAffinity))
  {
    hide Trim, Blank, Get, Canonical, Print, BuildRequest, HasMembers;
    assert ActionsFor(p, i, window)[|p.targetContainerIds| + 1].payload == PlacementPayload(i);
    PlacementStored(i, stored);
    PlacementDispatchable(p, i, stored, id);
    PlacementRequestHolds(id, stored);
  }

  lemma PlacementStored(i: Intent, stored: Json)
    requires ReadBack(stored, PlacementPayload(i))
    ensures Get(stored, "workload_id") == Some(Str(i.workload)) && Get(stored, "node_group") == Some(Str(i.preferredNodeGroup))
    ensures Get(stored, "anti_affinity") == Some(Bool(i.antiAffinity))
  {
    hide Canonical, Print, Get;
    PlacementWellFormed(i);
    var v := PlacementPayload(i);
    assert |v.members| == 4;
    ReadBackGet(stored, v, 1);
    ReadBackGet(stored, v, 2);
    ReadBackGet(stored, v, 3);
    ScalarsCanonical(i.workload, 0, i.antiAffinity);
    ScalarsCanonical(i.preferredNodeGroup, 0, false);
  }
}
