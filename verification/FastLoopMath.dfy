/** The arithmetic of the fast loop: how many units a workload should have, over exact reals. */
module FastLoopMath {
  import opened Wrappers

  const U32_MAX: nat := 0xFFFF_FFFF

  type u32 = n: nat | n <= 0xFFFF_FFFF

  datatype Policy = Policy(
    runtimeFunctionId: string,
    maxConcurrency: u32,
    hardQuota: u32,
    softBurst: u32,
    absoluteLimit: u32,
    cooldownSeconds: u32,
    hysteresisPct: real,
    burstCpuCap: real,
    burstMemMb: u32,
    burstTtlSeconds: u32,
    targetContainerIds: seq<string>)

  datatype Slo = Slo(p95LatencyMs: u32, maxColdStartPct: real, maxRejectPct: real, maxCostPerComputeUnit: real)

  datatype Observation = Observation(
    tenant: string,
    workload: string,
    nodeGroup: string,
    queueDepth: u32,
    cpuPressure: real,
    memPressure: real,
    ioPressure: real,
    coldStartPct: real,
    invokeP95Ms: u32,
    rejectPct: real,
    activeComputeUnits: u32,
    costPerComputeUnit: real)

  datatype GroupObservation = GroupObservation(
    nodeGroup: string,
    cpuPressure: real,
    memPressure: real,
    ioPressure: real,
    warmReady: u32,
    capacityUnits: u32,
    usedUnits: u32)

  function ClampU32(v: int, min: u32, max: u32): u32 {
    if v < min then min else if v > max then max else v
  }

  function Ceil(x: real): int {
    -((-x).Floor)
  }

  function Max(a: int, b: int): int { if a > b then a else b }
  function Min(a: int, b: int): int { if a < b then a else b }
  function MaxReal(a: real, b: real): real { if a > b then a else b }

  function SaturateU32(v: int): u32 {
    if v < 0 then 0 else if v > U32_MAX then U32_MAX else v
  }

  function RoundHalfAway(x: real): int {
    if x >= 0.0 then (x + 0.5).Floor else -((-x + 0.5).Floor)
  }

  // ---- desired units -----------------------------------------------------

  function QueueBoost(queueDepth: u32): real {
    if queueDepth > 0 then
      1.0 + (if queueDepth as real / 100.0 < 1.0 then queueDepth as real / 100.0 else 1.0)
    else 1.0
  }

  /** The quota sum is taken in 32 bits, and wraps as a release build does. */
  function QuotaSum(p: Policy): u32 {
    (p.hardQuota + p.softBurst) % 0x1_0000_0000
  }

  function BoostedUnits(activeComputeUnits: u32, queueDepth: u32): int {
    Ceil(activeComputeUnits as real * QueueBoost(queueDepth))
  }

  function BaseUnits(o: Observation, p: Policy): int {
    Min(Min(Max(BoostedUnits(o.activeComputeUnits, o.queueDepth), p.maxConcurrency), QuotaSum(p)), p.absoluteLimit)
  }

  predicate Violates(o: Observation, s: Option<Slo>) {
    s.Some? &&
    (o.invokeP95Ms > s.value.p95LatencyMs || o.coldStartPct > s.value.maxColdStartPct
     || o.rejectPct > s.value.maxRejectPct || o.costPerComputeUnit > s.value.maxCostPerComputeUnit)
  }

  function DesiredUnits(o: Observation, p: Policy, s: Option<Slo>): int {
    if Violates(o, s) then Min(BaseUnits(o, p) + p.softBurst, p.absoluteLimit) else BaseUnits(o, p)
  }

  function Target(o: Observation, p: Policy, s: Option<Slo>): u32 {
    ClampU32(DesiredUnits(o, p, s), 1, p.absoluteLimit)
  }

  function PoolMin(desired: int): u32 { ClampU32(Ceil(desired as real * 0.10), 0, U32_MAX) }
  function PoolTarget(desired: int): u32 { ClampU32(Ceil(desired as real * 0.20), 0, U32_MAX) }
  function PoolMax(desired: int): u32 { ClampU32(Ceil(desired as real * 0.30), 0, U32_MAX) }

  function BurstCpu(p: Policy, violates: bool): real {
    if violates then p.burstCpuCap * 1.2 else p.burstCpuCap
  }

  function BurstMem(p: Policy, violates: bool): u32 {
    ClampU32(if violates then (p.burstMemMb as real * 1.15).Floor else p.burstMemMb, 64, SaturateU32(p.burstMemMb * 2))
  }

  /** The change of target that is still ignored. */
  function Threshold(currentTarget: u32, p: Policy): u32 {
    SaturateU32(Ceil(currentTarget as real * (p.hysteresisPct / 100.0)))
  }

  /** Updates `desired` in place, in the order of the source. */
  method ComputeDesired(o: Observation, p: Policy, s: Option<Slo>) returns (desired: int)
    ensures desired == DesiredUnits(o, p, s)
  {
    desired := BoostedUnits(o.activeComputeUnits, o.queueDepth);
    desired := Max(desired, p.maxConcurrency);
    desired := Min(desired, QuotaSum(p));
    desired := Min(desired, p.absoluteLimit);
    if s.Some? {
      var violation := o.invokeP95Ms > s.value.p95LatencyMs || o.coldStartPct > s.value.maxColdStartPct
                       || o.rejectPct > s.value.maxRejectPct || o.costPerComputeUnit > s.value.maxCostPerComputeUnit;
      if violation {
        desired := Min(desired + p.softBurst, p.absoluteLimit);
      }
    }
  }

  // ---- what the numbers promise ------------------------------------------

  lemma ProductMonotone(a: real, b: real, a': real, b': real)
    requires 0.0 <= a <= a' && 0.0 <= b <= b'
    ensures 0.0 <= a * b <= a' * b'
  {
    assert a * b <= a' * b;
    assert a' * b <= a' * b';
  }

  lemma CeilMonotone(x: real, y: real)
    requires x <= y
    ensures Ceil(x) <= Ceil(y)
  {
  }

  lemma DesiredRange(o: Observation, p: Policy, s: Option<Slo>)
    ensures 0 <= BaseUnits(o, p) <= DesiredUnits(o, p, s) <= p.absoluteLimit
    ensures DesiredUnits(o, p, s) <= p.hardQuota + 2 * p.softBurst
  {
    ProductMonotone(0.0, 0.0, o.activeComputeUnits as real, QueueBoost(o.queueDepth));
  }

  /** The pool sizes are ordered and never exceed the target; the target obeys the limits. */
  lemma TargetAndPools(o: Observation, p: Policy, s: Option<Slo>)
    ensures var d, t := DesiredUnits(o, p, s), Target(o, p, s);
            && 0 <= PoolMin(d) <= PoolTarget(d) <= PoolMax(d) <= t
            && 1 <= t <= Max(1, p.absoluteLimit)
            && t <= Max(1, p.hardQuota + 2 * p.softBurst)
  {
    DesiredRange(o, p, s);
    var d := DesiredUnits(o, p, s);
    CeilMonotone(d as real * 0.10, d as real * 0.20);
    CeilMonotone(d as real * 0.20, d as real * 0.30);
    assert d as real * 0.30 <= d as real;
    CeilMonotone(d as real * 0.30, d as real);
    assert Ceil(d as real) == d;
  }

  lemma BoostMonotone(a: u32, q: u32, a': u32, q': u32)
    requires a <= a' && q <= q'
    ensures BoostedUnits(a, q) <= BoostedUnits(a', q')
  {
    ProductMonotone(a as real, QueueBoost(q), a' as real, QueueBoost(q'));
    CeilMonotone(a as real * QueueBoost(q), a' as real * QueueBoost(q'));
  }

  /** More queue or more active units never lower the target. */
  lemma TargetMonotone(o: Observation, queueDepth: u32, activeComputeUnits: u32, p: Policy, s: Option<Slo>)
    requires o.queueDepth <= queueDepth && o.activeComputeUnits <= activeComputeUnits
    ensures Target(o, p, s) <= Target(o.(queueDepth := queueDepth, activeComputeUnits := activeComputeUnits), p, s)
  {
    hide BoostedUnits;
    BoostMonotone(o.activeComputeUnits, o.queueDepth, activeComputeUnits, queueDepth);
  }

  /** An SLO violation never lowers the target, and raises it exactly when there is burst and room to use it. */
  lemma ViolationRaises(o: Observation, p: Policy, s: Option<Slo>)
    requires Violates(o, s)
    ensures Target(o, p, None) <= Target(o, p, s)
    ensures Target(o, p, None) < Target(o, p, s) <==>
              Max(1, BaseUnits(o, p)) < p.absoluteLimit && BaseUnits(o, p) + p.softBurst > Max(1, BaseUnits(o, p))
  {
    DesiredRange(o, p, None);
    DesiredRange(o, p, s);
  }

  /** Burst memory is at least 64 MB, at most double the policy's unless that is less, and not lowered by a violation. */
  lemma BurstMemRange(p: Policy, violates: bool)
    ensures 64 <= BurstMem(p, violates) <= Max(64, SaturateU32(p.burstMemMb * 2))
    ensures BurstMem(p, false) <= BurstMem(p, true)
    ensures !violates && 64 <= p.burstMemMb ==> BurstMem(p, violates) == p.burstMemMb
  {
    var raised := (p.burstMemMb as real * 1.15).Floor;
    assert p.burstMemMb <= raised by {
      assert p.burstMemMb as real <= p.burstMemMb as real * 1.15;
    }
    assert p.burstMemMb < 32 ==> raised < 64;
  }

  // ---- node groups -------------------------------------------------------

  function Pressure(g: GroupObservation): real {
    MaxReal(MaxReal(g.cpuPressure, g.memPressure), g.ioPressure)
  }

  /** Group `i` is the first with the highest pressure, and that pressure is positive. */
  predicate FirstHottest(groups: seq<GroupObservation>, i: nat) {
    && i < |groups| && Pressure(groups[i]) > 0.0
    && (forall j :: 0 <= j < |groups| ==> Pressure(groups[j]) <= Pressure(groups[i]))
    && (forall j :: 0 <= j < i ==> Pressure(groups[j]) < Pressure(groups[i]))
  }

  ghost predicate OnHottestGroup(nodeGroup: string, groups: seq<GroupObservation>) {
    exists i: nat :: FirstHottest(groups, i) && Pressure(groups[i]) >= 0.85 && groups[i].nodeGroup == nodeGroup
  }

  lemma FirstHottestUnique(groups: seq<GroupObservation>, i: nat, j: nat)
    requires FirstHottest(groups, i) && FirstHottest(groups, j)
    ensures i == j
  {
  }

  /** Scans for the hottest group; an answer means the workload sits on it and it is at least 85 % loaded. */
  method HottestGroupFor(nodeGroup: string, groups: seq<GroupObservation>) returns (r: Option<string>)
    ensures r.Some? <==> OnHottestGroup(nodeGroup, groups)
    ensures r.Some? ==> r.value == nodeGroup
  {
    var candidate: Option<string> := None;
    var maxPressure := 0.0;
    ghost var at: nat := 0;
    for k := 0 to |groups|
      invariant maxPressure >= 0.0
      invariant forall j :: 0 <= j < k ==> Pressure(groups[j]) <= maxPressure
      invariant candidate.None? ==> maxPressure == 0.0
      invariant candidate.Some? ==> at < k && candidate.value == groups[at].nodeGroup && Pressure(groups[at]) == maxPressure > 0.0
                                    && forall j :: 0 <= j < at ==> Pressure(groups[j]) < maxPressure
    {
      var p := Pressure(groups[k]);
      if p > maxPressure {
        maxPressure := p;
        candidate := Some(groups[k].nodeGroup);
        at := k;
      }
    }
    if candidate.Some? {
      assert FirstHottest(groups, at);
    }
    if maxPressure >= 0.85 && candidate == Some(nodeGroup) {
      r := candidate;
    } else {
      r := None;
      if i: nat :| FirstHottest(groups, i) && Pressure(groups[i]) >= 0.85 && groups[i].nodeGroup == nodeGroup {
        FirstHottestUnique(groups, i, at);
      }
    }
  }

  /** The index of the first group with the lowest pressure among the first `n`. */
  function CoolestIndex(groups: seq<GroupObservation>, n: nat): (i: nat)
    requires 0 < n <= |groups|
    ensures i < n
    ensures forall j :: 0 <= j < n ==> Pressure(groups[i]) <= Pressure(groups[j])
    ensures forall j :: 0 <= j < i ==> Pressure(groups[i]) < Pressure(groups[j])
  {
    if n == 1 then 0
    else
      var i := CoolestIndex(groups, n - 1);
      if Pressure(groups[n - 1]) < Pressure(groups[i]) then n - 1 else i
  }

  function CoolestGroup(groups: seq<GroupObservation>, fallback: string): string {
    if groups == [] then fallback else groups[CoolestIndex(groups, |groups|)].nodeGroup
  }
}
