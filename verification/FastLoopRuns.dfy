/** What the fast loop keeps over many runs: anti-flap, settling, fresh rows, dispatchable payloads. */
module FastLoopRuns {
  import opened Wrappers
  import opened FastLoopMath
  import opened Database
  import opened FastLoop

  // ---- one workload ------------------------------------------------------

  /** The observation of a workload among the first `n`, if any. */
  function ObservationOf(os: seq<Observation>, n: nat, k: Name): Option<Observation>
    requires n <= |os|
  {
    if n == 0 then None
    else if NameOf(os[n - 1]) == k then Some(os[n - 1])
    else ObservationOf(os, n - 1, k)
  }

  lemma {:induction false} ObservedName(os: seq<Observation>, n: nat, k: Name)
    requires n <= |os|
    ensures ObservationOf(os, n, k).Some? ==> NameOf(ObservationOf(os, n, k).value) == k
    ensures ObservationOf(os, n, k).None? <==> forall i :: 0 <= i < n ==> NameOf(os[i]) != k
  {
    if n > 0 {
      ObservedName(os, n - 1, k);
    }
  }

  /** The run writes the intent of `k`. */
  ghost predicate WritesFor(x: Inputs, n: nat, k: Name, current: Option<Intent>)
    requires n <= |x.observations|
  {
    ObservationOf(x.observations, n, k).Some? && Writes(x, ObservationOf(x.observations, n, k).value, current)
  }

  ghost function NextIntent(x: Inputs, n: nat, k: Name, current: Option<Intent>): Option<Intent>
    requires n <= |x.observations|
  {
    if WritesFor(x, n, k, current) then
      ObservedName(x.observations, n, k);
      Some(NewIntent(x, ObservationOf(x.observations, n, k).value))
    else current
  }

  /** A run treats each workload by itself. */
  lemma {:induction false} PlanPerWorkload(x: Inputs, intents: map<Name, Intent>, n: nat, k: Name)
    requires DistinctNames(x.observations) && n <= |x.observations|
    ensures Lookup(PlanAfter(x, intents, n).intents, k) == NextIntent(x, n, k, Lookup(intents, k))
  {
    hide Writes, NewIntent, ActionsFor;
    if n > 0 {
      PlanPerWorkload(x, intents, n - 1, k);
      if NameOf(x.observations[n - 1]) == k {
        ObservedName(x.observations, n - 1, k);
        assert ObservationOf(x.observations, n - 1, k).None?;
      }
    }
  }

  /** Every planned action belongs to an intent that the run wrote, and carries the run's window. */
  lemma {:induction false} ActionsComeFromWrites(x: Inputs, intents: map<Name, Intent>, n: nat, j: nat) returns (m: nat)
    requires DistinctNames(x.observations) && n <= |x.observations| && j < |PlanAfter(x, intents, n).actions|
    ensures m < n && Writes(x, x.observations[m], Lookup(intents, NameOf(x.observations[m])))
    ensures PlanAfter(x, intents, n).actions[j]
            in ActionsFor(x.policies[NameOf(x.observations[m])], NewIntent(x, x.observations[m]), Window(x.now))
  {
    hide ActionsFor, NewIntent, Skips;
    var before := PlanAfter(x, intents, n - 1);
    if j < |before.actions| {
      m := ActionsComeFromWrites(x, intents, n - 1, j);
    } else {
      m := n - 1;
      PlanPerWorkload(x, intents, n - 1, NameOf(x.observations[m]));
      ObservedName(x.observations, n - 1, NameOf(x.observations[m]));
      var s := ActionsFor(x.policies[NameOf(x.observations[m])], NewIntent(x, x.observations[m]), Window(x.now));
      assert PlanAfter(x, intents, n).actions[j] == s[j - |before.actions|];
    }
  }

  // ---- anti-flap ---------------------------------------------------------

  /** An intent is replaced only by a target at least 2 away, after the cooldown, so its time stamp never goes back. */
  lemma OverwriteRule(x: Inputs, k: Name, current: Option<Intent>)
    requires WritesFor(x, |x.observations|, k, current)
    ensures var next := NextIntent(x, |x.observations|, k, current).value;
            && k in x.policies && next.updatedAt == x.now
            && (current.Some? ==>
                  && AbsDiff(next.targetConcurrency, current.value.targetConcurrency) >= 2
                  && x.now >= current.value.updatedAt + x.policies[k].cooldownSeconds)
  {
    hide BuildIntent, Threshold;
    ObservedName(x.observations, |x.observations|, k);
    NewIntentFacts(x, ObservationOf(x.observations, |x.observations|, k).value);
  }

  lemma NewIntentFacts(x: Inputs, o: Observation)
    requires NameOf(o) in x.policies
    ensures var i := NewIntent(x, o);
            && i.updatedAt == x.now && i.tenant == o.tenant && i.workload == o.workload
            && i.targetConcurrency == Target(o, x.policies[NameOf(o)], Lookup(x.slos, NameOf(o)))
  {
    hide Target, DesiredUnits, BurstMem, PoolMin, PoolMax, PoolTarget, BurstCpu;
  }

  /** The intent of `k` after the first `n` runs of a history. */
  ghost function IntentAfter(xs: seq<Inputs>, n: nat, k: Name, start: Option<Intent>): Option<Intent>
    requires n <= |xs|
  {
    if n == 0 then start
    else NextIntent(xs[n - 1], |xs[n - 1].observations|, k, IntentAfter(xs, n - 1, k, start))
  }

  /** The clock readings of the runs that wrote the intent of `k`. */
  ghost function WriteTimes(xs: seq<Inputs>, n: nat, k: Name, start: Option<Intent>): seq<nat>
    requires n <= |xs|
  {
    if n == 0 then []
    else
      var x, earlier := xs[n - 1], WriteTimes(xs, n - 1, k, start);
      if WritesFor(x, |x.observations|, k, IntentAfter(xs, n - 1, k, start)) then earlier + [x.now] else earlier
  }

  /** Whatever the clock does, the time stamp of an intent never decreases. */
  lemma {:induction false} UpdatedAtMonotone(xs: seq<Inputs>, m: nat, n: nat, k: Name, start: Option<Intent>)
    requires m <= n <= |xs| && IntentAfter(xs, m, k, start).Some?
    ensures IntentAfter(xs, n, k, start).Some?
    ensures IntentAfter(xs, m, k, start).value.updatedAt <= IntentAfter(xs, n, k, start).value.updatedAt
  {
    hide Writes, NewIntent;
    if m < n {
      UpdatedAtMonotone(xs, m, n - 1, k, start);
      var x, current := xs[n - 1], IntentAfter(xs, n - 1, k, start);
      if WritesFor(x, |x.observations|, k, current) {
        OverwriteRule(x, k, current);
      }
    }
  }

  ghost predicate CooldownAtLeast(xs: seq<Inputs>, k: Name, c: nat) {
    forall i :: 0 <= i < |xs| && k in xs[i].policies ==> xs[i].policies[k].cooldownSeconds >= c
  }

  /** Writes of one workload are at least a cooldown apart, and the last one is the intent's time stamp. */
  lemma {:induction false} WritesAreSpaced(xs: seq<Inputs>, n: nat, k: Name, start: Option<Intent>, c: nat)
    requires n <= |xs| && CooldownAtLeast(xs, k, c)
    ensures var w := WriteTimes(xs, n, k, start);
            && (w != [] ==> IntentAfter(xs, n, k, start).Some? && IntentAfter(xs, n, k, start).value.updatedAt == w[|w| - 1])
            && (forall i :: 0 <= i < |w| - 1 ==> w[i] + c <= w[i + 1])
  {
    hide Writes, NewIntent;
    if n > 0 {
      WritesAreSpaced(xs, n - 1, k, start, c);
      var x, current := xs[n - 1], IntentAfter(xs, n - 1, k, start);
      if WritesFor(x, |x.observations|, k, current) {
        OverwriteRule(x, k, current);
      }
    }
  }

  lemma {:induction false} SpacedSpan(w: seq<nat>, c: nat, i: nat, j: nat)
    requires i <= j < |w| && forall l :: 0 <= l < |w| - 1 ==> w[l] + c <= w[l + 1]
    ensures w[i] + (j - i) * c <= w[j]
  {
    if i < j {
      SpacedSpan(w, c, i, j - 1);
      assert w[j - 1] + c <= w[j - 1 + 1];
      assert (j - i) * c == (j - 1 - i) * c + c;
    }
  }

  /** Writes of one workload inside any span of time number at most one plus the span over the cooldown. */
  lemma WritesBounded(xs: seq<Inputs>, k: Name, start: Option<Intent>, c: nat, i: nat, j: nat)
    requires CooldownAtLeast(xs, k, c) && c > 0
    requires i <= j < |WriteTimes(xs, |xs|, k, start)|
    ensures var w := WriteTimes(xs, |xs|, k, start);
            w[i] <= w[j] && j - i + 1 <= 1 + (w[j] - w[i]) / c
  {
    hide WriteTimes, IntentAfter, CooldownAtLeast;
    WritesAreSpaced(xs, |xs|, k, start, c);
    var w := WriteTimes(xs, |xs|, k, start);
    SpacedSpan(w, c, i, j);
    DivisionBound(j - i, w[j] - w[i], c);
  }

  lemma DivisionBound(m: nat, span: int, c: nat)
    requires c > 0 && m * c <= span
    ensures m <= span / c
  {
    assert span / c * c + span % c == span;
    assert m * c < (span / c + 1) * c;
  }

  /** The intent table after the first `n` runs. */
  ghost function IntentsAfter(xs: seq<Inputs>, n: nat, start: map<Name, Intent>): map<Name, Intent>
    requires n <= |xs|
  {
    if n == 0 then start else FullPlan(xs[n - 1], IntentsAfter(xs, n - 1, start)).intents
  }

  /** The intent table develops, workload by workload, as the histories above say. */
  lemma {:induction false} HistoryPerWorkload(xs: seq<Inputs>, n: nat, start: map<Name, Intent>, k: Name)
    requires n <= |xs| && forall i :: 0 <= i < |xs| ==> DistinctNames(xs[i].observations)
    ensures Lookup(IntentsAfter(xs, n, start), k) == IntentAfter(xs, n, k, Lookup(start, k))
  {
    hide NextIntent, PlanAfter;
    if n > 0 {
      HistoryPerWorkload(xs, n - 1, start, k);
      PlanPerWorkload(xs[n - 1], IntentsAfter(xs, n - 1, start), |xs[n - 1].observations|, k);
    }
  }

  // ---- settling ----------------------------------------------------------

  /** In every run the workload's observation, policy and SLO are the same; node groups may change. */
  ghost predicate Steady(xs: seq<Inputs>, k: Name, o: Observation, p: Policy, s: Option<Slo>) {
    forall i :: 0 <= i < |xs| ==>
      && ObservationOf(xs[i].observations, |xs[i].observations|, k) == Some(o)
      && k in xs[i].policies && xs[i].policies[k] == p && Lookup(xs[i].slos, k) == s
  }

  /** Under steady inputs any number of runs writes the intent at most once. */
  lemma {:induction false} Settles(xs: seq<Inputs>, n: nat, k: Name, start: Option<Intent>, o: Observation, p: Policy, s: Option<Slo>)
    requires n <= |xs| && Steady(xs, k, o, p, s)
    ensures |WriteTimes(xs, n, k, start)| <= 1
    ensures WriteTimes(xs, n, k, start) != [] ==>
              IntentAfter(xs, n, k, start).Some? && IntentAfter(xs, n, k, start).value.targetConcurrency == Target(o, p, s)
  {
    hide Target, BuildIntent, Threshold;
    if n > 0 {
      Settles(xs, n - 1, k, start, o, p, s);
      var x := xs[n - 1];
      assert ObservationOf(x.observations, |x.observations|, k) == Some(o);
      ObservedName(x.observations, |x.observations|, k);
      NewIntentFacts(x, o);
    }
  }
}
