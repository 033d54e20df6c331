/** The slow loop: scaling actions for node groups, at most one of each kind per 120-second window. */
module SlowLoop {
  import opened Wrappers
  import opened Json
  import opened JsonText
  import opened Vocabulary
  import opened IdempotencyKey
  import opened ActionTable
  import opened Requests
  import opened FastLoopMath
  import opened Database
  import opened FastLoop
  import opened FreshRows

  function Utilization(g: GroupObservation): real {
    if g.capacityUnits == 0 then 0.0 else g.usedUnits as real / g.capacityUnits as real
  }

  function SlowWindow(now: nat): nat {
    DecisionWindowStart(now, SLOW_LOOP_SECONDS)
  }

  function ScalePayload(nodeGroup: string): Json {
    Obj([Member("node_group", Str(nodeGroup)), Member("delta_units", Num(1))])
  }

  function ScaleAction(kind: ActionType, nodeGroup: string, window: int): NewAction {
    NewAction(PLATFORM_TENANT_ID, nodeGroup, kind, ScalePayload(nodeGroup), SLOW_LOOP_SECONDS, window, None, None)
  }

  function GroupActions(g: GroupObservation, window: int): seq<NewAction> {
    if Utilization(g) > 0.80 then [ScaleAction(ScaleNodeGroupUp, g.nodeGroup, window)]
    else if Utilization(g) < 0.35 && g.warmReady > 0 then [ScaleAction(ScaleNodeGroupDown, g.nodeGroup, window)]
    else []
  }

  function SlowPlan(groups: seq<GroupObservation>, n: nat, window: int): seq<NewAction>
    requires n <= |groups|
  {
    if n == 0 then [] else SlowPlan(groups, n - 1, window) + GroupActions(groups[n - 1], window)
  }

  /** One run in one transaction; a draw for every group is enough. */
  method RunSlowLoop(db: OrchestratorDb, now: nat, draws: seq<Draw>)
    requires |db.groups| <= |draws|
    modifies db`rows
    ensures |SlowPlan(db.groups, |db.groups|, SlowWindow(now))| <= |draws|
    ensures db.rows == Inserted(old(db.rows), SlowPlan(db.groups, |db.groups|, SlowWindow(now)), draws)
  {
    hide Inserted, ScalePayload, Utilization, Enqueue;
    var groups := db.groups;
    var window := SlowWindow(now);
    var used: nat := 0;
    EmptyInsertion(db.rows, draws);
    for n := 0 to |groups|
      invariant used == |SlowPlan(groups, n, window)| <= n
      invariant db.rows == Inserted(old(db.rows), SlowPlan(groups, n, window), draws)
    {
      var g := groups[n];
      ghost var before := SlowPlan(groups, n, window);
      if Utilization(g) > 0.80 {
        EnqueueNext(db, old(db.rows), before, ScaleAction(ScaleNodeGroupUp, g.nodeGroup, window), draws, used);
        used := used + 1;
      } else if Utilization(g) < 0.35 && g.warmReady > 0 {
        EnqueueNext(db, old(db.rows), before, ScaleAction(ScaleNodeGroupDown, g.nodeGroup, window), draws, used);
        used := used + 1;
      } else {
        assert before + [] == before;
      }
    }
  }

  // ---- one run -----------------------------------------------------------

  predicate IsScale(kind: ActionType) {
    kind == ScaleNodeGroupUp || kind == ScaleNodeGroupDown
  }

  predicate DistinctGroups(groups: seq<GroupObservation>) {
    forall i, j :: 0 <= i < j < |groups| ==> groups[i].nodeGroup != groups[j].nodeGroup
  }

  lemma {:induction false} PlanComesFromGroups(groups: seq<GroupObservation>, n: nat, window: int, j: nat) returns (m: nat)
    requires n <= |groups| && j < |SlowPlan(groups, n, window)|
    ensures m < n && GroupActions(groups[m], window) == [SlowPlan(groups, n, window)[j]]
  {
    hide Utilization, ScalePayload;
    if j < |SlowPlan(groups, n - 1, window)| {
      m := PlanComesFromGroups(groups, n - 1, window, j);
    } else {
      m := n - 1;
    }
  }

  /** The condition under which a group is scaled in one direction: over 80 percent used, or under 35 percent with warm capacity. */
  predicate Wants(g: GroupObservation, kind: ActionType) {
    if kind == ScaleNodeGroupUp then g.capacityUnits > 0 && 5 * g.usedUnits > 4 * g.capacityUnits
    else g.warmReady > 0 && (g.capacityUnits == 0 || 20 * g.usedUnits < 7 * g.capacityUnits)
  }

  lemma WantsMeans(g: GroupObservation)
    ensures Wants(g, ScaleNodeGroupUp) <==> Utilization(g) > 0.80
    ensures Wants(g, ScaleNodeGroupDown) <==> Utilization(g) < 0.35 && g.warmReady > 0
  {
    if g.capacityUnits > 0 {
      ShareMeans(g.usedUnits, g.capacityUnits);
    }
  }

  lemma ShareMeans(used: nat, capacity: nat)
    requires capacity > 0
    ensures used as real / capacity as real > 0.80 <==> 5 * used > 4 * capacity
    ensures used as real / capacity as real < 0.35 <==> 20 * used < 7 * capacity
  {
    QuotientMeans(used as real, capacity as real, 0.80);
    QuotientMeans(used as real, capacity as real, 0.35);
  }

  lemma QuotientMeans(u: real, c: real, k: real)
    requires c > 0.0
    ensures u / c > k <==> u > k * c
    ensures u / c < k <==> u < k * c
  {
    var x := u / c;
    assert x * c == u;
    SameSign(x - k, c);
    assert (x - k) * c == x * c - k * c;
  }

  lemma SameSign(y: real, c: real)
    requires c > 0.0
    ensures y > 0.0 <==> y * c > 0.0
    ensures y < 0.0 <==> y * c < 0.0
  {}

  ghost predicate Scaled(groups: seq<GroupObservation>, n: nat, kind: ActionType, name: string) {
    exists m: nat :: m < n && m < |groups| && groups[m].nodeGroup == name && Wants(groups[m], kind)
  }

  /** A run scales a group up exactly when it is over 80 % used, and down exactly when it is under 35 % with warm capacity left. */
  lemma {:induction false} ScalesIff(groups: seq<GroupObservation>, n: nat, window: int, kind: ActionType, name: string)
    requires n <= |groups| && IsScale(kind)
    ensures ScaleAction(kind, name, window) in SlowPlan(groups, n, window) <==> Scaled(groups, n, kind, name)
  {
    hide Utilization, ScalePayload;
    if n > 0 {
      hide Wants;
      ScalesIff(groups, n - 1, window, kind, name);
      WantsMeans(groups[n - 1]);
    }
  }

  /** One run never scales a group both ways. */
  lemma NeverBothWays(groups: seq<GroupObservation>, window: int, name: string)
    requires DistinctGroups(groups)
    requires ScaleAction(ScaleNodeGroupUp, name, window) in SlowPlan(groups, |groups|, window)
    ensures ScaleAction(ScaleNodeGroupDown, name, window) !in SlowPlan(groups, |groups|, window)
  {
    hide ScaleAction, SlowPlan;
    ScalesIff(groups, |groups|, window, ScaleNodeGroupUp, name);
    ScalesIff(groups, |groups|, window, ScaleNodeGroupDown, name);
  }

  /** A scaling action: the platform's, named after the group, one unit, with the window's length as its ttl. */
  lemma ScaleActionHolds(kind: ActionType, name: string, window: int)
    ensures var a := ScaleAction(kind, name, window);
            && a.tenant == "platform" && a.workload == name && a.kind == kind && a.ttl == 120 && a.window == window
            && a.rollback.None? && a.parent.None?
            && Get(a.payload, "node_group") == Some(Str(name)) && Get(a.payload, "delta_units") == Some(Num(1))
  {
    var ms := ScalePayload(name).members;
    assert "node_group"[0] != "delta_units"[0];
    assert DistinctKeys(ms);
    FindUnique(ms, 0);
    FindUnique(ms, 1);
  }

  /** What is posted for a scaling row: one unit, to the group's trimmed name. */
  lemma ScalePosted(kind: ActionType, name: string, stored: Json, id: string)
    requires IsScale(kind) && ReadBack(stored, ScalePayload(name)) && !Blank(name)
    ensures var r := BuildRequest(id, kind, stored);
            && r.Request? && r.path == "/api/elasticity/control/node-groups/" + Trim(name) + "/scale"
            && HasMembers(r.body, ["delta_units"]) && Get(r.body, "delta_units") == Some(Num(1))
  {
    hide Trim, Blank, Get, Canonical, Print, BuildRequest, HasMembers;
    ScaleStored(name, stored);
    ScaleDispatchable(kind, name, stored, id);
    ScaleRequestHolds(id, kind, stored);
  }

  lemma ScaleStored(name: string, stored: Json)
    requires ReadBack(stored, ScalePayload(name))
    ensures Get(stored, "node_group") == Some(Str(name)) && Get(stored, "delta_units") == Some(Num(1))
  {
    hide Canonical, Print, Get;
    var v := ScalePayload(name);
    assert "node_group"[0] != "delta_units"[0];
    assert |v.members| == 2 && WellFormed(v);
    ReadBackGet(stored, v, 0);
    ReadBackGet(stored, v, 1);
    ScalarsCanonical(name, 1, false);
  }

  // ---- many runs ---------------------------------------------------------

  /** A scaling row is one that the slow loop makes: its key is that action's, and its window is a window of the loop. */
  predicate ScaleRow(r: Row) {
    IsScale(r.action.kind) ==>
      && r.key == KeyOf(ScaleAction(r.action.kind, r.action.workload, r.action.window))
      && r.action.window % SLOW_LOOP_SECONDS == 0
  }

  predicate ScaleRows(t: Table) {
    forall id :: id in t ==> ScaleRow(t[id])
  }

  lemma FreshScaleRow(kind: ActionType, name: string, window: int, now: nat)
    requires window % SLOW_LOOP_SECONDS == 0
    ensures ScaleRow(FreshRow(ScaleAction(kind, name, window), now))
  {
  }

  datatype Run = Run(groups: seq<GroupObservation>, now: nat, draws: seq<Draw>)

  function PlanOf(r: Run): seq<NewAction> {
    SlowPlan(r.groups, |r.groups|, SlowWindow(r.now))
  }

  predicate EnoughDraws(r: Run) {
    |PlanOf(r)| <= |r.draws|
  }

  lemma {:induction false} InsertionKeepsScaleRows(t: Table, calls: seq<Call>, n: nat)
    requires KeysUnique(t) && ScaleRows(t) && n <= |calls|
    requires forall k :: 0 <= k < |calls| ==>
               && calls[k].action == ScaleAction(calls[k].action.kind, calls[k].action.workload, calls[k].action.window)
               && calls[k].action.window % SLOW_LOOP_SECONDS == 0
    ensures KeysUnique(EnqueueFirst(t, calls, n)) && ScaleRows(EnqueueFirst(t, calls, n))
  {
    hide KeyOf, ScaleAction, FreshRow, ScaleRow;
    if n > 0 {
      InsertionKeepsScaleRows(t, calls, n - 1);
      var c := calls[n - 1];
      EnqueueKeeps(EnqueueFirst(t, calls, n - 1), c.id, c.action, c.now);
      FreshScaleRow(c.action.kind, c.action.workload, c.action.window, c.now);
    }
  }

  /** Every planned action is one of the loop's own. */
  lemma PlanOfScales(r: Run, j: nat) returns (m: nat)
    requires j < |PlanOf(r)|
    ensures m < |r.groups| && IsScale(PlanOf(r)[j].kind)
    ensures PlanOf(r)[j] == ScaleAction(PlanOf(r)[j].kind, r.groups[m].nodeGroup, SlowWindow(r.now))
  {
    hide Utilization, ScalePayload, SlowPlan;
    m := PlanComesFromGroups(r.groups, |r.groups|, SlowWindow(r.now), j);
  }

  lemma RunKeepsScaleRows(t: Table, r: Run)
    requires EnoughDraws(r) && KeysUnique(t) && ScaleRows(t)
    ensures ScaleRows(Inserted(t, PlanOf(r), r.draws))
  {
    hide KeyOf, ScaleRow, Utilization, ScalePayload, EnqueueFirst, SlowPlan, PlanOf;
    var calls := Calls(PlanOf(r), r.draws);
    forall k | 0 <= k < |calls|
      ensures calls[k].action == ScaleAction(calls[k].action.kind, calls[k].action.workload, calls[k].action.window)
      ensures calls[k].action.window % SLOW_LOOP_SECONDS == 0
    {
      var m := PlanOfScales(r, k);
      WindowIsMultiple(r.now);
    }
    InsertionKeepsScaleRows(t, calls, |calls|);
  }

  /** The other writers keep it too: they change no decision columns and make no such rows. */
  lemma OthersKeepScaleRows(t: Table, t': Table)
    requires ScaleRows(t)
    requires forall id :: id in t' ==> if id in t then t'[id].action == t[id].action && t'[id].key == t[id].key else !IsScale(t'[id].action.kind)
    ensures ScaleRows(t')
  {
    hide KeyOf, ScaleAction;
    forall id | id in t'
      ensures ScaleRow(t'[id])
    {
      assert id in t ==> ScaleRow(t[id]);
    }
  }

  /** Rows that scale one group one way, decided in windows `lo` to `hi`. */
  function ScalesIn(t: Table, kind: ActionType, name: string, lo: int, hi: int): set<string> {
    set id | id in t && t[id].action.kind == kind && t[id].action.workload == name
             && lo <= t[id].action.window / SLOW_LOOP_SECONDS <= hi
  }

  /** However often the slow loop ran, a group has at most one row of each kind per window. */
  lemma OnePerWindow(t: Table, kind: ActionType, i: string, j: string)
    requires KeysUnique(t) && ScaleRows(t) && IsScale(kind) && i in t && j in t
    requires t[i].action.kind == kind == t[j].action.kind
    requires t[i].action.workload == t[j].action.workload && t[i].action.window == t[j].action.window
    ensures i == j
  {
    hide KeyOf;
    assert ScaleRow(t[i]) && ScaleRow(t[j]);
  }

  lemma {:induction false} AtMostOnePerWindow(t: Table, kind: ActionType, name: string, lo: int, hi: int)
    requires KeysUnique(t) && ScaleRows(t) && IsScale(kind)
    ensures |ScalesIn(t, kind, name, lo, hi)| <= (if lo <= hi then hi - lo + 1 else 0)
    decreases hi - lo
  {
    hide ScaleRows, KeysUnique;
    if lo > hi {
      assert ScalesIn(t, kind, name, lo, hi) == {};
    } else {
      AtMostOnePerWindow(t, kind, name, lo, hi - 1);
      LastWindow(t, kind, name, lo, hi);
    }
  }

  lemma LastWindow(t: Table, kind: ActionType, name: string, lo: int, hi: int)
    requires KeysUnique(t) && ScaleRows(t) && IsScale(kind) && lo <= hi
    ensures |ScalesIn(t, kind, name, lo, hi)| <= |ScalesIn(t, kind, name, lo, hi - 1)| + 1
  {
    hide ScaleRows, KeysUnique;
    var all, rest := ScalesIn(t, kind, name, lo, hi), ScalesIn(t, kind, name, lo, hi - 1);
    var last := all - rest;
    forall i, j | i in last && j in last ensures i == j {
      AlignedRow(t, i);
      AlignedRow(t, j);
      SameQuotient(t[i].action.window, t[j].action.window, hi);
      OnePerWindow(t, kind, i, j);
    }
    AtMostOneElement(last);
    assert all == rest + last;
  }

  lemma AlignedRow(t: Table, id: string)
    requires ScaleRows(t) && id in t && IsScale(t[id].action.kind)
    ensures t[id].action.window % SLOW_LOOP_SECONDS == 0
  {
    hide KeyOf;
    assert ScaleRow(t[id]);
  }

  lemma SameQuotient(a: int, b: int, q: int)
    requires a % SLOW_LOOP_SECONDS == 0 == b % SLOW_LOOP_SECONDS
    requires a / SLOW_LOOP_SECONDS == q == b / SLOW_LOOP_SECONDS
    ensures a == b
  {
  }

  lemma AtMostOneElement(s: set<string>)
    requires forall i, j :: i in s && j in s ==> i == j
    ensures |s| <= 1
  {
    if x :| x in s {
      assert s == {x};
    }
  }

  /** A window the loop uses is the multiple of its length that holds the time of the decision. */
  lemma WindowIsMultiple(now: nat)
    ensures SlowWindow(now) % SLOW_LOOP_SECONDS == 0 && SlowWindow(now) / SLOW_LOOP_SECONDS == now / SLOW_LOOP_SECONDS
  {
  }

  /** A stored scaling payload yields a request exactly when the group's name is not blank. */
  lemma ScaleDispatchable(kind: ActionType, name: string, stored: Json, id: string)
    requires IsScale(kind) && ReadBack(stored, ScalePayload(name))
    ensures BuildRequest(id, kind, stored).Request? <==> !Blank(name)
  {
    hide Blank, Trim, Canonical, Print;
    var v := ScalePayload(name);
    assert "node_group"[0] != "delta_units"[0];
    assert |v.members| == 2 && WellFormed(v);
    ReadBackGet(stored, v, 0);
    ReadBackGet(stored, v, 1);
    ScalarsCanonical(name, 1, false);
  }
}
