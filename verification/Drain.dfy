/**
  With no new decisions the table drains: every cycle past all deadlines lowers a measure, and
  enough such cycles leave no live row.
 */
module Drain {
  import opened FiniteSets
  import opened Vocabulary
  import opened ActionTable
  import opened Dispatch
  import opened DispatchRuns
  import opened DispatchSafety
  import opened Dispatcher

  function LiveIds(t: Table): set<string> {
    set id | id in t && Live(t[id])
  }

  function LiveWithRollback(t: Table): set<string> {
    set id | id in t && Live(t[id]) && t[id].action.rollback.Some?
  }

  /** The sum over live rows of one, plus one more for a row that still has a rollback. */
  function Weight(t: Table): nat {
    |LiveIds(t)| + |LiveWithRollback(t)|
  }

  /** Processing that is late enough and loses no database write. */
  predicate Expires(r: Row, e: Env) {
    TtlExpired(r, e.start) && e.writes >= 3
  }

  lemma SetWithout(a: set<string>, x: string, b: set<string>)
    requires x in a && b <= a - {x}
    ensures |b| + 1 <= |a|
  {
    assert a == (a - {x}) + {x};
    SubsetSize(b, a - {x});
  }

  lemma SetReplaced(a: set<string>, x: string, y: string, b: set<string>)
    requires x in a && b <= a - {x} + {y}
    ensures |b| <= |a|
  {
    SubsetSize(b, a - {x} + {y});
    SubsetSize(a - {x} + {y}, a - {x} + {y});
    assert |a - {x}| + 1 == |a| by { assert a == (a - {x}) + {x}; }
    if y in a - {x} {
      assert a - {x} + {y} == a - {x};
    } else {
      assert |a - {x} + {y}| == |a - {x}| + 1;
    }
  }

  /** The outcome for an expired candidate: a failed row, and its rollback if it has one. */
  lemma ExpiredOutcome(w: World, c: Candidate, e: Env)
    requires Expires(c.row, e)
    requires c.row.action.rollback.Some? ==> EnqueueSucceeds(w.table, e.newId, RollbackOf(c, e.finish))
    ensures var o := OutcomeOf(w, c, e);
            && o.goOn && o.post.None? && o.row.status == Failed && SameDecision(c.row, o.row)
            && (o.spawn.Some? <==> c.row.action.rollback.Some?)
            && (o.spawn.Some? ==> o.spawn.value == RollbackOf(c, e.finish))
  {
    hide EnqueueSucceeds, RollbackOf, Send, Poll, Disown;
  }

  lemma ReplacedRowLowersWeight(t: Table, id: string, t': Table, newId: string)
    requires id in t && Live(t[id]) && t[id].action.rollback.Some? && newId !in t
    requires forall i :: i in t' ==> i == newId || (i in t && (i != id ==> t'[i] == t[i]))
    requires id in t' && !Live(t'[id]) && (newId in t' ==> t'[newId].action.rollback.None?)
    ensures Weight(t') + 1 <= Weight(t)
  {
    hide Live;
    assert id in LiveIds(t) && id in LiveWithRollback(t);
    assert LiveIds(t') <= LiveIds(t) - {id} + {newId};
    SetReplaced(LiveIds(t), id, newId, LiveIds(t'));
    assert LiveWithRollback(t') <= LiveWithRollback(t) - {id};
    SetWithout(LiveWithRollback(t), id, LiveWithRollback(t'));
  }

  lemma FinishedRowLowersWeight(t: Table, id: string, t': Table)
    requires id in t && Live(t[id]) && id in t' && !Live(t'[id])
    requires forall i :: i in t' ==> i in t && (i != id ==> t'[i] == t[i])
    ensures Weight(t') + 1 <= Weight(t)
  {
    hide Live;
    assert id in LiveIds(t);
    SetWithout(LiveIds(t), id, LiveIds(t'));
    assert LiveWithRollback(t') <= LiveWithRollback(t);
    SubsetSize(LiveWithRollback(t'), LiveWithRollback(t));
  }

  /** Expiring one candidate lowers the weight, and leaves every other live row as it was. */
  lemma ExpiryLowersWeight(w: World, c: Candidate, e: Env)
    requires Current(w.table, c) && Live(c.row) && Expires(c.row, e)
    requires e.newId !in w.table
    ensures OutcomeOf(w, c, e).goOn
    ensures var t' := Process(w, c, e).table;
            && Weight(t') + 1 <= Weight(w.table)
            && (forall id :: id in w.table && id != c.id ==> id in t' && t'[id] == w.table[id])
            && t'.Keys <= w.table.Keys + {e.newId}
  {
    hide OutcomeOf, RollbackOf, KeyOf, FreshRow, Weight;
    ExpiredOutcome(w, c, e);
    var o, t, t' := OutcomeOf(w, c, e), w.table, Process(w, c, e).table;
    if o.spawn.Some? {
      RollbackHasNone(c, e.finish);
      ReplacedRowLowersWeight(t, c.id, t', e.newId);
    } else {
      FinishedRowLowersWeight(t, c.id, t');
    }
  }

  lemma RollbackHasNone(c: Candidate, now: nat)
    requires c.row.action.rollback.Some?
    ensures FreshRow(RollbackOf(c, now), now).action.rollback.None?
    ensures Live(FreshRow(RollbackOf(c, now), now))
  {
    hide KeyOf;
  }

  /** UUIDs drawn in a cycle are new and distinct. */
  predicate FreshIds(t: Table, envs: seq<Env>) {
    && (forall i :: 0 <= i < |envs| ==> envs[i].newId !in t)
    && (forall i, j :: 0 <= i < j < |envs| ==> envs[i].newId != envs[j].newId)
  }

  lemma {:induction false} ExpiringAllLowersWeight(w: World, list: seq<Candidate>, envs: seq<Env>)
    requires |list| == |envs| && DistinctCandidates(list) && FreshIds(w.table, envs)
    requires forall i :: 0 <= i < |list| ==> Current(w.table, list[i]) && Live(list[i].row) && Expires(list[i].row, envs[i])
    ensures ProcessAll(w, list, envs).1
    ensures Weight(ProcessAll(w, list, envs).0.table) + |list| <= Weight(w.table)
    decreases |list|
  {
    hide Process, Weight, Expires, OutcomeOf, Live;
    if list != [] {
      var c, e, rest, envs' := list[0], envs[0], list[1..], envs[1..];
      ExpiryLowersWeight(w, c, e);
      var w' := Process(w, c, e);
      forall i | 0 <= i < |rest| ensures Current(w'.table, rest[i]) && Live(rest[i].row) && Expires(rest[i].row, envs'[i]) {
        assert rest[i] == list[i + 1] && envs'[i] == envs[i + 1];
        assert Current(w.table, list[i + 1]) && list[i + 1].id != c.id;
      }
      forall i | 0 <= i < |envs'| ensures envs'[i].newId !in w'.table {
        assert envs'[i] == envs[i + 1];
      }
      ExpiringAllLowersWeight(w', rest, envs');
    }
  }

  /** A cycle past the TTL and the retry time of every live row, with no write lost and new UUIDs. */
  ghost predicate LateCycle(w: World, now: nat, list: seq<Candidate>, envs: seq<Env>) {
    && Selected(w.table, now, list) && |envs| == |list| && FreshIds(w.table, envs)
    && (forall id :: id in w.table && Live(w.table[id]) ==> w.table[id].nextRetryAt <= now)
    && (forall id, i :: id in w.table && Live(w.table[id]) && 0 <= i < |envs| ==> Expires(w.table[id], envs[i]))
  }

  /** Such a cycle completes and lowers the weight by the size of its batch. */
  lemma LateCycleLowersWeight(w: World, now: nat, list: seq<Candidate>, envs: seq<Env>)
    requires LateCycle(w, now, list, envs)
    ensures var live := |LiveIds(w.table)|;
            && ProcessAll(w, list, envs).1
            && Weight(ProcessAll(w, list, envs).0.table)
               + (if live < MAX_DISPATCH_BATCH then live else MAX_DISPATCH_BATCH) <= Weight(w.table)
  {
    hide Expires, Live, Weight, Process, ProcessAll;
    assert DueIds(w.table, now) == LiveIds(w.table) by {
      DueIsLive(w.table, now);
    }
    forall i | 0 <= i < |list| ensures Current(w.table, list[i]) && Live(list[i].row) && Expires(list[i].row, envs[i]) {
      assert Current(w.table, list[i]) && Due(list[i].row, now);
    }
    ExpiringAllLowersWeight(w, list, envs);
  }

  lemma DueIsLive(t: Table, now: nat)
    requires forall id :: id in t && Live(t[id]) ==> t[id].nextRetryAt <= now
    ensures DueIds(t, now) == LiveIds(t)
  {
    hide Live;
  }

  datatype LateRun = LateRun(now: nat, list: seq<Candidate>, envs: seq<Env>)

  /** A sequence of late cycles, each starting from the world the one before left. */
  ghost predicate LateCycles(w: World, cycles: seq<LateRun>)
    decreases |cycles|
  {
    cycles != [] ==>
      && LateCycle(w, cycles[0].now, cycles[0].list, cycles[0].envs)
      && LateCycles(ProcessAll(w, cycles[0].list, cycles[0].envs).0, cycles[1..])
  }

  ghost function AfterCycles(w: World, cycles: seq<LateRun>): World
    requires LateCycles(w, cycles)
    decreases |cycles|
  {
    if cycles == [] then w else AfterCycles(ProcessAll(w, cycles[0].list, cycles[0].envs).0, cycles[1..])
  }

  lemma WeightZeroIff(t: Table)
    ensures LiveIds(t) == {} <==> Weight(t) == 0
  {
    assert LiveWithRollback(t) <= LiveIds(t);
  }

  /** As many late cycles as the weight of the table leave no live row, rollbacks included. */
  lemma {:induction false} TableDrains(w: World, cycles: seq<LateRun>)
    requires LateCycles(w, cycles) && |cycles| >= Weight(w.table)
    ensures LiveIds(AfterCycles(w, cycles).table) == {}
    decreases |cycles|
  {
    hide Weight, ProcessAll, Selected, FreshIds, Expires, Live;
    WeightZeroIff(w.table);
    if cycles != [] {
      LateCycleLowersWeight(w, cycles[0].now, cycles[0].list, cycles[0].envs);
      var w' := ProcessAll(w, cycles[0].list, cycles[0].envs).0;
      assert LiveIds(w.table) != {} ==> |LiveIds(w.table)| > 0;
      TableDrains(w', cycles[1..]);
    }
  }

  // ---- such cycles exist and are cycles of the transition system ------------

  /** The candidate query always has an answer. */
  lemma SelectionExists(t: Table, now: nat) returns (list: seq<Candidate>)
    ensures Selected(t, now, list)
  {
    var n := if |DueIds(t, now)| < MAX_DISPATCH_BATCH then |DueIds(t, now)| else MAX_DISPATCH_BATCH;
    list := OldestFirst(t, now, n);
  }

  /** No row outside the list is older than one inside. */
  ghost predicate NoneOlderOmitted(t: Table, now: nat, list: seq<Candidate>) {
    forall id :: id in DueIds(t, now) && (forall i :: 0 <= i < |list| ==> list[i].id != id) ==>
      forall i :: 0 <= i < |list| ==> list[i].row.createdAt <= t[id].createdAt
  }

  /** The `n` oldest of the due rows. */
  lemma {:induction false} OldestFirst(t: Table, now: nat, n: nat) returns (list: seq<Candidate>)
    requires n <= |DueIds(t, now)|
    ensures |list| == n && DistinctCandidates(list)
    ensures forall i :: 0 <= i < |list| ==> Current(t, list[i]) && Due(list[i].row, now)
    ensures ByAge(list) && NoneOlderOmitted(t, now, list)
  {
    hide Due, ByAge, DistinctCandidates;
    if n == 0 {
      list := [];
      EmptyByAge();
    } else {
      var shorter := OldestFirst(t, now, n - 1);
      var taken := set i | 0 <= i < |shorter| :: shorter[i].id;
      TakenSize(shorter, taken);
      Leftover(DueIds(t, now), taken);
      var left := DueIds(t, now) - taken;
      var id := Oldest(t, left);
      forall i | 0 <= i < |shorter| ensures shorter[i].id != id {
        assert shorter[i].id in taken;
      }
      list := shorter + [Candidate(id, t[id])];
      assert Due(t[id], now);
      AppendNewest(shorter, Candidate(id, t[id])) by {
        assert forall i :: 0 <= i < |shorter| ==> shorter[i].id != id;
      }
      OneMoreOldest(t, now, shorter, id, left);
    }
  }

  predicate ByAge(list: seq<Candidate>) {
    forall i, j :: 0 <= i < j < |list| ==> list[i].row.createdAt <= list[j].row.createdAt
  }

  lemma EmptyByAge()
    ensures DistinctCandidates([]) && ByAge([])
  {
  }

  lemma AppendNewest(list: seq<Candidate>, c: Candidate)
    requires DistinctCandidates(list) && ByAge(list)
    requires forall i :: 0 <= i < |list| ==> list[i].id != c.id && list[i].row.createdAt <= c.row.createdAt
    ensures DistinctCandidates(list + [c]) && ByAge(list + [c])
  {
  }

  lemma OneMoreOldest(t: Table, now: nat, list: seq<Candidate>, id: string, left: set<string>)
    requires NoneOlderOmitted(t, now, list) && id in left && id in t && left <= t.Keys
    requires forall x :: x in DueIds(t, now) && (forall i :: 0 <= i < |list| ==> list[i].id != x) ==> x in left
    requires forall x :: x in left ==> t[id].createdAt <= t[x].createdAt
    ensures NoneOlderOmitted(t, now, list + [Candidate(id, t[id])])
  {
    var longer := list + [Candidate(id, t[id])];
    forall x, i | x in DueIds(t, now) && (forall j :: 0 <= j < |longer| ==> longer[j].id != x) && 0 <= i < |longer|
      ensures longer[i].row.createdAt <= t[x].createdAt
    {
      assert forall j :: 0 <= j < |list| ==> longer[j] == list[j];
      assert x in left;
    }
  }

  lemma Leftover(a: set<string>, b: set<string>)
    requires |b| < |a|
    ensures a - b != {}
  {
    SubsetSize(a * b, b);
    assert a == (a - b) + (a * b);
    assert a - b == {} ==> a == a * b;
  }

  lemma {:induction false} TakenSize(list: seq<Candidate>, taken: set<string>)
    requires DistinctCandidates(list) && taken == set i | 0 <= i < |list| :: list[i].id
    ensures |taken| == |list|
  {
    if list != [] {
      var m := |list| - 1;
      var before := set i | 0 <= i < m :: list[..m][i].id;
      TakenSize(list[..m], before);
      assert forall i :: 0 <= i < m ==> list[..m][i] == list[i];
      assert taken == before + {list[m].id};
    }
  }

  lemma {:induction false} Oldest(t: Table, ids: set<string>) returns (id: string)
    requires ids != {} && ids <= t.Keys
    ensures id in ids && forall x :: x in ids ==> t[id].createdAt <= t[x].createdAt
  {
    var y :| y in ids;
    if ids == {y} {
      id := y;
    } else {
      assert ids == {y} + (ids - {y});
      var z := Oldest(t, ids - {y});
      id := if t[y].createdAt <= t[z].createdAt then y else z;
    }
  }

  /** A time past every deadline of a table. */
  lemma {:induction false} LateTime(t: Table, ids: set<string>) returns (now: nat)
    requires ids <= t.Keys
    ensures forall id :: id in ids ==> t[id].nextRetryAt <= now && t[id].effectiveAt + t[id].action.ttl < now
  {
    if ids == {} {
      now := 0;
    } else {
      var x :| x in ids;
      var rest := LateTime(t, ids - {x});
      now := rest + t[x].nextRetryAt + t[x].effectiveAt + t[x].action.ttl + 1;
    }
  }

  /** A length that no given id reaches. */
  lemma {:induction false} LongerThanAll(ids: set<string>) returns (n: nat)
    ensures forall id :: id in ids ==> |id| < n
  {
    if ids == {} {
      n := 0;
    } else {
      var x :| x in ids;
      var rest := LongerThanAll(ids - {x});
      n := rest + |x| + 1;
    }
  }

  function LateEnv(now: nat, idLength: nat): Env {
    Env(now, now, false, NoReply, false, 3, seq(idLength, i => 'x'))
  }

  /** Every world has a late cycle. */
  lemma LateCycleExists(w: World) returns (r: LateRun)
    ensures LateCycle(w, r.now, r.list, r.envs)
  {
    hide Live, Selected;
    var now := LateTime(w.table, w.table.Keys);
    var n := LongerThanAll(w.table.Keys);
    var list := SelectionExists(w.table, now);
    var envs := seq(|list|, i requires 0 <= i < |list| => LateEnv(now, n + i));
    forall i | 0 <= i < |envs|
      ensures |envs[i].newId| == n + i && envs[i].start == now && envs[i].writes == 3
    {
      assert envs[i] == LateEnv(now, n + i);
    }
    forall i, j | 0 <= i < j < |envs|
      ensures envs[i].newId != envs[j].newId
    {
      assert |envs[i].newId| != |envs[j].newId|;
    }
    r := LateRun(now, list, envs);
  }

  lemma {:induction false} LateCyclesExist(w: World, n: nat) returns (cycles: seq<LateRun>)
    ensures |cycles| == n && LateCycles(w, cycles)
    decreases n
  {
    hide LateCycle, ProcessAll;
    if n == 0 {
      cycles := [];
    } else {
      var first := LateCycleExists(w);
      assert |first.list| == |first.envs| by { LateCycleLengths(w, first); }
      var rest := LateCyclesExist(ProcessAll(w, first.list, first.envs).0, n - 1);
      cycles := [first] + rest;
      assert cycles[1..] == rest;
    }
  }

  lemma LateCycleLengths(w: World, r: LateRun)
    requires LateCycle(w, r.now, r.list, r.envs)
    ensures |r.list| == |r.envs|
  {}

  /** So every world has a sequence of cycles that leaves no live row. */
  lemma EveryTableCanDrain(w: World) returns (cycles: seq<LateRun>)
    ensures LateCycles(w, cycles) && LiveIds(AfterCycles(w, cycles).table) == {}
  {
    hide LateCycles, Weight;
    cycles := LateCyclesExist(w, Weight(w.table));
    TableDrains(w, cycles);
  }

  // ---- the weight never grows --------------------------------------------

  /** Processing a live candidate never raises the weight, whatever replies and writes are lost. */
  lemma HandleKeepsWeight(w: World, c: Candidate, e: Env)
    requires KeysUnique(w.table) && Current(w.table, c) && Live(c.row) && Coherent(c.row) && Speaks(c, e)
    ensures Weight(Process(w, c, e).table) <= Weight(w.table)
  {
    hide OutcomeOf, RollbackOf, KeyOf, FreshRow, Weight, Coherent, Speaks, HasKey, Live;
    OutcomeKeeps(w, c, e);
    var o, t, t' := OutcomeOf(w, c, e), w.table, Process(w, c, e).table;
    if o.spawn.Some? {
      SpawnIsRollback(w, c, e);
      FailedIsNotLive(o.row);
      RollbackHasNone(c, e.finish);
      if e.newId in t' && e.newId !in t {
        ReplacedRowLowersWeight(t, c.id, t', e.newId);
      } else {
        FinishedRowLowersWeight(t, c.id, t');
      }
    } else {
      UpdatedRowKeepsWeight(t, c.id, t');
    }
  }

  lemma FailedIsNotLive(r: Row)
    requires r.status == Failed
    ensures !Live(r)
  {}

  lemma UpdatedRowKeepsWeight(t: Table, id: string, t': Table)
    requires id in t && Live(t[id]) && id in t' && t'[id].action == t[id].action
    requires forall i :: i in t' ==> i in t && (i != id ==> t'[i] == t[i])
    ensures Weight(t') <= Weight(t)
  {
    hide Live;
    assert LiveIds(t') <= LiveIds(t) && LiveWithRollback(t') <= LiveWithRollback(t);
    SubsetSize(LiveIds(t'), LiveIds(t));
    SubsetSize(LiveWithRollback(t'), LiveWithRollback(t));
  }

  lemma StepKeepsWeight(s: State, l: Label, s': State)
    requires Inv(s) && Next(s, l, s') && !l.Decide?
    ensures Weight(s'.world.table) <= Weight(s.world.table)
  {
    hide Process, Weight, Coherent, Speaks, Rooted, Asked, KeysUnique, OutcomeOf, Selected, Live, DistinctEffects;
    match l
    case Handle(e) =>
      CurrentIsCoherent(s.world.table, s.control.queue[0]);
      HandleKeepsWeight(s.world, s.control.queue[0], e);
    case _ =>
  }

  /** In any run, between new decisions the weight never grows, whatever replies and writes are lost. */
  lemma {:induction false} WeightNeverGrows(run: seq<State>, labels: seq<Label>, i: nat, j: nat)
    requires IsRun(run, labels) && i <= j < |run| && forall k :: i <= k < j ==> !labels[k].Decide?
    ensures Weight(run[j].world.table) <= Weight(run[i].world.table)
    decreases j
  {
    hide Next, Inv, Weight, Init;
    if i < j {
      WeightNeverGrows(run, labels, i, j - 1);
      InvHolds(run, labels, j - 1);
      StepKeepsWeight(run[j - 1], labels[j - 1], run[j]);
    }
  }

  /** A cycle of the dispatcher's procedure is a sequence of steps of the transition system, so it keeps the invariant. */
  lemma {:induction false} CycleKeepsInv(w: World, clock: nat, list: seq<Candidate>, envs: seq<Env>)
    requires |list| == |envs| && Inv(State(w, clock, Cycle(list)))
    requires forall i :: 0 <= i < |list| ==> Speaks(list[i], envs[i])
    ensures Inv(State(ProcessAll(w, list, envs).0, clock, Idle))
    decreases |list|
  {
    hide OutcomeOf, Speaks, Coherent, KeysUnique, Rooted, Asked, Current, Live, Process;
    if list != [] {
      var c, e := list[0], envs[0];
      var s := State(w, clock, Cycle(list));
      var w' := Process(w, c, e);
      var s' := State(w', e.finish, if OutcomeOf(w, c, e).goOn then Cycle(list[1..]) else Idle);
      assert Next(s, Handle(e), s');
      HandleKeepsInv(s, e, s');
      if OutcomeOf(w, c, e).goOn {
        forall i | 0 <= i < |list[1..]| ensures Speaks(list[1..][i], envs[1..][i]) {
          assert list[1..][i] == list[i + 1] && envs[1..][i] == envs[i + 1];
        }
        assert Inv(State(w', clock, Cycle(list[1..])));
        CycleKeepsInv(w', clock, list[1..], envs[1..]);
      }
    }
  }
}
