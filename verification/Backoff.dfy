/** How often one action can be sent: the bound that backoff and TTL put on recorded POSTs. */
module Backoff {
  import opened Vocabulary
  import opened IdempotencyKey
  import opened ActionTable
  import opened RuntimeReply
  import opened Requests
  import opened Dispatch
  import opened DispatchRuns

  /** Clock readings never go back. */
  predicate ClockForward(s: State, l: Label) {
    match l
    case Decide(_, _, now) => s.clock <= now
    case Begin(now, _) => s.clock <= now
    case Handle(e) => s.clock <= e.start <= e.finish
    case _ => true
  }

  function LeastDelay(attempt: nat): nat {
    if BackoffDelay(attempt) < PRESSURE_DELAY then BackoffDelay(attempt) else PRESSURE_DELAY
  }

  /** The least total delay before attempt number n + 1. */
  function LeastWait(n: nat): nat {
    if n == 0 then 0 else LeastWait(n - 1) + LeastDelay(n)
  }

  lemma LeastDelayValue(n: nat)
    requires n > 0
    ensures LeastDelay(n) == (if n == 1 then 2 else if n == 2 then 4 else if n == 3 then 8 else 15)
    ensures LeastDelay(n) <= BackoffDelay(n) <= 64
  {
    assert Pow2(1) == 2 && Pow2(2) == 4 && Pow2(3) == 8 && Pow2(4) == 16;
    assert Pow2(5) == 2 * Pow2(4) && Pow2(6) == 2 * Pow2(5);
  }

  lemma {:induction false} LeastWaitValue(n: nat)
    ensures n >= 3 ==> LeastWait(n) == 14 + 15 * (n - 3)
    ensures n == 2 ==> LeastWait(n) == 6
    ensures n == 1 ==> LeastWait(n) == 2
  {
    if n > 0 {
      LeastDelayValue(n);
      LeastWaitValue(n - 1);
    }
  }

  lemma {:induction false} LeastWaitMonotone(m: nat, n: nat)
    requires m <= n
    ensures LeastWait(m) <= LeastWait(n)
  {
    if m < n {
      LeastWaitMonotone(m, n - 1);
    }
  }

  /** POSTs with a key whose outcome reached the database. */
  function RecordedPosts(log: seq<Post>, key: Digest): nat {
    if log == [] then 0
    else RecordedPosts(log[..|log| - 1], key)
         + (if log[|log| - 1].key == key && log[|log| - 1].recorded then 1 else 0)
  }

  /** The timing of one row, given how many of its POSTs were recorded; a POST that ends its row is not counted in it. */
  predicate Timely(r: Row, recorded: nat) {
    && r.nextRetryAt <= r.updatedAt + 64
    && recorded <= r.attempts + (if IsTerminal(r.status) then 1 else 0)
    && (r.status == Pending ==> r.createdAt + LeastWait(r.attempts) <= r.nextRetryAt)
    && (recorded > 0 ==> LeastWait(recorded - 1) <= r.action.ttl)
  }

  predicate RowsTimely(w: World) {
    forall id :: id in w.table ==> Timely(w.table[id], RecordedPosts(w.log, w.table[id].key))
  }

  predicate QueueDue(s: State) {
    s.control.Cycle? ==> forall i :: 0 <= i < |s.control.queue| ==> s.control.queue[i].row.nextRetryAt <= s.clock
  }

  function Sent(o: Outcome): nat {
    if o.post.Some? && o.post.value.recorded then 1 else 0
  }

  // ---- one candidate -----------------------------------------------------

  lemma RetryIsTimely(r: Row, delay: nat, reason: string, message: string, now: nat, recorded: nat)
    requires Timely(r, recorded) && Live(r) && r.nextRetryAt <= now
    requires LeastDelay(r.attempts + 1) <= delay <= 64
    ensures Timely(Retry(r, delay, reason, message, now), recorded)
  {
  }

  /** A refusal counts its POST in the row, or ends the row. */
  lemma RefusedIsTimely(r: Row, message: string, now: nat, recorded: nat)
    requires Timely(r, recorded) && r.status == Pending && r.nextRetryAt <= now
    ensures var r' := Refused(r, message, now);
            Timely(r', recorded) && recorded + 1 <= r'.attempts + (if IsTerminal(r'.status) then 1 else 0)
  {
    hide ParseDispatchError, Judge, BackoffDelay, LeastDelay, LeastWait, Retry;
    LeastDelayValue(r.attempts + 1);
    var d := ParseDispatchError(message);
    assert PRESSURE_DELAY == 15;
    RetryIsTimely(r, PRESSURE_DELAY, d.code, d.detail, now, recorded) by {
      PressureIsEnough(r.attempts + 1);
    }
    RetryIsTimely(r, BackoffDelay(r.attempts + 1), d.code, d.detail, now, recorded) by {
      PressureIsEnough(r.attempts + 1);
    }
    RetryCounts(r, d.code, d.detail, now);
  }

  lemma PressureIsEnough(n: nat)
    requires n > 0
    ensures LeastDelay(n) <= PRESSURE_DELAY <= 64 && LeastDelay(n) <= BackoffDelay(n) <= 64
  {
    LeastDelayValue(n);
  }

  lemma RetryCounts(r: Row, reason: string, message: string, now: nat)
    ensures forall delay: nat :: Retry(r, delay, reason, message, now).attempts == r.attempts + 1
  {
  }

  /** A POST goes out only inside the TTL, so the waits before it fit into the TTL. */
  lemma SendIsTimely(c: Candidate, e: Env, recorded: nat)
    requires Coherent(c.row) && Timely(c.row, recorded) && c.row.status == Pending && Speaks(c, e)
    requires c.row.nextRetryAt <= e.start <= e.finish && !TtlExpired(c.row, e.start)
    ensures var o := Send(c, e); Timely(o.row, recorded + Sent(o))
  {
    hide BuildRequest, ParseRuntimeResponse, ParseDispatchError, Judge, Refused;
    LeastWaitMonotone(recorded, c.row.attempts);
    RefusedIsTimely(c.row, RC_ORCH_ACTION_UNSUPPORTED, e.finish, recorded);
    var a := Answer(e, "runtime request failed");
    if a.Err? {
      RefusedIsTimely(c.row, a.error, e.finish, recorded);
      RefusedKeeps(c.row, a.error, e.finish);
    }
  }

  lemma ExpireIsTimely(t: Table, c: Candidate, e: Env, recorded: nat)
    requires Timely(c.row, recorded) && Live(c.row) && c.row.nextRetryAt <= e.finish
    ensures var o := Expire(t, c, e); Timely(o.row, recorded) && Sent(o) == 0
  {
    hide RollbackOf, EnqueueSucceeds, LeastWait;
  }

  lemma PollIsTimely(c: Candidate, e: Env, recorded: nat)
    requires Timely(c.row, recorded) && Live(c.row) && c.row.status != Pending && c.row.nextRetryAt <= e.finish
    ensures var o := Poll(c, e); Timely(o.row, recorded) && Sent(o) == 0
  {
    hide Answer, LeastWait, BackoffDelay;
    PressureIsEnough(c.row.attempts + 1);
  }

  lemma DisownIsTimely(c: Candidate, e: Env, recorded: nat)
    requires Timely(c.row, recorded) && Live(c.row) && c.row.nextRetryAt <= e.finish
    ensures var o := Disown(c, e); Timely(o.row, recorded) && Sent(o) == 0
  {
    hide LeastWait;
  }

  lemma OutcomeIsTimely(w: World, c: Candidate, e: Env, recorded: nat)
    requires Coherent(c.row) && Live(c.row) && Timely(c.row, recorded) && Speaks(c, e)
    requires c.row.nextRetryAt <= e.start <= e.finish
    ensures var o := OutcomeOf(w, c, e); Timely(o.row, recorded + Sent(o))
  {
    hide Expire, Poll, Disown, Send, Owned, Timely, Speaks;
    if TtlExpired(c.row, e.start) {
      ExpireIsTimely(w.table, c, e, recorded);
    } else if c.row.status != Pending && c.row.operationId.Some? {
      PollIsTimely(c, e, recorded);
    } else if !Owned(w.owners, c.row.action) {
      DisownIsTimely(c, e, recorded);
    } else {
      SendIsTimely(c, e, recorded);
    }
  }

  // ---- preservation ------------------------------------------------------

  lemma {:induction false} UnusedKeyHasNoPosts(t: Table, log: seq<Post>, key: Digest)
    requires !HasKey(t, key) && forall k :: 0 <= k < |log| ==> Rooted(t, log[k])
    ensures RecordedPosts(log, key) == 0
  {
    hide BuildRequest;
    if log != [] {
      var p := log[|log| - 1];
      assert Rooted(t, p);
      UnusedKeyHasNoPosts(t, log[..|log| - 1], key);
    }
  }

  lemma RecordedAfter(log: seq<Post>, p: Post, key: Digest)
    ensures RecordedPosts(log + [p], key) == RecordedPosts(log, key) + (if p.key == key && p.recorded then 1 else 0)
  {
    assert (log + [p])[..|log|] == log;
  }

  lemma FreshRowIsTimely(a: NewAction, now: nat)
    ensures Timely(FreshRow(a, now), 0)
  {
  }

  lemma EnqueueStaysTimely(w: World, id: string, a: NewAction, now: nat)
    requires RowsTimely(w) && forall k :: 0 <= k < |w.log| ==> Rooted(w.table, w.log[k])
    ensures RowsTimely(w.(table := Enqueue(w.table, id, a, now)))
  {
    hide KeyOf, Rooted, Timely;
    FreshRowIsTimely(a, now);
    if !HasKey(w.table, KeyOf(a)) {
      UnusedKeyHasNoPosts(w.table, w.log, KeyOf(a));
    }
  }

  /** The world before any rollback row is inserted. */
  function Written(w: World, c: Candidate, o: Outcome): World {
    w.(table := w.table[c.id := o.row], log := if o.post.Some? then w.log + [o.post.value] else w.log)
  }

  lemma WrittenIsTimely(w: World, c: Candidate, e: Env)
    requires KeysUnique(w.table) && Current(w.table, c) && Live(c.row) && Coherent(c.row) && Speaks(c, e)
    requires RowsTimely(w) && c.row.nextRetryAt <= e.start <= e.finish
    ensures RowsTimely(Written(w, c, OutcomeOf(w, c, e)))
  {
    hide OutcomeOf, Speaks, Timely, Coherent, BuildRequest;
    var o := OutcomeOf(w, c, e);
    OutcomeKeeps(w, c, e);
    var n := RecordedPosts(w.log, c.row.key);
    assert Timely(w.table[c.id], n);
    OutcomeIsTimely(w, c, e, n);
    var w' := Written(w, c, o);
    forall id | id in w'.table ensures Timely(w'.table[id], RecordedPosts(w'.log, w'.table[id].key)) {
      if o.post.Some? {
        RecordedAfter(w.log, o.post.value, w'.table[id].key);
      }
    }
  }

  lemma WrittenIsRooted(w: World, c: Candidate, e: Env)
    requires KeysUnique(w.table) && Current(w.table, c) && Live(c.row) && Coherent(c.row) && Speaks(c, e)
    requires forall k :: 0 <= k < |w.log| ==> Rooted(w.table, w.log[k])
    ensures var w' := Written(w, c, OutcomeOf(w, c, e)); forall k :: 0 <= k < |w'.log| ==> Rooted(w'.table, w'.log[k])
  {
    hide OutcomeOf, Speaks, Coherent, BuildRequest;
    OutcomeKeeps(w, c, e);
    LogStaysRooted(w.table, Written(w, c, OutcomeOf(w, c, e)).table, w.log);
  }

  lemma HandleStaysTimely(s: State, e: Env, s': State)
    requires Inv(s) && Next(s, Handle(e), s') && ClockForward(s, Handle(e)) && RowsTimely(s.world) && QueueDue(s)
    ensures RowsTimely(s'.world) && QueueDue(s')
  {
    hide OutcomeOf, Speaks, Timely, Coherent, Rooted, Enqueue;
    var c, w := s.control.queue[0], s.world;
    CurrentIsCoherent(w.table, c);
    WrittenIsTimely(w, c, e);
    WrittenIsRooted(w, c, e);
    var o := OutcomeOf(w, c, e);
    if o.spawn.Some? {
      EnqueueStaysTimely(Written(w, c, o), e.newId, o.spawn.value, e.finish);
    }
  }

  lemma {:induction false} RunIsTimely(run: seq<State>, labels: seq<Label>, i: nat)
    requires IsRun(run, labels) && i < |run| && forall k :: 0 <= k < |labels| ==> ClockForward(run[k], labels[k])
    ensures RowsTimely(run[i].world) && QueueDue(run[i])
  {
    hide Timely, Coherent, Rooted, KeyOf, Process, Speaks, OutcomeOf, Enqueue;
    if i > 0 {
      RunIsTimely(run, labels, i - 1);
      InvHolds(run, labels, i - 1);
      var s, l := run[i - 1], labels[i - 1];
      assert Next(s, l, run[i]) && ClockForward(s, l);
      match l
      case Handle(e) => HandleStaysTimely(s, e, run[i]);
      case Decide(id, a, now) => EnqueueStaysTimely(s.world, id, a, now);
      case _ =>
    }
  }

  /** A POST count whose waits fit into the TTL. */
  lemma WaitsBoundCount(n: nat, ttl: nat)
    requires n > 0 ==> LeastWait(n - 1) <= ttl
    ensures ttl >= 14 ==> n <= 4 + (ttl - 14) / 15
    ensures ttl < 14 ==> n <= 3
    ensures ttl < 6 ==> n <= 2
    ensures ttl < 2 ==> n <= 1
  {
    if n > 0 {
      LeastWaitValue(n - 1);
    }
  }

  /** In every run whose clock does not go back, an action's recorded POSTs are bounded by its TTL. */
  lemma RecordedPostsBounded(run: seq<State>, labels: seq<Label>, i: nat, id: string)
    requires IsRun(run, labels) && i < |run| && forall k :: 0 <= k < |labels| ==> ClockForward(run[k], labels[k])
    requires id in run[i].world.table
    ensures var r := run[i].world.table[id];
            var n := RecordedPosts(run[i].world.log, r.key);
            && (r.action.ttl >= 14 ==> n <= 4 + (r.action.ttl - 14) / 15)
            && (r.action.ttl < 14 ==> n <= 3)
            && (r.action.ttl < 6 ==> n <= 2)
            && (r.action.ttl < 2 ==> n <= 1)
  {
    hide IsRun, ClockForward, LeastWait;
    RunIsTimely(run, labels, i);
    var r := run[i].world.table[id];
    assert Timely(r, RecordedPosts(run[i].world.log, r.key));
    WaitsBoundCount(RecordedPosts(run[i].world.log, r.key), r.action.ttl);
  }

  /** In every such run, a pending row waits at least the backoff of its attempts and no row waits more than 64 s after its last write. */
  lemma RetryTimeBounds(run: seq<State>, labels: seq<Label>, i: nat, id: string)
    requires IsRun(run, labels) && i < |run| && forall k :: 0 <= k < |labels| ==> ClockForward(run[k], labels[k])
    requires id in run[i].world.table
    ensures var r := run[i].world.table[id];
            && r.nextRetryAt <= r.updatedAt + 64
            && (r.status == Pending ==> r.createdAt + LeastWait(r.attempts) <= r.nextRetryAt)
  {
    hide IsRun, ClockForward, LeastWait;
    RunIsTimely(run, labels, i);
    assert Timely(run[i].world.table[id], RecordedPosts(run[i].world.log, run[i].world.table[id].key));
  }

  // ---- all POSTs ---------------------------------------------------------

  /** POSTs with a key, recorded or not. */
  function AllPosts(log: seq<Post>, key: Digest): nat {
    if log == [] then 0 else AllPosts(log[..|log| - 1], key) + (if log[|log| - 1].key == key then 1 else 0)
  }

  /** The step processes a candidate and ends its cycle early. */
  predicate AbortsCycle(s: State, l: Label) {
    l.Handle? && s.control.Cycle? && s.control.queue != [] && !OutcomeOf(s.world, s.control.queue[0], l.env).goOn
  }

  /** How many of the first `i` steps ended a cycle early. */
  function Aborts(run: seq<State>, labels: seq<Label>, i: nat): nat
    requires i <= |labels| && i <= |run|
  {
    if i == 0 then 0 else Aborts(run, labels, i - 1) + (if AbortsCycle(run[i - 1], labels[i - 1]) then 1 else 0)
  }

  /** A POST whose outcome is lost ends its cycle. */
  lemma LostPostAborts(w: World, c: Candidate, e: Env)
    requires OutcomeOf(w, c, e).post.Some? && !OutcomeOf(w, c, e).post.value.recorded
    ensures !OutcomeOf(w, c, e).goOn
  {
    hide BuildRequest, Answer, EnqueueSucceeds, Refused, Concluded, Retry, MarkTerminal, SetStatus, RollbackOf, Owned;
  }

  lemma OneMorePost(log: seq<Post>, p: Post, key: Digest)
    ensures AllPosts(log + [p], key) == AllPosts(log, key) + (if p.key == key then 1 else 0)
    ensures RecordedPosts(log + [p], key) == RecordedPosts(log, key) + (if p.key == key && p.recorded then 1 else 0)
  {
    assert (log + [p])[..|log|] == log;
  }

  lemma {:induction false} LostPostsAreAborts(run: seq<State>, labels: seq<Label>, i: nat, key: Digest)
    requires IsRun(run, labels) && i < |run|
    ensures AllPosts(run[i].world.log, key) <= RecordedPosts(run[i].world.log, key) + Aborts(run, labels, i)
  {
    hide OutcomeOf, Speaks, Enqueue, Selected, AllPosts, RecordedPosts, Deliver;
    if i == 0 {
      NoPosts(key);
    } else {
      LostPostsAreAborts(run, labels, i - 1, key);
      var s, l := run[i - 1], labels[i - 1];
      assert Next(s, l, run[i]);
      if l.Handle? && OutcomeOf(s.world, s.control.queue[0], l.env).post.Some? {
        var p := OutcomeOf(s.world, s.control.queue[0], l.env).post.value;
        OneMorePost(s.world.log, p, key);
        if !p.recorded {
          LostPostAborts(s.world, s.control.queue[0], l.env);
        }
      }
    }
  }

  lemma NoPosts(key: Digest)
    ensures AllPosts([], key) == 0 == RecordedPosts([], key)
  {}

  /** In every run whose clock does not go back, all POSTs of an action number at most what its TTL allows plus one for each cycle that was ended early. */
  lemma PostsBounded(run: seq<State>, labels: seq<Label>, i: nat, id: string)
    requires IsRun(run, labels) && i < |run| && forall k :: 0 <= k < |labels| ==> ClockForward(run[k], labels[k])
    requires id in run[i].world.table
    ensures var r := run[i].world.table[id];
            var n := AllPosts(run[i].world.log, r.key) - Aborts(run, labels, i);
            && (r.action.ttl >= 14 ==> n <= 4 + (r.action.ttl - 14) / 15)
            && (r.action.ttl < 14 ==> n <= 3)
            && (r.action.ttl < 6 ==> n <= 2)
            && (r.action.ttl < 2 ==> n <= 1)
  {
    hide IsRun, ClockForward, AllPosts, RecordedPosts, Aborts;
    RecordedPostsBounded(run, labels, i, id);
    LostPostsAreAborts(run, labels, i, run[i].world.table[id].key);
  }
}
