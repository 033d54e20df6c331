/** The table of actions: its rows, its two unique keys, and the statements that write it. */
module ActionTable {
  import opened Wrappers
  import opened Json
  import opened JsonText
  import opened Text
  import opened Vocabulary
  import opened IdempotencyKey

  /** What a caller asks to enqueue; no statement changes these columns once a row exists. */
  datatype NewAction = NewAction(
    tenant: string,
    workload: string,
    kind: ActionType,
    payload: Json,
    ttl: nat,
    window: int,
    rollback: Option<Json>,
    parent: Option<string>)

  datatype Row = Row(
    action: NewAction,
    key: Digest,
    status: Status,
    reasonCode: Option<string>,
    reasonMessage: Option<string>,
    effectiveAt: nat,
    outboundAt: Option<nat>,
    operationId: Option<string>,
    operationType: Option<string>,
    terminalStatus: Option<Status>,
    terminalAt: Option<nat>,
    latencyMs: Option<int>,
    attempts: nat,
    nextRetryAt: nat,
    createdAt: nat,
    updatedAt: nat)

  /** Rows by action id, the primary key. */
  type Table = map<string, Row>

  function KeyOf(a: NewAction): Digest {
    DeterministicIdempotencyKey(a.tenant, a.workload, TypeName(a.kind), a.payload, a.window)
  }

  function CanonicalOption(v: Option<Json>): Option<Json> {
    if v.Some? then Some(Canonical(v.value)) else None
  }

  function FreshRow(a: NewAction, now: nat): Row {
    Row(a.(payload := Canonical(a.payload), rollback := CanonicalOption(a.rollback)), KeyOf(a), Pending, None, None,
        now, None, None, None, None, None, None, 0, now, now, now)
  }

  predicate HasKey(t: Table, key: Digest) {
    exists id :: id in t && t[id].key == key
  }

  /** INSERT ... ON CONFLICT(idempotency_key) DO NOTHING; a taken action id makes the statement fail. */
  predicate EnqueueSucceeds(t: Table, id: string, a: NewAction) {
    HasKey(t, KeyOf(a)) || id !in t
  }

  function Enqueue(t: Table, id: string, a: NewAction, now: nat): Table {
    if HasKey(t, KeyOf(a)) || id in t then t else t[id := FreshRow(a, now)]
  }

  /** The UNIQUE constraint on idempotency_key. */
  predicate KeysUnique(t: Table) {
    forall i, j :: i in t && j in t && t[i].key == t[j].key ==> i == j
  }

  lemma EnqueueKeeps(t: Table, id: string, a: NewAction, now: nat)
    requires KeysUnique(t)
    ensures KeysUnique(Enqueue(t, id, a, now))
    ensures forall i :: i in t ==> i in Enqueue(t, id, a, now) && Enqueue(t, id, a, now)[i] == t[i]
    ensures EnqueueSucceeds(t, id, a) ==> HasKey(Enqueue(t, id, a, now), KeyOf(a))
  {
    var t' := Enqueue(t, id, a, now);
    if t' != t {
      assert t'[id].key == KeyOf(a);
    }
  }

  /** A row as it is inserted: the caller's columns with canonical payloads, pending, never tried, and due at once. */
  lemma InsertedRowHolds(t: Table, id: string, a: NewAction, now: nat)
    requires id !in t && !HasKey(t, KeyOf(a))
    ensures id in Enqueue(t, id, a, now)
    ensures var r := Enqueue(t, id, a, now)[id];
            && r.action.tenant == a.tenant && r.action.workload == a.workload && r.action.kind == a.kind
            && r.action.payload == Canonical(a.payload) && r.action.ttl == a.ttl && r.action.window == a.window
            && r.action.parent == a.parent
            && (if a.rollback.Some? then r.action.rollback == Some(Canonical(a.rollback.value)) else r.action.rollback.None?)
            && r.key.input == a.tenant + "|" + a.workload + "|" + TypeName(a.kind) + "|" + Print(Canonical(a.payload)) + "|" + Decimal(a.window)
            && r.status == Pending && r.attempts == 0
            && r.effectiveAt == r.nextRetryAt == r.createdAt == r.updatedAt == now
            && r.reasonCode.None? && r.reasonMessage.None? && r.outboundAt.None? && r.operationId.None? && r.operationType.None?
            && r.terminalStatus.None? && r.terminalAt.None? && r.latencyMs.None?
  {
    hide Print, Canonical, TypeName, Decimal;
    var p, d, k := Print(Canonical(a.payload)), Decimal(a.window), TypeName(a.kind);
    assert a.tenant + "|" + (a.workload + "|" + (k + "|" + (p + "|" + d))) == a.tenant + "|" + a.workload + "|" + k + "|" + p + "|" + d;
  }

  // ---- one row per decision ----------------------------------------------

  /** What makes two enqueue requests the same decision. */
  datatype Decision = Decision(tenant: string, workload: string, typeName: string, payload: Json, window: int)

  function DecisionOf(a: NewAction): Decision {
    Decision(a.tenant, a.workload, TypeName(a.kind), Canonical(a.payload), a.window)
  }

  /** The names hold no separator and the payload is a JSON value. */
  predicate Sound(a: NewAction) {
    '|' !in a.tenant && '|' !in a.workload && '|' !in TypeName(a.kind) && WellFormed(a.payload)
  }

  lemma KeyIffDecision(a: NewAction, b: NewAction)
    requires Sound(a) && Sound(b)
    ensures KeyOf(a) == KeyOf(b) <==> DecisionOf(a) == DecisionOf(b)
  {
    CanonicalIffSame(a.payload, b.payload);
    KeyInjective(a.tenant, a.workload, TypeName(a.kind), a.payload, a.window,
                 b.tenant, b.workload, TypeName(b.kind), b.payload, b.window);
  }

  datatype Call = Call(id: string, action: NewAction, now: nat)

  /** The table after the first `n` calls. */
  function EnqueueFirst(t: Table, calls: seq<Call>, n: nat): Table
    requires n <= |calls|
  {
    if n == 0 then t
    else Enqueue(EnqueueFirst(t, calls, n - 1), calls[n - 1].id, calls[n - 1].action, calls[n - 1].now)
  }

  /** One of the first `n` calls wrote this row under this id. */
  ghost predicate WrittenBy(calls: seq<Call>, n: nat, id: string, r: Row) {
    exists k: nat :: k < n && k < |calls| && calls[k].id == id && r == FreshRow(calls[k].action, calls[k].now)
  }

  predicate DistinctIds(calls: seq<Call>) {
    forall j, k :: 0 <= j < k < |calls| ==> calls[j].id != calls[k].id
  }

  /** Every row after the calls was there before or was written by one of them. */
  lemma {:induction false} RowsComeFromCalls(t0: Table, calls: seq<Call>, n: nat)
    requires n <= |calls|
    ensures var t := EnqueueFirst(t0, calls, n);
            && (forall id :: id in t0 ==> id in t && t[id] == t0[id])
            && (forall id :: id in t && id !in t0 ==> WrittenBy(calls, n, id, t[id]))
  {
    hide KeyOf, FreshRow, HasKey;
    if n > 0 {
      RowsComeFromCalls(t0, calls, n - 1);
      var t, c := EnqueueFirst(t0, calls, n - 1), calls[n - 1];
      forall id | id in t && id !in t0 ensures WrittenBy(calls, n, id, t[id]) {
        assert WrittenBy(calls, n - 1, id, t[id]);
      }
    }
  }

  /** The ids of the calls are distinct and not in use. */
  predicate NewIds(t0: Table, calls: seq<Call>) {
    DistinctIds(calls) && forall k :: 0 <= k < |calls| ==> calls[k].id !in t0
  }

  lemma {:induction false} EveryCallHasItsKey(t0: Table, calls: seq<Call>, n: nat)
    requires KeysUnique(t0) && NewIds(t0, calls) && n <= |calls|
    ensures KeysUnique(EnqueueFirst(t0, calls, n))
    ensures forall k :: 0 <= k < n ==> HasKey(EnqueueFirst(t0, calls, n), KeyOf(calls[k].action))
  {
    hide KeyOf, HasKey, FreshRow, KeysUnique, Enqueue;
    if n == 0 {
      assert EnqueueFirst(t0, calls, n) == t0;
    } else {
      EveryCallHasItsKey(t0, calls, n - 1);
      RowsComeFromCalls(t0, calls, n - 1);
      var t, c := EnqueueFirst(t0, calls, n - 1), calls[n - 1];
      EnqueueKeeps(t, c.id, c.action, c.now);
      forall id | id in t && id !in t0 ensures id != c.id {
        assert WrittenBy(calls, n - 1, id, t[id]);
      }
      forall k | 0 <= k < n - 1 ensures HasKey(EnqueueFirst(t0, calls, n), KeyOf(calls[k].action)) {
        KeyStays(t, EnqueueFirst(t0, calls, n), KeyOf(calls[k].action));
      }
    }
  }

  lemma KeyStays(t: Table, t': Table, key: Digest)
    requires HasKey(t, key) && forall id :: id in t ==> id in t' && t'[id] == t[id]
    ensures HasKey(t', key)
  {
    var id :| id in t && t[id].key == key;
    assert id in t';
  }

  ghost predicate Decided(calls: seq<Call>, d: Decision) {
    exists k :: 0 <= k < |calls| && DecisionOf(calls[k].action) == d
  }

  ghost predicate RowFor(t: Table, id: string, d: Decision) {
    id in t && DecisionOf(t[id].action) == d
  }

  lemma RowForIff(calls: seq<Call>, a: NewAction, id: string, r: Row)
    requires Sound(a) && forall k :: 0 <= k < |calls| ==> Sound(calls[k].action)
    requires WrittenBy(calls, |calls|, id, r)
    ensures DecisionOf(r.action) == DecisionOf(a) <==> r.key == KeyOf(a)
    ensures Decided(calls, DecisionOf(r.action))
  {
    var k: nat :| k < |calls| && calls[k].id == id && r == FreshRow(calls[k].action, calls[k].now);
    CanonicalIdempotent(calls[k].action.payload);
    assert DecisionOf(r.action) == DecisionOf(calls[k].action);
    KeyIffDecision(calls[k].action, a);
  }

  /**
    After any sequence of enqueues into an empty table, a decision has exactly one row when some
    call made it and none otherwise.
   */
  lemma OneRowPerDecision(calls: seq<Call>, a: NewAction)
    requires DistinctIds(calls)
    requires Sound(a) && forall k :: 0 <= k < |calls| ==> Sound(calls[k].action)
    ensures var t, d := EnqueueFirst(map[], calls, |calls|), DecisionOf(a);
            && ((exists id :: RowFor(t, id, d)) <==> Decided(calls, d))
            && (forall i, j :: RowFor(t, i, d) && RowFor(t, j, d) ==> i == j)
  {
    hide KeyOf;
    var t, d := EnqueueFirst(map[], calls, |calls|), DecisionOf(a);
    EveryCallHasItsKey(map[], calls, |calls|);
    RowsComeFromCalls(map[], calls, |calls|);
    forall id | id in t ensures (RowFor(t, id, d) <==> t[id].key == KeyOf(a)) && Decided(calls, DecisionOf(t[id].action)) {
      RowForIff(calls, a, id, t[id]);
    }
    if k :| 0 <= k < |calls| && DecisionOf(calls[k].action) == d {
      KeyIffDecision(calls[k].action, a);
      var id :| id in t && t[id].key == KeyOf(calls[k].action);
      assert RowFor(t, id, d);
    }
  }

  /** The row's key is the key of its own decision, and the decision is sound. */
  predicate Keyed(r: Row) {
    Sound(r.action) && r.key == KeyOf(r.action) && (r.action.rollback.Some? ==> WellFormed(r.action.rollback.value))
  }

  predicate SoundRequest(a: NewAction) {
    Sound(a) && (a.rollback.Some? ==> WellFormed(a.rollback.value))
  }

  lemma FreshRowIsKeyed(a: NewAction, now: nat)
    requires SoundRequest(a)
    ensures Keyed(FreshRow(a, now))
  {
    CanonicalWellFormed(a.payload);
    CanonicalIdempotent(a.payload);
    if a.rollback.Some? {
      CanonicalWellFormed(a.rollback.value);
    }
  }

  lemma EnqueueStaysKeyed(t: Table, id: string, a: NewAction, now: nat)
    requires SoundRequest(a) && forall i :: i in t ==> Keyed(t[i])
    ensures forall i :: i in Enqueue(t, id, a, now) ==> Keyed(Enqueue(t, id, a, now)[i])
  {
    FreshRowIsKeyed(a, now);
    hide Keyed, FreshRow, KeyOf;
  }
}
