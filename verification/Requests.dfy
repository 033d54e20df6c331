/** The HTTP request that carries out an action: what the dispatcher extracts from a stored payload. */
module Requests {
  import opened Wrappers
  import opened Json
  import opened Vocabulary
  import opened RuntimeReply

  /** White space as trimmed from both ends of a name. */
  predicate IsWhitespace(c: char) {
    var n := c as int;
    9 <= n <= 13 || n == 32 || n == 0x85 || n == 0xA0 || n == 0x1680 || 0x2000 <= n <= 0x200A
    || n == 0x2028 || n == 0x2029 || n == 0x202F || n == 0x205F || n == 0x3000
  }

  /** White space is the 25 code points with the Unicode property White_Space. */
  lemma WhitespaceIs(c: char)
    ensures IsWhitespace(c) <==>
              c as int in {0x9, 0xA, 0xB, 0xC, 0xD, 0x20, 0x85, 0xA0, 0x1680, 0x2000, 0x2001, 0x2002, 0x2003, 0x2004, 0x2005,
                           0x2006, 0x2007, 0x2008, 0x2009, 0x200A, 0x2028, 0x2029, 0x202F, 0x205F, 0x3000}
  {}

  function TrimStart(s: string): string {
    if s != "" && IsWhitespace(s[0]) then TrimStart(s[1..]) else s
  }

  function TrimEnd(s: string): string {
    if s != "" && IsWhitespace(s[|s| - 1]) then TrimEnd(s[..|s| - 1]) else s
  }

  function Trim(s: string): string {
    TrimEnd(TrimStart(s))
  }

  predicate Blank(s: string) {
    Trim(s) == ""
  }

  /** A trimmed, non-blank string member. */
  function NameAt(payload: Json, key: string): Option<string> {
    var v := AsStr(Get(payload, key));
    if v.Some? && !Blank(v.value) then Some(Trim(v.value)) else None
  }

  function AsU64(v: Option<Json>): Option<int> {
    if v.Some? && v.value.Num? && 0 <= v.value.n < 0x1_0000_0000_0000_0000 then Some(v.value.n) else None
  }

  function AsI64(v: Option<Json>): Option<int> {
    if v.Some? && v.value.Num? && -0x8000_0000_0000_0000 <= v.value.n < 0x8000_0000_0000_0000
    then Some(v.value.n) else None
  }

  function StrOrNull(v: Option<string>): Json {
    if v.Some? then Str(v.value) else Null
  }

  /** A request, or the two ways in which no request can be built. */
  datatype Built =
    | Request(path: string, body: Json)
    | Malformed
    | Unsupported

  const CONTROL := "/api/elasticity/control/"

  function BuildRequest(actionId: string, kind: ActionType, payload: Json): Built {
    match kind
    case SetPoolTarget =>
      var f, lo, hi := NameAt(payload, "function_id"), AsU64(Get(payload, "min_instances")), AsU64(Get(payload, "max_instances"));
      if f.None? || lo.None? || hi.None? then Malformed
      else Request(CONTROL + "functions/" + f.value + "/pool-target",
                   Obj([Member("min_instances", Num(lo.value)), Member("max_instances", Num(hi.value))]))
    case SetBurstPolicy =>
      var c, m, p := AsStr(Get(payload, "container_id")), AsU64(Get(payload, "memory_limit_mb")), AsU64(Get(payload, "cpu_limit_percent"));
      if c.None? || m.None? || p.None? then Malformed
      else Request(CONTROL + "containers/" + c.value + "/resize",
                   Obj([Member("memory_limit_mb", Num(m.value)), Member("cpu_limit_percent", Num(p.value))]))
    case SetPlacementPreference =>
      var w, g, a := NameAt(payload, "workload_id"), NameAt(payload, "node_group"), AsBool(Get(payload, "anti_affinity"));
      if w.None? || g.None? then Malformed
      else Request(CONTROL + "workloads/" + w.value + "/placement-preference",
                   Obj([Member("node_group", Str(g.value)), Member("anti_affinity", Bool(a == Some(true)))]))
    case ScaleNodeGroupUp => ScaleRequest(payload)
    case ScaleNodeGroupDown => ScaleRequest(payload)
    case RollbackAction =>
      var target := NameAt(payload, "target_action_id");
      var inner := Get(payload, "payload");
      Request(CONTROL + "actions/" + OrElse(target, actionId) + "/rollback",
              Obj([Member("target_action_id", StrOrNull(AsStr(Get(payload, "target_action_id")))),
                   Member("target_operation_id", StrOrNull(AsStr(Get(payload, "target_operation_id")))),
                   Member("reason_code", StrOrNull(AsStr(Get(payload, "reason_code")))),
                   Member("reason_message", StrOrNull(AsStr(Get(payload, "reason_message")))),
                   Member("payload", if inner.Some? then inner.value else Null)]))
    case OtherType(_) => Unsupported
  }

  function ScaleRequest(payload: Json): Built {
    var g, d := NameAt(payload, "node_group"), AsI64(Get(payload, "delta_units"));
    if g.None? || d.None? then Malformed
    else Request(CONTROL + "node-groups/" + g.value + "/scale", Obj([Member("delta_units", Num(d.value))]))
  }

  // ---- what a request holds ----------------------------------------------

  /** The string, without the white space around it, and what was cut off. */
  lemma {:induction false} TrimStartMeans(s: string) returns (cut: string)
    ensures s == cut + TrimStart(s) && forall i :: 0 <= i < |cut| ==> IsWhitespace(cut[i])
    ensures TrimStart(s) != "" ==> !IsWhitespace(TrimStart(s)[0])
  {
    if s != "" && IsWhitespace(s[0]) {
      var rest := TrimStartMeans(s[1..]);
      cut := [s[0]] + rest;
    } else {
      cut := "";
    }
  }

  lemma {:induction false} TrimEndMeans(s: string) returns (cut: string)
    ensures s == TrimEnd(s) + cut && forall i :: 0 <= i < |cut| ==> IsWhitespace(cut[i])
    ensures TrimEnd(s) != "" ==> !IsWhitespace(TrimEnd(s)[|TrimEnd(s)| - 1])
  {
    if s != "" && IsWhitespace(s[|s| - 1]) {
      var rest := TrimEndMeans(s[..|s| - 1]);
      cut := rest + [s[|s| - 1]];
    } else {
      cut := "";
    }
  }

  /** A trimmed name starts and ends with something visible, and only white space was cut off. */
  lemma TrimMeans(s: string) returns (front: string, back: string)
    ensures s == front + Trim(s) + back
    ensures forall i :: 0 <= i < |front| ==> IsWhitespace(front[i])
    ensures forall i :: 0 <= i < |back| ==> IsWhitespace(back[i])
    ensures Trim(s) != "" ==> !IsWhitespace(Trim(s)[0]) && !IsWhitespace(Trim(s)[|Trim(s)| - 1])
  {
    hide IsWhitespace;
    front := TrimStartMeans(s);
    back := TrimEndMeans(TrimStart(s));
    assert Trim(s) != "" ==> Trim(s)[0] == TrimStart(s)[0];
  }

  /** The payload's member is a string that is not blank; `name` is what is left of it when trimmed. */
  ghost predicate Names(payload: Json, key: string, name: string) {
    name != "" && exists text :: Get(payload, key) == Some(Str(text)) && Trim(text) == name
  }

  /** The payload's member is an integer from `lo` up to, not including, `hi`. */
  predicate Counts(payload: Json, key: string, lo: int, hi: int) {
    match Get(payload, key)
    case Some(Num(n)) => lo <= n < hi
    case _ => false
  }

  lemma NameAtMeans(payload: Json, key: string)
    ensures NameAt(payload, key).Some? ==> Names(payload, key, NameAt(payload, key).value)
    ensures NameAt(payload, key).None? ==> forall name :: !Names(payload, key, name)
  {
    hide Trim, Get;
  }

  /** The object has exactly these members. */
  predicate HasMembers(v: Json, keys: seq<string>) {
    v.Obj? && |v.members| == |keys| && forall i :: 0 <= i < |keys| ==> v.members[i].key == keys[i]
  }

  lemma SecondMember(a: Member, b: Member)
    requires a.key != b.key
    ensures Get(Obj([a, b]), a.key) == Some(a.value) && Get(Obj([a, b]), b.key) == Some(b.value)
  {
    var ms := [a, b];
    FindUnique(ms, 0);
    FindUnique(ms, 1);
    assert Get(Obj(ms), ms[0].key) == Find(ms, a.key) && Get(Obj(ms), ms[1].key) == Find(ms, b.key);
  }

  /** A pool-target request carries the payload's own bounds, each in its place, to the function that the payload names. */
  lemma PoolRequestHolds(id: string, payload: Json)
    ensures var r := BuildRequest(id, SetPoolTarget, payload);
            && !r.Unsupported?
            && (r.Request? <==> (exists f :: Names(payload, "function_id", f))
                                && Counts(payload, "min_instances", 0, 0x1_0000_0000_0000_0000)
                                && Counts(payload, "max_instances", 0, 0x1_0000_0000_0000_0000))
            && (r.Request? ==>
                  && (exists f :: Names(payload, "function_id", f) && r.path == "/api/elasticity/control/functions/" + f + "/pool-target")
                  && HasMembers(r.body, ["min_instances", "max_instances"])
                  && Get(r.body, "min_instances") == Get(payload, "min_instances")
                  && Get(r.body, "max_instances") == Get(payload, "max_instances"))
  {
    hide Get, Names, NameAt, Trim;
    NameAtMeans(payload, "function_id");
    var r := BuildRequest(id, SetPoolTarget, payload);
    assert "min_instances"[1] != "max_instances"[1];
    if r.Request? {
      SecondMember(r.body.members[0], r.body.members[1]);
      assert r.body == Obj([r.body.members[0], r.body.members[1]]);
    }
  }

  /** A burst request carries the payload's own limits to the container that the payload names, which is not trimmed. */
  lemma BurstRequestHolds(id: string, payload: Json)
    ensures var r := BuildRequest(id, SetBurstPolicy, payload);
            && !r.Unsupported?
            && (r.Request? <==> (exists c :: Get(payload, "container_id") == Some(Str(c)))
                                && Counts(payload, "memory_limit_mb", 0, 0x1_0000_0000_0000_0000)
                                && Counts(payload, "cpu_limit_percent", 0, 0x1_0000_0000_0000_0000))
            && (r.Request? ==>
                  && (exists c :: Get(payload, "container_id") == Some(Str(c)) && r.path == "/api/elasticity/control/containers/" + c + "/resize")
                  && HasMembers(r.body, ["memory_limit_mb", "cpu_limit_percent"])
                  && Get(r.body, "memory_limit_mb") == Get(payload, "memory_limit_mb")
                  && Get(r.body, "cpu_limit_percent") == Get(payload, "cpu_limit_percent"))
  {
    hide Get, Trim, NameAt;
    var r := BuildRequest(id, SetBurstPolicy, payload);
    assert "memory_limit_mb"[0] != "cpu_limit_percent"[0];
    if r.Request? {
      SecondMember(r.body.members[0], r.body.members[1]);
      assert r.body == Obj([r.body.members[0], r.body.members[1]]);
    }
  }

  /** A placement request carries the trimmed group, and anti-affinity exactly when the payload says `true`. */
  lemma PlacementRequestHolds(id: string, payload: Json)
    ensures var r := BuildRequest(id, SetPlacementPreference, payload);
            && !r.Unsupported?
            && (r.Request? <==> (exists w :: Names(payload, "workload_id", w)) && (exists g :: Names(payload, "node_group", g)))
            && (r.Request? ==>
                  && (exists w :: Names(payload, "workload_id", w) && r.path == "/api/elasticity/control/workloads/" + w + "/placement-preference")
                  && HasMembers(r.body, ["node_group", "anti_affinity"])
                  && (exists g :: Names(payload, "node_group", g) && Get(r.body, "node_group") == Some(Str(g)))
                  && Get(r.body, "anti_affinity") == Some(Bool(Get(payload, "anti_affinity") == Some(Bool(true)))))
  {
    hide Get, Names, NameAt, Trim;
    NameAtMeans(payload, "workload_id");
    NameAtMeans(payload, "node_group");
    var r := BuildRequest(id, SetPlacementPreference, payload);
    assert "node_group"[0] != "anti_affinity"[0];
    if r.Request? {
      SecondMember(r.body.members[0], r.body.members[1]);
      assert r.body == Obj([r.body.members[0], r.body.members[1]]);
    }
  }

  /** Both scaling actions send the payload's own delta to the group that the payload names. */
  lemma ScaleRequestHolds(id: string, kind: ActionType, payload: Json)
    requires kind == ScaleNodeGroupUp || kind == ScaleNodeGroupDown
    ensures var r := BuildRequest(id, kind, payload);
            && !r.Unsupported?
            && (r.Request? <==> (exists g :: Names(payload, "node_group", g))
                                && Counts(payload, "delta_units", -0x8000_0000_0000_0000, 0x8000_0000_0000_0000))
            && (r.Request? ==>
                  && (exists g :: Names(payload, "node_group", g) && r.path == "/api/elasticity/control/node-groups/" + g + "/scale")
                  && HasMembers(r.body, ["delta_units"])
                  && Get(r.body, "delta_units") == Get(payload, "delta_units"))
  {
    hide Get, Names, NameAt, Trim;
    NameAtMeans(payload, "node_group");
    var r := BuildRequest(id, kind, payload);
    if r.Request? {
      SoleMember(r.body.members[0]);
      assert r.body == Obj([r.body.members[0]]);
    }
  }

  lemma SoleMember(a: Member)
    ensures Get(Obj([a]), a.key) == Some(a.value)
  {}

  /** A string member as it stands, and null for anything else. */
  function StringOrNull(payload: Json, key: string): Json {
    match Get(payload, key)
    case Some(Str(s)) => Str(s)
    case _ => Null
  }

  /** A rollback request is always possible: it names its target, or its own row, and passes the payload's members on. */
  lemma RollbackRequestHolds(id: string, payload: Json)
    ensures var r := BuildRequest(id, RollbackAction, payload);
            && r.Request?
            && (forall t :: Names(payload, "target_action_id", t) ==> r.path == "/api/elasticity/control/actions/" + t + "/rollback")
            && ((forall t :: !Names(payload, "target_action_id", t)) ==> r.path == "/api/elasticity/control/actions/" + id + "/rollback")
            && HasMembers(r.body, ["target_action_id", "target_operation_id", "reason_code", "reason_message", "payload"])
            && Get(r.body, "target_action_id") == Some(StringOrNull(payload, "target_action_id"))
            && Get(r.body, "target_operation_id") == Some(StringOrNull(payload, "target_operation_id"))
            && Get(r.body, "reason_code") == Some(StringOrNull(payload, "reason_code"))
            && Get(r.body, "reason_message") == Some(StringOrNull(payload, "reason_message"))
            && Get(r.body, "payload") == Some(if Get(payload, "payload").Some? then Get(payload, "payload").value else Null)
  {
    RollbackPath(id, payload);
    RollbackBody(id, payload);
  }

  lemma RollbackPath(id: string, payload: Json)
    ensures var r := BuildRequest(id, RollbackAction, payload);
            && r.Request?
            && (forall t :: Names(payload, "target_action_id", t) ==> r.path == "/api/elasticity/control/actions/" + t + "/rollback")
            && ((forall t :: !Names(payload, "target_action_id", t)) ==> r.path == "/api/elasticity/control/actions/" + id + "/rollback")
  {
    hide Get, NameAt, Trim, StrOrNull, AsStr;
    NameAtMeans(payload, "target_action_id");
  }

  lemma StringMember(payload: Json, key: string)
    ensures StrOrNull(AsStr(Get(payload, key))) == StringOrNull(payload, key)
  {
    hide Get;
  }

  lemma RollbackMembers(id: string, payload: Json)
    ensures BuildRequest(id, RollbackAction, payload).Request?
    ensures BuildRequest(id, RollbackAction, payload).body ==
              Obj([Member("target_action_id", StringOrNull(payload, "target_action_id")),
                   Member("target_operation_id", StringOrNull(payload, "target_operation_id")),
                   Member("reason_code", StringOrNull(payload, "reason_code")),
                   Member("reason_message", StringOrNull(payload, "reason_message")),
                   Member("payload", if Get(payload, "payload").Some? then Get(payload, "payload").value else Null)])
  {
    hide Get, NameAt, StrOrNull, AsStr, StringOrNull;
    StringMember(payload, "target_action_id");
    StringMember(payload, "target_operation_id");
    StringMember(payload, "reason_code");
    StringMember(payload, "reason_message");
  }

  lemma RollbackKeys(ms: seq<Member>)
    requires |ms| == 5 && ms[0].key == "target_action_id" && ms[1].key == "target_operation_id"
    requires ms[2].key == "reason_code" && ms[3].key == "reason_message" && ms[4].key == "payload"
    ensures DistinctKeys(ms)
  {
    assert |"target_action_id"| == 16 && |"target_operation_id"| == 19 && |"reason_code"| == 11 && |"reason_message"| == 14 && |"payload"| == 7;
  }

  lemma MemberAt(ms: seq<Member>, i: nat)
    requires DistinctKeys(ms) && i < |ms|
    ensures Get(Obj(ms), ms[i].key) == Some(ms[i].value)
  {
    FindUnique(ms, i);
  }

  lemma RollbackBody(id: string, payload: Json)
    ensures var r := BuildRequest(id, RollbackAction, payload);
            && r.Request?
            && HasMembers(r.body, ["target_action_id", "target_operation_id", "reason_code", "reason_message", "payload"])
            && Get(r.body, "target_action_id") == Some(StringOrNull(payload, "target_action_id"))
            && Get(r.body, "target_operation_id") == Some(StringOrNull(payload, "target_operation_id"))
            && Get(r.body, "reason_code") == Some(StringOrNull(payload, "reason_code"))
            && Get(r.body, "reason_message") == Some(StringOrNull(payload, "reason_message"))
            && Get(r.body, "payload") == Some(if Get(payload, "payload").Some? then Get(payload, "payload").value else Null)
  {
    hide BuildRequest, Get, StringOrNull, DistinctKeys;
    RollbackMembers(id, payload);
    var ms := BuildRequest(id, RollbackAction, payload).body.members;
    RollbackKeys(ms);
    MemberAt(ms, 0);
    MemberAt(ms, 1);
    MemberAt(ms, 2);
    MemberAt(ms, 3);
    MemberAt(ms, 4);
  }

  /** Any other type yields no request. */
  lemma OthersAreUnsupported(id: string, name: string, payload: Json)
    ensures BuildRequest(id, OtherType(name), payload) == Unsupported
  {}
}
