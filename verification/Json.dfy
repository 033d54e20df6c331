/** JSON values with members in insertion order, and the canonical form that hides that order. */
module Json {
  import opened Wrappers
  import opened Text

  datatype Json =
    | Null
    | Bool(b: bool)
    | Num(n: int)
    | Str(s: string)
    | Arr(items: seq<Json>)
    | Obj(members: seq<Member>)

  datatype Member = Member(key: string, value: Json)

  predicate DistinctKeys(ms: seq<Member>) {
    forall i, j :: 0 <= i < j < |ms| ==> ms[i].key != ms[j].key
  }

  /** No object, at any depth, has two members with one key. */
  predicate WellFormed(v: Json) {
    match v
    case Arr(items) => forall i :: 0 <= i < |items| ==> WellFormed(items[i])
    case Obj(ms) => DistinctKeys(ms) && forall i :: 0 <= i < |ms| ==> WellFormed(ms[i].value)
    case _ => true
  }

  function Find(ms: seq<Member>, key: string): (r: Option<Json>)
    ensures r.Some? ==> exists i :: 0 <= i < |ms| && ms[i] == Member(key, r.value)
    ensures r.None? ==> forall i :: 0 <= i < |ms| ==> ms[i].key != key
  {
    if ms == [] then None
    else if ms[0].key == key then
      assert ms[0] == Member(key, ms[0].value);
      Some(ms[0].value)
    else
      var r := Find(ms[1..], key);
      assert r.Some? ==> exists i :: 0 <= i < |ms[1..]| && ms[1..][i] == ms[i + 1] == Member(key, r.value);
      assert r.None? ==> forall i :: 1 <= i < |ms| ==> ms[i] == ms[1..][i - 1];
      r
  }

  /** Member lookup; anything but an object has no members. */
  function Get(v: Json, key: string): Option<Json> {
    if v.Obj? then Find(v.members, key) else None
  }

  // ---- the canonical form ------------------------------------------------

  function Insert(m: Member, s: seq<Member>): seq<Member> {
    if s == [] || Before(m.key, s[0].key) then [m] + s else [s[0]] + Insert(m, s[1..])
  }

  function Sort(ms: seq<Member>): seq<Member> {
    if ms == [] then [] else Insert(ms[0], Sort(ms[1..]))
  }

  function CanonicalMember(m: Member): Member {
    Member(m.key, Canonical(m.value))
  }

  function CanonicalMembers(ms: seq<Member>): seq<Member> {
    seq(|ms|, i requires 0 <= i < |ms| => CanonicalMember(ms[i]))
  }

  function Canonical(v: Json): Json {
    match v
    case Arr(items) => Arr(seq(|items|, i requires 0 <= i < |items| => Canonical(items[i])))
    case Obj(ms) => Obj(Sort(CanonicalMembers(ms)))
    case _ => v
  }

  lemma CanonicalMembersFacts(ms: seq<Member>)
    ensures |CanonicalMembers(ms)| == |ms|
    ensures forall i :: 0 <= i < |ms| ==> CanonicalMembers(ms)[i] == Member(ms[i].key, Canonical(ms[i].value))
    ensures DistinctKeys(ms) ==> DistinctKeys(CanonicalMembers(ms))
  {
    assert forall i :: 0 <= i < |ms| ==> CanonicalMembers(ms)[i] == CanonicalMember(ms[i]);
  }

  predicate StrictlySorted(ms: seq<Member>) {
    forall i, j :: 0 <= i < j < |ms| ==> Before(ms[i].key, ms[j].key)
  }

  lemma {:induction false} InsertKeeps(m: Member, s: seq<Member>)
    requires StrictlySorted(s)
    requires forall i :: 0 <= i < |s| ==> s[i].key != m.key
    ensures StrictlySorted(Insert(m, s))
    ensures |Insert(m, s)| == |s| + 1
    ensures forall x :: x in Insert(m, s) <==> x == m || x in s
  {
    if s != [] {
      BeforeTotal(m.key, s[0].key);
      if Before(m.key, s[0].key) {
        forall j | 0 < j < |s| ensures Before(m.key, s[j].key) {
          BeforeTransitive(m.key, s[0].key, s[j].key);
        }
      } else {
        InsertKeeps(m, s[1..]);
        var r := Insert(m, s[1..]);
        assert s == [s[0]] + s[1..];
        forall j | 0 <= j < |r| ensures Before(s[0].key, r[j].key) {
          assert r[j] in r;
        }
      }
    }
  }

  lemma {:induction false} SortFacts(ms: seq<Member>)
    requires DistinctKeys(ms)
    ensures StrictlySorted(Sort(ms))
    ensures |Sort(ms)| == |ms|
    ensures forall x :: x in Sort(ms) <==> x in ms
  {
    if ms != [] {
      SortFacts(ms[1..]);
      var rest := Sort(ms[1..]);
      forall i | 0 <= i < |rest| ensures rest[i].key != ms[0].key {
        assert rest[i] in ms[1..];
      }
      InsertKeeps(ms[0], rest);
      assert ms == [ms[0]] + ms[1..];
    }
  }

  lemma SortedDistinct(ms: seq<Member>)
    requires StrictlySorted(ms)
    ensures DistinctKeys(ms)
  {
    forall i, j | 0 <= i < j < |ms| ensures ms[i].key != ms[j].key {
      BeforeTotal(ms[i].key, ms[j].key);
    }
  }

  /** Two sorted member lists with the same members are the same list. */
  lemma {:induction false} SortedUnique(a: seq<Member>, b: seq<Member>)
    requires StrictlySorted(a) && StrictlySorted(b)
    requires forall x :: x in a <==> x in b
    ensures a == b
  {
    if a == [] {
      assert forall i :: 0 <= i < |b| ==> b[i] in a;
    } else {
      assert a[0] in b;
      assert b[0] in a;
      var i :| 0 <= i < |b| && b[i] == a[0];
      var j :| 0 <= j < |a| && a[j] == b[0];
      BeforeTotal(a[0].key, b[0].key);
      assert a[0] == b[0];
      BeforeTotal(a[0].key, a[0].key);
      var s, t := a[1..], b[1..];
      assert a == [a[0]] + s && b == [b[0]] + t;
      forall x ensures x in s <==> x in t {
        assert a[0] !in s && a[0] !in t;
        assert x in a <==> x == a[0] || x in s;
        assert x in b <==> x == a[0] || x in t;
      }
      SortedUnique(s, t);
    }
  }

  lemma FindUnique(ms: seq<Member>, i: nat)
    requires DistinctKeys(ms) && i < |ms|
    ensures Find(ms, ms[i].key) == Some(ms[i].value)
  {
    var r := Find(ms, ms[i].key);
    assert r.Some?;
    var j :| 0 <= j < |ms| && ms[j] == Member(ms[i].key, r.value);
    assert i == j;
  }

  lemma {:induction false} CanonicalWellFormed(v: Json)
    requires WellFormed(v)
    ensures WellFormed(Canonical(v))
  {
    match v
    case Arr(items) =>
      forall i | 0 <= i < |items| ensures WellFormed(Canonical(items[i])) {
        CanonicalWellFormed(items[i]);
      }
    case Obj(ms) =>
      var cs := CanonicalMembers(ms);
      CanonicalMembersFacts(ms);
      SortFacts(cs);
      SortedDistinct(Sort(cs));
      forall i | 0 <= i < |Sort(cs)| ensures WellFormed(Sort(cs)[i].value) {
        assert Sort(cs)[i] in cs;
        var j :| 0 <= j < |cs| && cs[j] == Sort(cs)[i];
        CanonicalWellFormed(ms[j].value);
      }
    case _ =>
  }

  /** Keys are sorted in every object, at every depth. */
  predicate SortedDeep(v: Json) {
    match v
    case Arr(items) => forall i :: 0 <= i < |items| ==> SortedDeep(items[i])
    case Obj(ms) => StrictlySorted(ms) && forall i :: 0 <= i < |ms| ==> SortedDeep(ms[i].value)
    case _ => true
  }

  lemma {:induction false} CanonicalSorted(v: Json)
    requires WellFormed(v)
    ensures SortedDeep(Canonical(v))
  {
    match v
    case Arr(items) =>
      forall i | 0 <= i < |items| ensures SortedDeep(Canonical(items[i])) {
        CanonicalSorted(items[i]);
      }
    case Obj(ms) =>
      var cs := CanonicalMembers(ms);
      CanonicalMembersFacts(ms);
      SortFacts(cs);
      forall i | 0 <= i < |Sort(cs)| ensures SortedDeep(Sort(cs)[i].value) {
        assert Sort(cs)[i] in cs;
        var j :| 0 <= j < |cs| && cs[j] == Sort(cs)[i];
        CanonicalSorted(ms[j].value);
      }
    case _ =>
  }

  // ---- lookups at every depth --------------------------------------------

  datatype Step = Key(key: string) | Index(i: nat)

  /** The value reached by a path of member names and array positions. */
  function At(v: Json, path: seq<Step>): Option<Json> {
    if path == [] then Some(v)
    else match path[0]
      case Key(k) =>
        var r := Get(v, k);
        if r.None? then None else At(r.value, path[1..])
      case Index(i) =>
        if v.Arr? && i < |v.items| then At(v.items[i], path[1..]) else None
  }

  lemma GetCanonical(v: Json, key: string)
    requires WellFormed(v)
    ensures Get(Canonical(v), key) ==
            match Get(v, key) case None => None case Some(w) => Some(Canonical(w))
    ensures Get(v, key).Some? ==> WellFormed(Get(v, key).value)
  {
    if v.Obj? {
      var ms := v.members;
      var cs := CanonicalMembers(ms);
      CanonicalMembersFacts(ms);
      SortFacts(cs);
      SortedDistinct(Sort(cs));
      var r := Find(ms, key);
      if r.Some? {
        var i :| 0 <= i < |ms| && ms[i] == Member(key, r.value);
        assert cs[i] in Sort(cs);
        var j :| 0 <= j < |Sort(cs)| && Sort(cs)[j] == cs[i];
        FindUnique(Sort(cs), j);
      } else {
        forall j | 0 <= j < |Sort(cs)| ensures Sort(cs)[j].key != key {
          assert Sort(cs)[j] in cs;
        }
      }
    }
  }

  /** Canonicalising changes no lookup: what a path reached before, its canonical form is reached after. */
  lemma {:induction false} CanonicalKeepsLookups(v: Json, path: seq<Step>)
    requires WellFormed(v)
    ensures At(Canonical(v), path) ==
            match At(v, path) case None => None case Some(w) => Some(Canonical(w))
    decreases path
  {
    if path != [] {
      match path[0]
      case Key(k) =>
        GetCanonical(v, k);
        if Get(v, k).Some? {
          CanonicalKeepsLookups(Get(v, k).value, path[1..]);
        }
      case Index(i) =>
        if v.Arr? && i < |v.items| {
          CanonicalKeepsLookups(v.items[i], path[1..]);
        }
    }
  }

  // ---- equality up to member order ---------------------------------------

  /** `a` and `b` differ at most in the order of object members. */
  ghost predicate Same(a: Json, b: Json)
    decreases a, 1
  {
    match a
    case Arr(xs) =>
      b.Arr? && |xs| == |b.items| && forall i :: 0 <= i < |xs| ==> Same(xs[i], b.items[i])
    case Obj(ms) =>
      && b.Obj?
      && (forall i :: 0 <= i < |ms| ==> OnRight(ms[i], b.members))
      && (forall j :: 0 <= j < |b.members| ==> OnLeft(ms, b.members[j]))
    case _ => a == b
  }

  /** Some member of `ns` has the key of `m` and the same value. */
  ghost predicate OnRight(m: Member, ns: seq<Member>)
    decreases m, 0
  {
    exists j :: 0 <= j < |ns| && m.key == ns[j].key && Same(m.value, ns[j].value)
  }

  /** Some member of `ms` has the key of `n` and the same value. */
  ghost predicate OnLeft(ms: seq<Member>, n: Member)
    decreases ms, 0
  {
    exists i :: 0 <= i < |ms| && ms[i].key == n.key && Same(ms[i].value, n.value)
  }

  /** Sorting hides exactly the order of the members. */
  lemma SortIff(cs: seq<Member>, ds: seq<Member>)
    requires DistinctKeys(cs) && DistinctKeys(ds)
    ensures Sort(cs) == Sort(ds) <==>
            (forall i :: 0 <= i < |cs| ==> cs[i] in ds) && (forall j :: 0 <= j < |ds| ==> ds[j] in cs)
  {
    hide Sort, DistinctKeys;
    SortFacts(cs);
    SortFacts(ds);
    if (forall i :: 0 <= i < |cs| ==> cs[i] in ds) && (forall j :: 0 <= j < |ds| ==> ds[j] in cs) {
      SortedUnique(Sort(cs), Sort(ds));
    }
  }

  /** The canonical form identifies exactly the values that differ only in member order. */
  lemma {:induction false} CanonicalIffSame(a: Json, b: Json)
    requires WellFormed(a) && WellFormed(b)
    ensures Canonical(a) == Canonical(b) <==> Same(a, b)
    decreases a, 1
  {
    match a
    case Arr(xs) =>
      if b.Arr? {
        CanonicalItemsIff(xs, b.items, a);
      }
    case Obj(ms) =>
      if b.Obj? {
        CanonicalMembersIff(ms, b.members, a);
      }
    case _ =>
  }

  lemma {:induction false} CanonicalItemsIff(xs: seq<Json>, ys: seq<Json>, a: Json)
    requires a == Arr(xs) && WellFormed(a) && WellFormed(Arr(ys))
    ensures Canonical(a) == Canonical(Arr(ys)) <==> Same(a, Arr(ys))
    decreases a, 0
  {
    var cs, ds := Canonical(a).items, Canonical(Arr(ys)).items;
    assert |cs| == |xs| && |ds| == |ys|;
    if |xs| == |ys| {
      forall i | 0 <= i < |xs| ensures cs[i] == ds[i] <==> Same(xs[i], ys[i]) {
        CanonicalIffSame(xs[i], ys[i]);
      }
    }
  }

  lemma {:induction false} CanonicalMembersIff(ms: seq<Member>, ns: seq<Member>, a: Json)
    requires a == Obj(ms) && WellFormed(a) && WellFormed(Obj(ns))
    ensures Canonical(a) == Canonical(Obj(ns)) <==> Same(a, Obj(ns))
    decreases a, 0
  {
    var cs, ds := CanonicalMembers(ms), CanonicalMembers(ns);
    CanonicalMembersFacts(ms);
    CanonicalMembersFacts(ns);
    forall i, j | 0 <= i < |ms| && 0 <= j < |ns|
      ensures cs[i] == ds[j] <==> ms[i].key == ns[j].key && Same(ms[i].value, ns[j].value)
    {
      CanonicalIffSame(ms[i].value, ns[j].value);
    }
    SortIff(cs, ds);
    forall i | 0 <= i < |ms| ensures cs[i] in ds <==> OnRight(ms[i], ns) {
      OnRightIff(ms[i], ns, cs[i], ds);
    }
    forall j | 0 <= j < |ns| ensures ds[j] in cs <==> OnLeft(ms, ns[j]) {
      OnLeftIff(ms, ns[j], cs, ds[j]);
    }
  }

  lemma OnRightIff(m: Member, ns: seq<Member>, c: Member, ds: seq<Member>)
    requires |ds| == |ns|
    requires forall j :: 0 <= j < |ns| ==> (c == ds[j] <==> m.key == ns[j].key && Same(m.value, ns[j].value))
    ensures c in ds <==> OnRight(m, ns)
  {
    if c in ds {
      var j :| 0 <= j < |ds| && ds[j] == c;
      assert m.key == ns[j].key && Same(m.value, ns[j].value);
    }
  }

  lemma OnLeftIff(ms: seq<Member>, n: Member, cs: seq<Member>, d: Member)
    requires |cs| == |ms|
    requires forall i :: 0 <= i < |ms| ==> (cs[i] == d <==> ms[i].key == n.key && Same(ms[i].value, n.value))
    ensures d in cs <==> OnLeft(ms, n)
  {
    if d in cs {
      var i :| 0 <= i < |cs| && cs[i] == d;
      assert ms[i].key == n.key && Same(ms[i].value, n.value);
    }
  }

  lemma {:induction false} SameReflexive(v: Json)
    ensures Same(v, v)
  {
    match v
    case Arr(items) =>
      forall i | 0 <= i < |items| ensures Same(items[i], items[i]) { SameReflexive(items[i]); }
    case Obj(ms) =>
      forall i | 0 <= i < |ms| ensures OnRight(ms[i], ms) && OnLeft(ms, ms[i]) {
        SameReflexive(ms[i].value);
      }
    case _ =>
  }

  lemma {:induction false} SameAsCanonical(v: Json)
    requires WellFormed(v)
    ensures Same(v, Canonical(v))
  {
    match v
    case Arr(items) =>
      forall i | 0 <= i < |items| ensures Same(items[i], Canonical(items[i])) { SameAsCanonical(items[i]); }
    case Obj(ms) =>
      var cs := CanonicalMembers(ms);
      CanonicalMembersFacts(ms);
      SortFacts(cs);
      forall i | 0 <= i < |ms| ensures Same(ms[i].value, cs[i].value) { SameAsCanonical(ms[i].value); }
      forall i | 0 <= i < |ms| ensures OnRight(ms[i], Sort(cs)) {
        assert cs[i] in Sort(cs);
        var j :| 0 <= j < |Sort(cs)| && Sort(cs)[j] == cs[i];
      }
      forall j | 0 <= j < |Sort(cs)| ensures OnLeft(ms, Sort(cs)[j]) {
        assert Sort(cs)[j] in cs;
        var i :| 0 <= i < |cs| && cs[i] == Sort(cs)[j];
      }
    case _ => SameReflexive(v);
  }

  lemma CanonicalIdempotent(v: Json)
    requires WellFormed(v)
    ensures Canonical(Canonical(v)) == Canonical(v)
  {
    SameAsCanonical(v);
    CanonicalWellFormed(v);
    CanonicalIffSame(v, Canonical(v));
  }

  // ---- the recursive procedure -------------------------------------------

  lemma {:induction false} SortCommutes(ms: seq<Member>)
    ensures |Sort(ms)| == |ms|
    ensures Sort(CanonicalMembers(ms)) == CanonicalMembers(Sort(ms))
  {
    if ms != [] {
      SortCommutes(ms[1..]);
      assert CanonicalMembers(ms)[1..] == CanonicalMembers(ms[1..]);
      InsertCommutes(ms[0], Sort(ms[1..]));
    }
  }

  lemma {:induction false} InsertCommutes(m: Member, s: seq<Member>)
    ensures |Insert(m, s)| == |s| + 1
    ensures Insert(CanonicalMember(m), CanonicalMembers(s)) == CanonicalMembers(Insert(m, s))
  {
    if s == [] || Before(m.key, s[0].key) {
      assert CanonicalMembers([m] + s) == [CanonicalMember(m)] + CanonicalMembers(s);
    } else {
      InsertCommutes(m, s[1..]);
      assert CanonicalMembers(s)[1..] == CanonicalMembers(s[1..]);
      assert CanonicalMembers([s[0]] + Insert(m, s[1..])) == [CanonicalMember(s[0])] + CanonicalMembers(Insert(m, s[1..]));
    }
  }

  /** The keys of an object in sorted order. */
  function SortedKeys(ms: seq<Member>): seq<string> {
    seq(|Sort(ms)|, i requires 0 <= i < |Sort(ms)| => Sort(ms)[i].key)
  }

  /** The k-th member in sorted order is the one that looking up the k-th key finds. */
  lemma SortedMember(ms: seq<Member>, k: nat) returns (i: nat)
    requires DistinctKeys(ms) && k < |Sort(ms)|
    ensures i < |ms| && ms[i] == Sort(ms)[k]
    ensures Find(ms, SortedKeys(ms)[k]) == Some(ms[i].value)
  {
    SortFacts(ms);
    assert Sort(ms)[k] in ms;
    i :| 0 <= i < |ms| && ms[i] == Sort(ms)[k];
    FindUnique(ms, i);
  }

  /** Rebuilds every object by inserting its members in key order, as the source's loop does. */
  method CanonicalJson(value: Json) returns (r: Json)
    requires WellFormed(value)
    ensures r == Canonical(value)
    decreases value, 1
  {
    match value
    case Obj(members) =>
      var rebuilt := CanonicalObject(members, value);
      r := Obj(rebuilt);
    case Arr(items) =>
      var rebuilt: seq<Json> := [];
      for k := 0 to |items|
        invariant |rebuilt| == k
        invariant forall i :: 0 <= i < k ==> rebuilt[i] == Canonical(items[i])
      {
        var inner := CanonicalJson(items[k]);
        rebuilt := rebuilt + [inner];
      }
      assert rebuilt == Canonical(value).items;
      r := Arr(rebuilt);
    case _ =>
      r := value;
  }

  method CanonicalObject(members: seq<Member>, ghost value: Json) returns (rebuilt: seq<Member>)
    requires value == Obj(members) && WellFormed(value)
    ensures rebuilt == Sort(CanonicalMembers(members))
    decreases value, 0
  {
    hide Sort, Canonical;
    var keys := SortedKeys(members);
    SortCommutes(members);
    ghost var sorted := CanonicalMembers(Sort(members));
    CanonicalMembersFacts(Sort(members));
    rebuilt := [];
    for k := 0 to |keys|
      invariant rebuilt == sorted[..k]
    {
      ghost var i := SortedMember(members, k);
      var found := Find(members, keys[k]);
      if found.Some? {
        var inner := CanonicalJson(found.value);
        rebuilt := rebuilt + [Member(keys[k], inner)];
      }
    }
  }
}
