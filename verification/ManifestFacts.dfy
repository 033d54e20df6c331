/** What the collected manifest depends on: the files of the tree, not the order they are listed in. */
module ManifestFacts {
  import opened Wrappers
  import opened Text
  import opened Manifests

  /** The first entry of a name. */
  function FindEntry(es: seq<Entry>, name: string): Option<Entry> {
    if es == [] then None else if es[0].name == name then Some(es[0]) else FindEntry(es[1..], name)
  }

  /** No directory, at any depth, has two entries of one name. */
  predicate WellFormed(t: Tree)
    decreases t
  {
    t.Dir? ==> EntriesWellFormed(t.entries)
  }

  predicate EntriesWellFormed(es: seq<Entry>)
    decreases es
  {
    es != [] ==> WellFormed(es[0].tree) && FindEntry(es[1..], es[0].name).None? && EntriesWellFormed(es[1..])
  }

  /** The node that a path leads to. */
  function Lookup(t: Tree, p: Path): Option<Tree>
    decreases |p|, 0
  {
    if p == [] then Some(t) else if t.Dir? then LookupEntry(FindEntry(t.entries, p[0]), p[1..]) else None
  }

  function LookupEntry(e: Option<Entry>, p: Path): Option<Tree>
    decreases |p|, 1
  {
    if e.Some? then Lookup(e.value.tree, p) else None
  }

  predicate IsManifestAt(t: Tree, p: Path) {
    p != [] && IsManifestName(p[|p| - 1]) && Lookup(t, p).Some? && Lookup(t, p).value.File?
  }

  predicate UnreadableAt(t: Tree, p: Path) {
    Lookup(t, p) == Some(ClosedDir) || Lookup(t, p) == Some(Broken)
  }

  // ---- each manifest file once -------------------------------------------

  lemma {:induction false} FilesBelow(path: Path, t: Tree)
    ensures forall p :: p in FileList(path, t) ==> |path| < |p| && p[..|path|] == path
    decreases t
  {
    if t.Dir? {
      EntriesBelow(path, t.entries);
    }
  }

  lemma {:induction false} EntryBelow(path: Path, e: Entry)
    ensures forall p :: p in EntryList(path, e) ==> |path| < |p| && p[..|path|] == path && p[|path|] == e.name
    decreases e, 1
  {
    FilesBelow(path + [e.name], e.tree);
    forall p | p in EntryList(path, e)
      ensures |path| < |p| && p[..|path|] == path && p[|path|] == e.name
    {
      assert p[..|path| + 1] == path + [e.name];
      assert p[..|path|] == p[..|path| + 1][..|path|];
    }
  }

  lemma {:induction false} EntriesBelow(path: Path, es: seq<Entry>)
    ensures forall p :: p in EntriesList(path, es) ==> |path| < |p| && p[..|path|] == path
    decreases es
  {
    if es != [] {
      EntryBelow(path, es[0]);
      EntriesBelow(path, es[1..]);
    }
  }

  function Once(b: bool): nat {
    if b then 1 else 0
  }

  /** The recursive definition holds each manifest file of the tree once, and nothing else. */
  lemma {:induction false} FileCount(path: Path, t: Tree, q: Path)
    requires WellFormed(t)
    ensures multiset(FileList(path, t))[path + q] == Once(t.Dir? && IsManifestAt(t, q))
    decreases t, 0
  {
    if t.Dir? {
      EntriesCount(path, t.entries, q);
    }
  }

  /** The manifest file, if any, that `q` leads to through the entry of its first name. */
  predicate ThroughEntry(e: Option<Entry>, q: Path) {
    q != [] && IsManifestName(q[|q| - 1]) && LookupEntry(e, q[1..]).Some? && LookupEntry(e, q[1..]).value.File?
  }

  lemma {:induction false} EntriesCount(path: Path, es: seq<Entry>, q: Path)
    requires EntriesWellFormed(es)
    ensures multiset(EntriesList(path, es))[path + q] == Once(q != [] && ThroughEntry(FindEntry(es, q[0]), q))
    decreases es, 0
  {
    if es != [] {
      EntriesCount(path, es[1..], q);
      EntryCount(path, es[0], q);
    }
  }

  lemma {:induction false} EntryCount(path: Path, e: Entry, q: Path)
    requires WellFormed(e.tree)
    ensures multiset(EntryList(path, e))[path + q] == Once(q != [] && q[0] == e.name && ThroughEntry(Some(e), q))
    decreases e, 1
  {
    hide IsManifestName;
    if q != [] && q[0] == e.name {
      assert path + q == path + [e.name] + q[1..];
      if e.tree.File? {
        FileEntryCount(path, e, q);
      } else {
        FileCount(path + [e.name], e.tree, q[1..]);
        assert EntryList(path, e) == FileList(path + [e.name], e.tree);
        assert LookupEntry(Some(e), q[1..]) == Lookup(e.tree, q[1..]);
        assert !e.tree.Dir? && q[1..] != [] ==> Lookup(e.tree, q[1..]).None?;
        assert q[1..] != [] ==> q[1..][|q[1..]| - 1] == q[|q| - 1];
      }
    } else {
      EntryBelow(path, e);
      assert q != [] ==> (path + q)[|path|] == q[0];
      assert path + q !in EntryList(path, e);
    }
  }

  lemma FileEntryCount(path: Path, e: Entry, q: Path)
    requires e.tree.File? && q != [] && q[0] == e.name
    ensures multiset(EntryList(path, e))[path + q] == Once(ThroughEntry(Some(e), q))
  {
    hide IsManifestName;
    var listed := EntryList(path, e);
    assert path + q == path + [e.name] <==> |q| == 1;
    assert LookupEntry(Some(e), q[1..]) == if |q| == 1 then Some(e.tree) else None;
    assert listed == if IsManifestName(e.name) then [path + [e.name]] else [];
    assert |q| == 1 ==> q[|q| - 1] == e.name;
  }

  /** The paths agree on their first `k` components, and there the first ends or has the lower one. */
  ghost predicate PathDivergesAt(a: Path, b: Path, k: nat) {
    k <= |a| && k < |b| && (forall i :: 0 <= i < k ==> a[i] == b[i]) && (k == |a| || exists m: nat :: DivergesAt(a[k], b[k], m))
  }

  /** Path order is the order by the first component that differs, a directory coming before what is below it. */
  lemma {:induction false} PathBeforeMeans(a: Path, b: Path)
    ensures PathBefore(a, b) <==> exists k: nat :: PathDivergesAt(a, b, k)
  {
    hide Before, DivergesAt;
    if a != [] && b != [] {
      BeforeMeans(a[0], b[0]);
      BeforeTotal(a[0], a[0]);
      PathBeforeMeans(a[1..], b[1..]);
      if a[0] == b[0] {
        if k: nat :| PathDivergesAt(a[1..], b[1..], k) {
          assert forall i :: 1 <= i < k + 1 ==> a[i] == a[1..][i - 1] && b[i] == b[1..][i - 1];
          assert PathDivergesAt(a, b, k + 1);
        }
        BeforeMeans(a[0], a[0]);
        if k: nat :| PathDivergesAt(a, b, k) {
          assert k > 0;
          assert PathDivergesAt(a[1..], b[1..], k - 1);
        }
      } else {
        assert Before(a[0], b[0]) ==> PathDivergesAt(a, b, 0);
        assert forall k: nat :: PathDivergesAt(a, b, k) ==> k == 0;
      }
    } else if b != [] {
      assert PathDivergesAt(a, b, 0);
    }
  }

  /** In path order, without repetition. */
  predicate Ascending(ps: seq<Path>) {
    forall i, j :: 0 <= i < j < |ps| ==> PathBefore(ps[i], ps[j])
  }

  lemma SortedOnce(ps: seq<Path>)
    requires Sorted(ps) && forall p :: multiset(ps)[p] <= 1
    ensures Ascending(ps)
  {
    forall i, j | 0 <= i < j < |ps|
      ensures PathBefore(ps[i], ps[j])
    {
      PathBeforeTotal(ps[i], ps[j]);
      assert ps == ps[..j] + ps[j..];
      assert ps[i] in multiset(ps[..j]) && ps[j] in multiset(ps[j..]);
      assert multiset(ps)[ps[j]] == multiset(ps[..j])[ps[j]] + multiset(ps[j..])[ps[j]];
    }
  }

  lemma FileCounts(t: Tree)
    requires WellFormed(t) && t.Dir?
    ensures forall p :: multiset(FileList([], t))[p] == Once(IsManifestAt(t, p))
  {
    forall p
      ensures multiset(FileList([], t))[p] == Once(IsManifestAt(t, p))
    {
      FileCount([], t, p);
      assert [] + p == p;
    }
  }

  /** The walk returns exactly the manifest files of the tree, in path order and each once. */
  lemma WalkedFiles(t: Tree)
    requires WellFormed(t) && Walked(t).Some?
    ensures Ascending(Walked(t).value)
    ensures forall p :: p in Walked(t).value <==> IsManifestAt(t, p)
  {
    hide IsManifestAt;
    var files := FileList([], t);
    FileCounts(t);
    SortPathsFacts(files);
    SortedOnce(SortPaths(files));
    forall p
      ensures p in SortPaths(files) <==> IsManifestAt(t, p)
    {
      assert p in SortPaths(files) <==> multiset(files)[p] > 0;
    }
  }

  // ---- when the walk fails -----------------------------------------------

  ghost predicate SomeUnreadable(t: Tree) {
    exists p :: UnreadableAt(t, p)
  }

  /** The walk of a directory fails exactly when some path leads to a node that cannot be listed or read. */
  lemma {:induction false} FailsIff(t: Tree)
    requires WellFormed(t)
    ensures Fails(t) <==> SomeUnreadable(t)
    decreases t
  {
    if t.ClosedDir? || t.Broken? {
      assert UnreadableAt(t, []);
    } else if t.Dir? {
      EntriesFailIff(t.entries);
      if EntriesFail(t.entries) {
        var name, p :| UnreadableThrough(t.entries, name, p);
        assert ([name] + p)[1..] == p;
        assert UnreadableAt(t, [name] + p);
      }
      if p :| UnreadableAt(t, p) {
        assert p != [];
        assert Lookup(t, p) == LookupEntry(FindEntry(t.entries, p[0]), p[1..]);
        assert UnreadableThrough(t.entries, p[0], p[1..]);
      }
    } else {
      assert forall p :: p != [] ==> Lookup(t, p).None?;
    }
  }

  predicate UnreadableThrough(es: seq<Entry>, name: string, p: Path) {
    FindEntry(es, name).Some? && UnreadableAt(FindEntry(es, name).value.tree, p)
  }

  lemma {:induction false} EntriesFailIff(es: seq<Entry>)
    requires EntriesWellFormed(es)
    ensures EntriesFail(es) <==> exists name, p :: UnreadableThrough(es, name, p)
    decreases es
  {
    if es != [] {
      FailsIff(es[0].tree);
      EntriesFailIff(es[1..]);
      if Fails(es[0].tree) {
        var p :| UnreadableAt(es[0].tree, p);
        assert UnreadableThrough(es, es[0].name, p);
      }
      if EntriesFail(es[1..]) {
        var name, p :| UnreadableThrough(es[1..], name, p);
        assert UnreadableThrough(es, name, p);
      }
      if name, p :| UnreadableThrough(es, name, p) {
        assert if name == es[0].name then UnreadableAt(es[0].tree, p) else UnreadableThrough(es[1..], name, p);
      }
    }
  }

  // ---- independence of the listing order ---------------------------------

  /** The same tree up to the order in which directories list their entries. */
  predicate Same(t: Tree, u: Tree)
    decreases t
  {
    if t.Dir? && u.Dir? then
      (forall i :: 0 <= i < |t.entries| ==> HasSame(t.entries[i], u.entries)) &&
      (forall j :: 0 <= j < |u.entries| ==> exists i :: 0 <= i < |t.entries| && t.entries[i].name == u.entries[j].name)
    else t == u
  }

  predicate HasSame(e: Entry, es: seq<Entry>)
    decreases e
  {
    exists j :: 0 <= j < |es| && es[j].name == e.name && Same(e.tree, es[j].tree)
  }

  lemma {:induction false} FindsEntry(es: seq<Entry>, i: nat)
    requires EntriesWellFormed(es) && i < |es|
    ensures FindEntry(es, es[i].name) == Some(es[i]) && WellFormed(es[i].tree)
  {
    if i > 0 {
      FindsEntry(es[1..], i - 1);
      assert es[1..][i - 1] == es[i];
    }
  }

  lemma {:induction false} EntryFound(es: seq<Entry>, name: string) returns (i: nat)
    requires FindEntry(es, name).Some?
    ensures i < |es| && es[i].name == name && FindEntry(es, name).value == es[i]
  {
    if es[0].name == name {
      i := 0;
    } else {
      i := EntryFound(es[1..], name);
      assert es[1..][i] == es[i + 1];
      i := i + 1;
    }
  }

  /** Every path leads, in two listings of one tree, to two listings of one node. */
  lemma {:induction false} SameLookup(t: Tree, u: Tree, p: Path)
    requires WellFormed(t) && WellFormed(u) && Same(t, u)
    ensures Lookup(t, p).Some? <==> Lookup(u, p).Some?
    ensures Lookup(t, p).Some? ==> Same(Lookup(t, p).value, Lookup(u, p).value)
    decreases |p|
  {
    if p != [] && t.Dir? && u.Dir? {
      if FindEntry(t.entries, p[0]).Some? {
        var i := EntryFound(t.entries, p[0]);
        assert HasSame(t.entries[i], u.entries);
        var j :| 0 <= j < |u.entries| && u.entries[j].name == p[0] && Same(t.entries[i].tree, u.entries[j].tree);
        FindsEntry(t.entries, i);
        FindsEntry(u.entries, j);
        SameLookup(t.entries[i].tree, u.entries[j].tree, p[1..]);
      }
      if FindEntry(u.entries, p[0]).Some? {
        var j := EntryFound(u.entries, p[0]);
        var i :| 0 <= i < |t.entries| && t.entries[i].name == u.entries[j].name;
        FindsEntry(t.entries, i);
      }
    }
  }

  lemma SameManifests(t: Tree, u: Tree, p: Path)
    requires WellFormed(t) && WellFormed(u) && Same(t, u)
    ensures IsManifestAt(t, p) <==> IsManifestAt(u, p)
    ensures UnreadableAt(t, p) <==> UnreadableAt(u, p)
  {
    hide IsManifestName;
    SameLookup(t, u, p);
  }

  /** The walk's answer does not depend on the order in which directories list their entries. */
  lemma WalkedIgnoresListingOrder(t: Tree, u: Tree)
    requires WellFormed(t) && WellFormed(u) && Same(t, u)
    ensures Walked(t) == Walked(u)
  {
    hide IsManifestAt, UnreadableAt, WellFormed;
    forall p
      ensures IsManifestAt(t, p) <==> IsManifestAt(u, p)
      ensures UnreadableAt(t, p) <==> UnreadableAt(u, p)
    {
      SameManifests(t, u, p);
    }
    FailsIff(t);
    FailsIff(u);
    if t.Dir? && u.Dir? {
      FileCounts(t);
      FileCounts(u);
      assert multiset(FileList([], t)) == multiset(FileList([], u));
      SortCanonical(FileList([], t), FileList([], u));
    }
  }
}
