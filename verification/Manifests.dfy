/** The manifest collector: an explicit-stack directory walk and the documents it gathers. */
module Manifests {
  import opened Wrappers
  import opened Text

  /** A finite file tree. Entries are in listing order; an unreadable node makes the walk fail. */
  datatype Tree =
    | File(content: Option<string>) // None: it cannot be read
    | Dir(entries: seq<Entry>)
    | ClosedDir // a directory that cannot be listed
    | Special // neither a file nor a directory
    | Broken // its metadata cannot be read

  datatype Entry = Entry(name: string, tree: Tree)

  type Path = seq<string>

  predicate IsManifestName(name: string) {
    var i := AfterLast(name, '.');
    i > 1 && name[i..] in {"yaml", "yml", "json"}
  }

  /** The extension rule without positions: a non-empty stem, a dot, and one of three extensions. */
  lemma ManifestNameIff(name: string)
    ensures IsManifestName(name) <==>
              exists stem, ext :: stem != "" && ext in {"yaml", "yml", "json"} && name == stem + ['.'] + ext
  {
    var i := AfterLast(name, '.');
    if IsManifestName(name) {
      assert name == name[..i - 1] + ['.'] + name[i..];
      assert name[..i - 1] != "";
    }
    if stem, ext :| stem != "" && ext in {"yaml", "yml", "json"} && name == stem + ['.'] + ext {
      assert '.' !in "yaml" && '.' !in "yml" && '.' !in "json";
      LastSeparator(stem, ext, '.');
    }
  }

  // ---- the recursive definition ------------------------------------------

  /** The manifest files below a directory, depth first in listing order. */
  function FileList(path: Path, t: Tree): seq<Path>
    decreases t
  {
    if t.Dir? then EntriesList(path, t.entries) else []
  }

  function EntriesList(path: Path, es: seq<Entry>): seq<Path>
    decreases es
  {
    if es == [] then [] else EntryList(path, es[0]) + EntriesList(path, es[1..])
  }

  function EntryList(path: Path, e: Entry): seq<Path>
    decreases e, 1
  {
    if e.tree.File? && IsManifestName(e.name) then [path + [e.name]] else FileList(path + [e.name], e.tree)
  }

  /** Some node of the tree cannot be listed or has no readable metadata. */
  predicate Fails(t: Tree)
    decreases t
  {
    t.ClosedDir? || t.Broken? || (t.Dir? && EntriesFail(t.entries))
  }

  predicate EntriesFail(es: seq<Entry>)
    decreases es
  {
    es != [] && (Fails(es[0].tree) || EntriesFail(es[1..]))
  }

  // ---- orders ------------------------------------------------------------

  /** Paths compare component by component. */
  predicate PathBefore(a: Path, b: Path) {
    b != [] && (a == [] || Before(a[0], b[0]) || (a[0] == b[0] && PathBefore(a[1..], b[1..])))
  }

  lemma {:induction false} PathBeforeTotal(a: Path, b: Path)
    ensures PathBefore(a, b) || a == b || PathBefore(b, a)
    ensures !(PathBefore(a, b) && PathBefore(b, a)) && !PathBefore(a, a)
  {
    if a != [] {
      BeforeTotal(a[0], a[0]);
      PathBeforeTotal(a[1..], a[1..]);
      if b != [] {
        BeforeTotal(a[0], b[0]);
        PathBeforeTotal(a[1..], b[1..]);
        assert a == [a[0]] + a[1..] && b == [b[0]] + b[1..];
      }
    }
  }

  lemma {:induction false} PathBeforeTransitive(a: Path, b: Path, c: Path)
    requires PathBefore(a, b) && PathBefore(b, c)
    ensures PathBefore(a, c)
  {
    if a != [] {
      BeforeTotal(a[0], a[0]);
      if Before(a[0], b[0]) && Before(b[0], c[0]) {
        BeforeTransitive(a[0], b[0], c[0]);
      }
      if a[0] == b[0] == c[0] {
        PathBeforeTransitive(a[1..], b[1..], c[1..]);
      }
    }
  }

  function InsertPath(p: Path, s: seq<Path>): seq<Path> {
    if s == [] || !PathBefore(s[0], p) then [p] + s else [s[0]] + InsertPath(p, s[1..])
  }

  function SortPaths(ps: seq<Path>): seq<Path> {
    if ps == [] then [] else InsertPath(ps[0], SortPaths(ps[1..]))
  }

  function InsertEntry(e: Entry, s: seq<Entry>): seq<Entry> {
    if s == [] || !Before(s[0].name, e.name) then [e] + s else [s[0]] + InsertEntry(e, s[1..])
  }

  function SortEntries(es: seq<Entry>): seq<Entry> {
    if es == [] then [] else InsertEntry(es[0], SortEntries(es[1..]))
  }

  /** The recursive definition's answer for a directory: its files in path order, or None when a node fails. */
  function Walked(t: Tree): Option<seq<Path>> {
    if t.Dir? && !Fails(t) then Some(SortPaths(FileList([], t))) else None
  }

  /** No path stands after a greater one. */
  predicate Sorted(ps: seq<Path>) {
    forall i, j :: 0 <= i < j < |ps| ==> !PathBefore(ps[j], ps[i])
  }

  lemma NoneBefore(p: Path, s: seq<Path>, j: nat)
    requires Sorted(s) && j < |s| && !PathBefore(s[0], p)
    ensures !PathBefore(s[j], p)
  {
    hide PathBefore;
    if PathBefore(s[j], p) && j > 0 {
      PathBeforeTotal(s[j], s[0]);
      if PathBefore(s[0], s[j]) {
        PathBeforeTransitive(s[0], s[j], p);
      }
    }
  }

  lemma SortedCons(x: Path, s: seq<Path>)
    requires Sorted(s) && forall j :: 0 <= j < |s| ==> !PathBefore(s[j], x)
    ensures Sorted([x] + s)
  {}

  lemma {:induction false} InsertPathBag(p: Path, s: seq<Path>)
    ensures multiset(InsertPath(p, s)) == multiset(s) + multiset{p}
  {
    hide PathBefore;
    if s != [] && PathBefore(s[0], p) {
      InsertPathBag(p, s[1..]);
      assert s == [s[0]] + s[1..];
    }
  }

  lemma {:induction false} InsertPathFacts(p: Path, s: seq<Path>)
    requires Sorted(s)
    ensures Sorted(InsertPath(p, s)) && multiset(InsertPath(p, s)) == multiset(s) + multiset{p}
  {
    hide PathBefore;
    InsertPathBag(p, s);
    if s == [] || !PathBefore(s[0], p) {
      forall j | 0 <= j < |s|
        ensures !PathBefore(s[j], p)
      {
        NoneBefore(p, s, j);
      }
      SortedCons(p, s);
    } else {
      InsertPathFacts(p, s[1..]);
      InsertPathBag(p, s[1..]);
      PathBeforeTotal(s[0], p);
      var r := InsertPath(p, s[1..]);
      forall j | 0 <= j < |r|
        ensures !PathBefore(r[j], s[0])
      {
        assert r[j] in multiset(r);
        assert r[j] == p || r[j] in s[1..];
      }
      SortedCons(s[0], r);
    }
  }

  lemma {:induction false} SortPathsFacts(ps: seq<Path>)
    ensures Sorted(SortPaths(ps)) && multiset(SortPaths(ps)) == multiset(ps)
  {
    if ps != [] {
      SortPathsFacts(ps[1..]);
      InsertPathFacts(ps[0], SortPaths(ps[1..]));
      assert ps == [ps[0]] + ps[1..];
    }
  }

  lemma FirstIsLeast(a: seq<Path>, p: Path)
    requires Sorted(a) && p in a
    ensures !PathBefore(p, a[0])
  {
    PathBeforeTotal(p, p);
  }

  /** Sorted lists with the same elements are the same list. */
  lemma {:induction false} SortedUnique(a: seq<Path>, b: seq<Path>)
    requires Sorted(a) && Sorted(b) && multiset(a) == multiset(b)
    ensures a == b
  {
    if a == [] {
      assert |multiset(b)| == 0;
    } else {
      assert |multiset(b)| == |a| > 0;
      assert a[0] in multiset(b) && b[0] in multiset(a);
      FirstIsLeast(a, b[0]);
      FirstIsLeast(b, a[0]);
      PathBeforeTotal(a[0], b[0]);
      RestOf(a);
      RestOf(b);
      SortedUnique(a[1..], b[1..]);
    }
  }

  lemma RestOf(a: seq<Path>)
    requires Sorted(a) && a != []
    ensures Sorted(a[1..]) && a == [a[0]] + a[1..] && multiset(a[1..]) == multiset(a) - multiset{a[0]}
  {
    assert a == [a[0]] + a[1..];
  }

  lemma SortCanonical(a: seq<Path>, b: seq<Path>)
    requires multiset(a) == multiset(b)
    ensures SortPaths(a) == SortPaths(b)
  {
    SortPathsFacts(a);
    SortPathsFacts(b);
    SortedUnique(SortPaths(a), SortPaths(b));
  }

  // ---- the walk ----------------------------------------------------------

  datatype Item = Item(path: Path, tree: Tree)

  function StackBag(stack: seq<Item>): multiset<Path> {
    if stack == [] then multiset{}
    else multiset(FileList(stack[0].path, stack[0].tree)) + StackBag(stack[1..])
  }

  predicate StackFails(stack: seq<Item>) {
    stack != [] && (Fails(stack[0].tree) || StackFails(stack[1..]))
  }

  function Size(t: Tree): nat
    decreases t
  {
    1 + if t.Dir? then EntriesSize(t.entries) else 0
  }

  function EntriesSize(es: seq<Entry>): nat
    decreases es
  {
    if es == [] then 0 else Size(es[0].tree) + EntriesSize(es[1..])
  }

  function StackSize(stack: seq<Item>): nat {
    if stack == [] then 0 else Size(stack[0].tree) + StackSize(stack[1..])
  }

  lemma {:induction false} StackPush(stack: seq<Item>, x: Item)
    ensures StackBag(stack + [x]) == StackBag(stack) + multiset(FileList(x.path, x.tree))
    ensures StackFails(stack + [x]) <==> StackFails(stack) || Fails(x.tree)
    ensures StackSize(stack + [x]) == StackSize(stack) + Size(x.tree)
  {
    if stack == [] {
      assert stack + [x] == [x] && [x][1..] == [];
    } else {
      StackPush(stack[1..], x);
      assert (stack + [x])[1..] == stack[1..] + [x];
    }
  }

  lemma {:induction false} SortEntriesKeeps(path: Path, es: seq<Entry>)
    ensures multiset(EntriesList(path, SortEntries(es))) == multiset(EntriesList(path, es))
    ensures EntriesFail(SortEntries(es)) <==> EntriesFail(es)
    ensures EntriesSize(SortEntries(es)) == EntriesSize(es)
  {
    if es != [] {
      SortEntriesKeeps(path, es[1..]);
      InsertEntryKeeps(path, es[0], SortEntries(es[1..]));
    }
  }

  lemma {:induction false} InsertEntryKeeps(path: Path, e: Entry, s: seq<Entry>)
    ensures multiset(EntriesList(path, InsertEntry(e, s))) == multiset(EntryList(path, e)) + multiset(EntriesList(path, s))
    ensures EntriesFail(InsertEntry(e, s)) <==> Fails(e.tree) || EntriesFail(s)
    ensures EntriesSize(InsertEntry(e, s)) == Size(e.tree) + EntriesSize(s)
  {
    if s == [] || !Before(s[0].name, e.name) {
      assert ([e] + s)[1..] == s;
    } else {
      InsertEntryKeeps(path, e, s[1..]);
      var r := InsertEntry(e, s[1..]);
      assert ([s[0]] + r)[1..] == r;
    }
  }

  /** The files found, those below the stack and those below the entries still to scan are the root's; so are the failures. */
  predicate Conserved(root: Tree, path: Path, es: seq<Entry>, stack: seq<Item>, files: seq<Path>) {
    multiset(files) + StackBag(stack) + multiset(EntriesList(path, es)) == multiset(FileList([], root)) &&
    (Fails(root) <==> StackFails(stack) || EntriesFail(es)) &&
    forall x :: x in stack ==> x.tree.Dir? || x.tree.ClosedDir?
  }

  lemma FirstEntry(path: Path, es: seq<Entry>)
    requires es != []
    ensures multiset(EntriesList(path, es)) == multiset(EntryList(path, es[0])) + multiset(EntriesList(path, es[1..]))
    ensures EntriesFail(es) <==> Fails(es[0].tree) || EntriesFail(es[1..])
    ensures EntriesSize(es) == Size(es[0].tree) + EntriesSize(es[1..])
  {}

  lemma EntryFacts(path: Path, e: Entry)
    ensures e.tree.Broken? ==> Fails(e.tree)
    ensures e.tree.Dir? || e.tree.ClosedDir? ==> EntryList(path, e) == FileList(path + [e.name], e.tree)
    ensures !e.tree.Dir? && !e.tree.ClosedDir? && !e.tree.Broken? ==> !Fails(e.tree)
    ensures !e.tree.Dir? && !e.tree.ClosedDir? ==>
              EntryList(path, e) == if e.tree.File? && IsManifestName(e.name) then [path + [e.name]] else []
    ensures Size(e.tree) > 0
  {}

  lemma WalkStarts(root: Tree)
    requires root.Dir?
    ensures Conserved(root, [], [], [Item([], root)], [])
  {
    StackPush([], Item([], root));
    assert [] + [Item([], root)] == [Item([], root)];
  }

  lemma NoEntriesLeft(root: Tree, path: Path, stack: seq<Item>, files: seq<Path>)
    requires Conserved(root, path, [], stack, files)
    ensures Conserved(root, [], [], stack, files)
  {}

  lemma WalkEnds(root: Tree, files: seq<Path>)
    requires root.Dir? && Conserved(root, [], [], [], files)
    ensures Walked(root) == Some(SortPaths(files))
  {
    SortCanonical(files, FileList([], root));
  }

  /** Taking a directory off the stack to scan it. */
  lemma PopStep(root: Tree, stack: seq<Item>, current: Item, files: seq<Path>)
    requires current.tree.Dir? && Conserved(root, [], [], stack + [current], files)
    ensures var es := SortEntries(current.tree.entries);
            Conserved(root, current.path, es, stack, files) && StackSize(stack) + EntriesSize(es) < StackSize(stack + [current])
  {
    StackPush(stack, current);
    SortEntriesKeeps(current.path, current.tree.entries);
    forall x | x in stack
      ensures x.tree.Dir? || x.tree.ClosedDir?
    {
      assert x in stack + [current];
    }
  }

  lemma TopFails(root: Tree, stack: seq<Item>, current: Item, files: seq<Path>)
    requires !current.tree.Dir? && Conserved(root, [], [], stack + [current], files)
    ensures Fails(root)
  {
    StackPush(stack, current);
    assert current in stack + [current];
  }

  lemma PushStep(root: Tree, path: Path, es: seq<Entry>, stack: seq<Item>, files: seq<Path>)
    requires es != [] && Conserved(root, path, es, stack, files) && (es[0].tree.Dir? || es[0].tree.ClosedDir?)
    ensures var stack' := stack + [Item(path + [es[0].name], es[0].tree)];
            Conserved(root, path, es[1..], stack', files) && StackSize(stack') + EntriesSize(es[1..]) == StackSize(stack) + EntriesSize(es)
  {
    hide Fails, EntriesFail, EntriesList, EntryList, FileList, StackBag, StackFails, StackSize, EntriesSize, Size;
    FirstEntry(path, es);
    EntryFacts(path, es[0]);
    StackPush(stack, Item(path + [es[0].name], es[0].tree));
  }

  lemma FileStep(root: Tree, path: Path, es: seq<Entry>, stack: seq<Item>, files: seq<Path>)
    requires es != [] && Conserved(root, path, es, stack, files) && !es[0].tree.Dir? && !es[0].tree.ClosedDir? && !es[0].tree.Broken?
    ensures var found := if es[0].tree.File? && IsManifestName(es[0].name) then [path + [es[0].name]] else [];
            Conserved(root, path, es[1..], stack, files + found) && EntriesSize(es[1..]) < EntriesSize(es)
  {
    hide Fails, EntriesFail, EntriesList, EntryList, FileList, StackBag, StackFails, StackSize, EntriesSize, Size, IsManifestName;
    FirstEntry(path, es);
    EntryFacts(path, es[0]);
  }

  lemma FailStep(root: Tree, path: Path, es: seq<Entry>, stack: seq<Item>, files: seq<Path>)
    requires es != [] && Conserved(root, path, es, stack, files) && es[0].tree.Broken?
    ensures Fails(root)
  {
    hide Fails, EntriesFail, EntriesList, FileList, StackBag, StackFails;
    FirstEntry(path, es);
    EntryFacts(path, es[0]);
  }

  /** The walk with an explicit stack and a final sort is the recursive definition. */
  method CollectManifestFilesInDir(root: Tree) returns (r: Option<seq<Path>>)
    ensures r == Walked(root)
  {
    hide FileList, EntriesList, StackBag, StackFails, EntriesFail, StackSize, EntriesSize, SortEntries, SortPaths, Conserved, IsManifestName;
    var stack := [Item([], root)];
    var files: seq<Path> := [];
    if root.Dir? {
      WalkStarts(root);
    }
    while stack != []
      invariant root.Dir? ==> Conserved(root, [], [], stack, files)
      invariant !root.Dir? ==> stack == [Item([], root)]
      decreases StackSize(stack)
    {
      var current := stack[|stack| - 1];
      assert stack == stack[..|stack| - 1] + [current];
      if !current.tree.Dir? {
        if root.Dir? {
          TopFails(root, stack[..|stack| - 1], current, files);
        }
        return None;
      }
      ghost var before := StackSize(stack);
      stack := stack[..|stack| - 1];
      var entries := SortEntries(current.tree.entries);
      PopStep(root, stack, current, files);
      for i := 0 to |entries|
        invariant Conserved(root, current.path, entries[i..], stack, files)
        invariant StackSize(stack) + EntriesSize(entries[i..]) < before
      {
        var e := entries[i];
        var path := current.path + [e.name];
        assert entries[i..][0] == e && entries[i..][1..] == entries[i + 1..];
        if e.tree.Broken? {
          FailStep(root, current.path, entries[i..], stack, files);
          return None;
        }
        if e.tree.Dir? || e.tree.ClosedDir? {
          PushStep(root, current.path, entries[i..], stack, files);
          stack := stack + [Item(path, e.tree)];
        } else {
          FileStep(root, current.path, entries[i..], stack, files);
          if e.tree.File? && IsManifestName(e.name) {
            files := files + [path];
          } else {
            assert files + [] == files;
          }
        }
      }
      assert entries[|entries|..] == [];
      NoEntriesLeft(root, current.path, stack, files);
    }
    WalkEnds(root, files);
    return Some(SortPaths(files));
  }
}
