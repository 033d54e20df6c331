/** The manifest documents of all sources, joined into one text. */
module ManifestSources {
  import opened Wrappers
  import opened Manifests
  import opened ManifestFacts

  /** A source: a URL with the body it was answered with, or a path with the tree found there. */
  datatype Source = Url(body: Option<string>) | At(tree: Tree)

  /** The content of the files at `ps`, or None when one cannot be read. */
  function ReadAll(t: Tree, ps: seq<Path>): Option<seq<string>> {
    if ps == [] then Some([])
    else
      var rest := ReadAll(t, ps[1..]);
      match Lookup(t, ps[0])
      case Some(File(Some(content))) => if rest.Some? then Some([content] + rest.value) else None
      case _ => None
  }

  /** The documents of one source, or None when it fails. */
  function Documents(src: Source): Option<seq<string>> {
    match src
    case Url(Some(body)) => Some([body])
    case At(File(Some(content))) => Some([content])
    case At(Dir(es)) =>
      var files := Walked(Dir(es));
      if files.Some? then ReadAll(Dir(es), files.value) else None
    case _ => None
  }

  function AllDocuments(inputs: seq<Source>): Option<seq<string>> {
    if inputs == [] then Some([])
    else
      var first, rest := Documents(inputs[0]), AllDocuments(inputs[1..]);
      if first.Some? && rest.Some? then Some(first.value + rest.value) else None
  }

  /** All documents in source order; None when a source fails or there is no document at all. */
  function Collected(inputs: seq<Source>): Option<seq<string>> {
    if AllDocuments(inputs) == Some([]) then None else AllDocuments(inputs)
  }

  lemma {:induction false} ReadStep(t: Tree, ps: seq<Path>, i: nat)
    requires i < |ps|
    ensures ReadAll(t, ps[..i]).Some? ==>
              ReadAll(t, ps[..i + 1]) == match Lookup(t, ps[i])
                                         case Some(File(Some(content))) => Some(ReadAll(t, ps[..i]).value + [content])
                                         case _ => None
    ensures ReadAll(t, ps[..i + 1]).None? ==> ReadAll(t, ps).None?
  {
    if i > 0 {
      ReadStep(t, ps[1..], i - 1);
      assert forall a: seq<string>, b: seq<string>, c: seq<string> :: a + (b + c) == (a + b) + c;
      assert ps[..i][1..] == ps[1..][..i - 1] && ps[..i + 1][1..] == ps[1..][..i];
    } else {
      assert ps[..i] == [] && ps[..i + 1] == [ps[0]] && ps[..i + 1][1..] == [];
      assert ReadAll(t, []) == Some([]);
      assert forall c: string :: [c] + [] == [] + [c];
    }
  }

  lemma {:induction false} AllStep(inputs: seq<Source>, i: nat)
    requires i < |inputs|
    ensures AllDocuments(inputs[..i]).Some? ==>
              AllDocuments(inputs[..i + 1]) == if Documents(inputs[i]).None? then None
                                               else Some(AllDocuments(inputs[..i]).value + Documents(inputs[i]).value)
    ensures AllDocuments(inputs[..i + 1]).None? ==> AllDocuments(inputs).None?
  {
    hide Documents;
    if i > 0 {
      AllStep(inputs[1..], i - 1);
      assert forall a: seq<string>, b: seq<string>, c: seq<string> :: a + (b + c) == (a + b) + c;
      assert inputs[..i][1..] == inputs[1..][..i - 1] && inputs[..i + 1][1..] == inputs[1..][..i];
    } else {
      assert inputs[..i] == [] && inputs[..i + 1] == [inputs[0]] && inputs[..i + 1][1..] == [];
      assert AllDocuments([]) == Some([]);
      assert forall d: seq<string> :: d + [] == d && [] + d == d;
    }
  }

  method CollectManifestSources(inputs: seq<Source>) returns (r: Option<seq<string>>)
    ensures r == Collected(inputs)
  {
    hide Documents;
    var out: seq<string> := [];
    for k := 0 to |inputs|
      invariant AllDocuments(inputs[..k]) == Some(out)
    {
      AllStep(inputs, k);
      var more := ReadSource(inputs[k]);
      if more.None? {
        return None;
      }
      out := out + more.value;
    }
    assert inputs[..|inputs|] == inputs;
    if out == [] {
      return None;
    }
    return Some(out);
  }

  method ReadSource(src: Source) returns (r: Option<seq<string>>)
    ensures r == Documents(src)
  {
    hide Walked, Lookup;
    if src.Url? {
      return if src.body.Some? then Some([src.body.value]) else None;
    }
    if src.tree.File? {
      return if src.tree.content.Some? then Some([src.tree.content.value]) else None;
    }
    if src.tree.Dir? {
      var files := CollectManifestFilesInDir(src.tree);
      if files.None? {
        return None;
      }
      var ps := files.value;
      var out: seq<string> := [];
      for i := 0 to |ps|
        invariant ReadAll(src.tree, ps[..i]) == Some(out)
      {
        ReadStep(src.tree, ps, i);
        match Lookup(src.tree, ps[i])
        case Some(File(Some(content))) =>
          out := out + [content];
        case _ =>
          return None;
      }
      assert ps[..|ps|] == ps;
      return Some(out);
    }
    return None;
  }

  /** A URL gives the body it was answered with, a file its content; a missing body, an unreadable file and anything that is neither file nor directory fail. */
  lemma SingleDocuments(src: Source)
    requires src.At? ==> !src.tree.Dir?
    ensures match src
            case Url(Some(body)) => Documents(src) == Some([body])
            case At(File(Some(content))) => Documents(src) == Some([content])
            case _ => Documents(src).None?
  {}

  /** The documents of all sources are those of each, in the order of the sources. */
  lemma {:induction false} DocumentsAppend(inputs: seq<Source>, src: Source)
    ensures AllDocuments([]) == Some([])
    ensures AllDocuments(inputs + [src]) ==
              if AllDocuments(inputs).None? || Documents(src).None? then None
              else Some(AllDocuments(inputs).value + Documents(src).value)
  {
    hide Documents;
    var all := inputs + [src];
    assert all[..|inputs|] == inputs && all[..|inputs| + 1] == all;
    AllStep(all, |inputs|);
    if AllDocuments(inputs).None? {
      FirstFailureStays(inputs, src);
    }
  }

  lemma {:induction false} FirstFailureStays(inputs: seq<Source>, src: Source)
    requires AllDocuments(inputs).None?
    ensures AllDocuments(inputs + [src]).None?
  {
    hide Documents;
    assert (inputs + [src])[1..] == inputs[1..] + [src];
    if Documents(inputs[0]).Some? {
      FirstFailureStays(inputs[1..], src);
    }
  }

  // ---- what the documents depend on --------------------------------------

  predicate SourcesWellFormed(inputs: seq<Source>) {
    forall i :: 0 <= i < |inputs| && inputs[i].At? ==> WellFormed(inputs[i].tree)
  }

  predicate SameSource(a: Source, b: Source) {
    a == b || (a.At? && b.At? && Same(a.tree, b.tree))
  }

  lemma {:induction false} SameContent(t: Tree, u: Tree, ps: seq<Path>)
    requires WellFormed(t) && WellFormed(u) && Same(t, u)
    ensures ReadAll(t, ps) == ReadAll(u, ps)
  {
    hide WellFormed, Lookup;
    if ps != [] {
      SameContent(t, u, ps[1..]);
      SameLookup(t, u, ps[0]);
    }
  }

  lemma SameDocuments(a: Source, b: Source)
    requires SameSource(a, b) && (a.At? ==> WellFormed(a.tree)) && (b.At? ==> WellFormed(b.tree))
    ensures Documents(a) == Documents(b)
  {
    hide WellFormed, Walked;
    if a != b && a.tree.Dir? {
      WalkedIgnoresListingOrder(a.tree, b.tree);
      if Walked(a.tree).Some? {
        SameContent(a.tree, b.tree, Walked(a.tree).value);
      }
    }
  }

  /** The documents, and so the joined manifest, depend on the trees alone, not on how directories list them. */
  lemma {:induction false} DocumentsIgnoreListingOrder(inputs: seq<Source>, others: seq<Source>)
    requires SourcesWellFormed(inputs) && SourcesWellFormed(others) && |inputs| == |others|
    requires forall i :: 0 <= i < |inputs| ==> SameSource(inputs[i], others[i])
    ensures AllDocuments(inputs) == AllDocuments(others) && Collected(inputs) == Collected(others)
  {
    hide Documents, SameSource;
    if inputs != [] {
      SameDocuments(inputs[0], others[0]);
      DocumentsIgnoreListingOrder(inputs[1..], others[1..]);
    }
  }

  predicate ReadableAt(t: Tree, p: Path) {
    match Lookup(t, p)
    case Some(File(content)) => content.Some?
    case _ => false
  }

  lemma {:induction false} ReadAllMeans(t: Tree, ps: seq<Path>)
    ensures ReadAll(t, ps).Some? <==> forall i :: 0 <= i < |ps| ==> ReadableAt(t, ps[i])
    ensures ReadAll(t, ps).Some? ==> |ReadAll(t, ps).value| == |ps|
    ensures ReadAll(t, ps).Some? ==> forall i :: 0 <= i < |ps| ==> Lookup(t, ps[i]) == Some(File(Some(ReadAll(t, ps).value[i])))
  {
    hide Lookup;
    if ps != [] {
      ReadAllMeans(t, ps[1..]);
      assert forall i :: 0 < i < |ps| ==> ps[i] == ps[1..][i - 1];
      assert forall i :: 0 <= i < |ps| - 1 ==> ps[1..][i] == ps[i + 1];
    }
  }

  /** A directory gives one document for each manifest file, in path order, and fails exactly when a node is unreadable. */
  lemma DirectoryDocuments(t: Tree)
    requires t.Dir? && WellFormed(t)
    ensures Documents(At(t)).None? <==>
              (SomeUnreadable(t) || exists p :: IsManifestAt(t, p) && !ReadableAt(t, p))
    ensures Documents(At(t)).Some? ==>
              Walked(t).Some? && |Documents(At(t)).value| == |Walked(t).value| &&
              forall i :: 0 <= i < |Walked(t).value| ==> Lookup(t, Walked(t).value[i]) == Some(File(Some(Documents(At(t)).value[i])))
  {
    hide Lookup, IsManifestName, IsManifestAt, ReadableAt, WellFormed, Fails, SomeUnreadable;
    FailsIff(t);
    if Walked(t).Some? {
      WalkedFiles(t);
      ReadAllMeans(t, Walked(t).value);
    }
  }

  /** The collection fails exactly when a source does, or when no source has a document. */
  lemma {:induction false} CollectedFailsIff(inputs: seq<Source>)
    ensures AllDocuments(inputs).None? <==> exists i :: 0 <= i < |inputs| && Documents(inputs[i]).None?
    ensures AllDocuments(inputs) == Some([]) <==> forall i :: 0 <= i < |inputs| ==> Documents(inputs[i]) == Some([])
    ensures Collected(inputs).None? <==>
              ((exists i :: 0 <= i < |inputs| && Documents(inputs[i]).None?) || forall i :: 0 <= i < |inputs| ==> Documents(inputs[i]) == Some([]))
  {
    hide Documents;
    if inputs != [] {
      CollectedFailsIff(inputs[1..]);
      var first, rest := Documents(inputs[0]), AllDocuments(inputs[1..]);
      assert first.Some? && rest.Some? ==> |first.value + rest.value| == |first.value| + |rest.value|;
      assert forall i :: 0 < i < |inputs| ==> inputs[i] == inputs[1..][i - 1];
      assert forall i :: 0 <= i < |inputs| - 1 ==> inputs[1..][i] == inputs[i + 1];
    }
  }

  // ---- the joined text ---------------------------------------------------

  const SEPARATOR := "\n---\n"

  function ManifestString(docs: seq<string>): string {
    if docs == [] then "" else if |docs| == 1 then docs[0] else docs[0] + SEPARATOR + ManifestString(docs[1..])
  }

  /** One document is the manifest itself; one more comes after a separator. */
  lemma {:induction false} ManifestAppend(docs: seq<string>, doc: string)
    ensures ManifestString([doc]) == doc
    ensures docs != [] ==> ManifestString(docs + [doc]) == ManifestString(docs) + "\n---\n" + doc
  {
    if docs != [] {
      assert (docs + [doc])[1..] == docs[1..] + [doc];
      ManifestAppend(docs[1..], doc);
      if |docs| > 1 {
        var rest := ManifestString(docs[1..]);
        assert docs[0] + SEPARATOR + (rest + "\n---\n" + doc) == docs[0] + SEPARATOR + rest + "\n---\n" + doc;
      } else {
        assert docs[1..] + [doc] == [doc];
      }
    }
  }

  /** The lines of a text, without their line ends. */
  function Lines(s: string): (r: seq<string>)
    ensures r != []
  {
    if s == "" then [""] else WithChar(s[0], Lines(s[1..]))
  }

  /** How many lines of a text are the separator's. */
  function MarkerLines(s: string): nat {
    Markers(Lines(s))
  }

  function Markers(ls: seq<string>): nat {
    if ls == [] then 0 else (if ls[0] == "---" then 1 else 0) + Markers(ls[1..])
  }

  /** The lines of a text that starts with `c`, from those of the text after it. */
  function WithChar(c: char, ls: seq<string>): seq<string>
    requires ls != []
  {
    if c == '\n' then [""] + ls else [[c] + ls[0]] + ls[1..]
  }

  lemma WithCharAppend(c: char, x: seq<string>, y: seq<string>)
    requires x != []
    ensures WithChar(c, x + y) == WithChar(c, x) + y
  {
    assert (x + y)[0] == x[0] && (x + y)[1..] == x[1..] + y;
  }

  lemma {:induction false} LinesOf(a: string, b: string)
    ensures Lines(a + "\n" + b) == Lines(a) + Lines(b)
  {
    var s := a + "\n" + b;
    if a == "" {
      assert s[1..] == b && s[0] == '\n';
    } else {
      LinesOf(a[1..], b);
      assert s[0] == a[0] && s[1..] == a[1..] + "\n" + b;
      WithCharAppend(a[0], Lines(a[1..]), Lines(b));
    }
  }

  lemma LinesOfJoin(a: string, b: string)
    ensures Lines(a + SEPARATOR + b) == Lines(a) + ["---"] + Lines(b)
  {
    hide Lines;
    assert a + SEPARATOR + b == a + "\n" + ("---" + "\n" + b);
    LinesOf(a, "---" + "\n" + b);
    LinesOf("---", b);
    OneLine("---");
  }

  lemma {:induction false} OneLine(s: string)
    requires '\n' !in s
    ensures Lines(s) == [s]
  {
    if s != "" {
      OneLine(s[1..]);
      assert [s[0]] + s[1..] == s;
    }
  }

  lemma {:induction false} MarkersAdd(a: seq<string>, b: seq<string>)
    ensures Markers(a + b) == Markers(a) + Markers(b)
  {
    if a == [] {
      assert a + b == b;
    } else {
      MarkersAdd(a[1..], b);
      assert (a + b)[1..] == a[1..] + b;
    }
  }

  function TotalMarkers(docs: seq<string>): nat {
    if docs == [] then 0 else MarkerLines(docs[0]) + TotalMarkers(docs[1..])
  }

  /** The joined text has one separator line between two documents and those the documents hold themselves. */
  lemma {:induction false} SeparatorCount(docs: seq<string>)
    requires docs != []
    ensures MarkerLines(ManifestString(docs)) == |docs| - 1 + TotalMarkers(docs)
  {
    hide Lines;
    if |docs| > 1 {
      var rest := ManifestString(docs[1..]);
      SeparatorCount(docs[1..]);
      LinesOfJoin(docs[0], rest);
      MarkersAdd(Lines(docs[0]) + ["---"], Lines(rest));
      MarkersAdd(Lines(docs[0]), ["---"]);
      assert Markers(["---"]) == 1;
    }
  }

  lemma {:induction false} NoMarkers(docs: seq<string>)
    ensures TotalMarkers(docs) == 0 <==> forall i :: 0 <= i < |docs| ==> MarkerLines(docs[i]) == 0
  {
    hide MarkerLines;
    if docs != [] {
      NoMarkers(docs[1..]);
      assert forall i :: 0 < i < |docs| ==> docs[i] == docs[1..][i - 1];
      assert forall i :: 0 <= i < |docs| - 1 ==> docs[1..][i] == docs[i + 1];
    }
  }

  /** The separator lines tell how many documents were joined exactly when no document holds such a line. */
  lemma DocumentCountIff(docs: seq<string>)
    requires docs != []
    ensures MarkerLines(ManifestString(docs)) + 1 == |docs| <==> forall i :: 0 <= i < |docs| ==> MarkerLines(docs[i]) == 0
  {
    hide MarkerLines;
    SeparatorCount(docs);
    NoMarkers(docs);
  }

  lemma {:induction false} LinesInjective(s: string, t: string)
    requires Lines(s) == Lines(t)
    ensures s == t
  {
    if s != "" && t != "" {
      var a, b := Lines(s[1..]), Lines(t[1..]);
      assert (s[0] == '\n') == (t[0] == '\n') by {
        assert Lines(s)[0] == "" <==> s[0] == '\n';
        assert Lines(t)[0] == "" <==> t[0] == '\n';
      }
      assert s == [s[0]] + s[1..] && t == [t[0]] + t[1..];
      if s[0] == '\n' {
        assert a == Lines(s)[1..] && b == Lines(t)[1..];
      } else {
        assert Lines(s)[0][1..] == a[0] && Lines(t)[0][1..] == b[0];
        assert a == [a[0]] + Lines(s)[1..] && b == [b[0]] + Lines(t)[1..];
      }
      LinesInjective(s[1..], t[1..]);
    }
  }

  lemma {:induction false} FirstMarker(a: seq<string>, x: seq<string>, b: seq<string>, y: seq<string>)
    requires Markers(a) == 0 && Markers(b) == 0 && a + ["---"] + x == b + ["---"] + y
    ensures a == b && x == y
  {
    var l, m := a + ["---"] + x, b + ["---"] + y;
    assert if a == [] then l[0] == "---" else l[0] == a[0] && a[0] != "---";
    assert if b == [] then m[0] == "---" else m[0] == b[0] && b[0] != "---";
    assert l[1..] == m[1..];
    if a == [] {
      assert l[1..] == x && m[1..] == y;
    } else {
      assert l[1..] == a[1..] + ["---"] + x && m[1..] == b[1..] + ["---"] + y;
      FirstMarker(a[1..], x, b[1..], y);
      assert a == [a[0]] + a[1..] && b == [b[0]] + b[1..];
    }
  }

  /** Documents without separator lines can be told apart in the joined text. */
  lemma {:induction false} JoinInjective(docs: seq<string>, others: seq<string>)
    requires docs != [] && others != []
    requires TotalMarkers(docs) == 0 && TotalMarkers(others) == 0
    requires ManifestString(docs) == ManifestString(others)
    ensures docs == others
  {
    hide Lines;
    SeparatorCount(docs);
    SeparatorCount(others);
    if |docs| > 1 {
      var x, y := ManifestString(docs[1..]), ManifestString(others[1..]);
      LinesOfJoin(docs[0], x);
      LinesOfJoin(others[0], y);
      FirstMarker(Lines(docs[0]), Lines(x), Lines(others[0]), Lines(y));
      LinesInjective(docs[0], others[0]);
      LinesInjective(x, y);
      JoinInjective(docs[1..], others[1..]);
      assert docs == [docs[0]] + docs[1..] && others == [others[0]] + others[1..];
    }
  }
}
