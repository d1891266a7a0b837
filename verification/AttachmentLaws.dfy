/** What runs of attachment calls guarantee when they come one at a time. */
module AttachmentLaws {
  import opened Order
  import opened Chars
  import opened AttachmentLabels
  import opened AttachmentStore

  // ------------------------------------------------------------------------ nothing is rewritten

  ghost predicate Kept(a: Files, b: Files) { forall q | q in a :: q in b && b[q] == a[q] }

  ghost predicate TreeKept(a: Tree, b: Tree) { forall d | d in a :: d in b && Kept(a[d], b[d]) }

  lemma {:induction false} ParentsKept(files: Files, path: seq<string>, i: nat)
    ensures Kept(files, MakeParents(files, path, i).0)
    decreases |path| - i
  {
    if i < |path| {
      ParentsKept(if path[..i] in files then files else files[path[..i] := Dir], path, i + 1);
    }
  }

  lemma {:induction false} CopyKept(folds: bool, files: Files, sources: seq<Source>)
    ensures Kept(files, CopyAll(folds, files, sources).0)
    decreases |sources|
  {
    if sources != [] && sources[0].contents.Some? {
      var place, dotted := Place(folds, sources[0].name), EndsInDot(sources[0].name);
      ParentsKept(files, place, 1);
      var next := Written(files, place, dotted, sources[0].contents.value).0;
      assert Kept(files, next);
      hide Written;
      CopyKept(folds, next, sources[1..]);
    }
  }

  datatype Call = Locating(id: string) | Copying(id: string, sources: seq<Source>)

  function Done(folds: bool, tree: Tree, call: Call): Tree {
    match call
    case Locating(id) => Allocated(tree, id)
    case Copying(id, sources) => CopiedLocal(folds, tree, id, sources).0
  }

  function After(folds: bool, tree: Tree, calls: seq<Call>): Tree
    decreases |calls|
  {
    if calls == [] then tree else After(folds, Done(folds, tree, calls[0]), calls[1..])
  }

  lemma CallKept(folds: bool, tree: Tree, call: Call)
    ensures TreeKept(tree, Done(folds, tree, call))
  {
    assert TreeKept(tree, Allocated(tree, call.id));
    if call.Copying? {
      hide FirstProblem, Allocated;
      LocatedExistsIf(tree, call.id);
      var after := Allocated(tree, call.id);
      if Locate(tree, call.id).At? { CopyKept(folds, after[Locate(tree, call.id).path], call.sources); }
    }
  }

  /** No file's bytes and no directory ever change, whatever is called later. */
  lemma {:induction false} NothingIsRewritten(folds: bool, tree: Tree, calls: seq<Call>)
    ensures TreeKept(tree, After(folds, tree, calls))
    decreases |calls|
  {
    if calls != [] {
      hide Done;
      CallKept(folds, tree, calls[0]);
      NothingIsRewritten(folds, Done(folds, tree, calls[0]), calls[1..]);
    }
  }

  // ------------------------------------------------------------------------- a fresh copy is exact

  ghost predicate Under(q: seq<string>, places: seq<seq<string>>) {
    exists i | 0 <= i < |places| :: q != [] && q < places[i]
  }

  /** Exactly the marker with the id, each place with its bytes, and the directories those need. */
  ghost predicate Laid(files: Files, id: string, places: seq<seq<string>>, contents: seq<string>)
    requires |places| == |contents|
  {
    && MARKER in files && files[MARKER] == File(id)
    && (forall i | 0 <= i < |places| :: places[i] in files && files[places[i]] == File(contents[i]))
    && (forall q | Under(q, places) :: q in files && files[q] == Dir)
    && (forall q | q in files :: q == MARKER || q in places || Under(q, places))
  }

  /** Places that cannot shadow each other or the marker. */
  ghost predicate Apart(places: seq<seq<string>>) {
    && (forall i | 0 <= i < |places| :: places[i] != [] && Incomparable(places[i], MARKER))
    && (forall i, j | 0 <= i < j < |places| :: Incomparable(places[i], places[j]))
  }

  /** Making the parents of a place that no file is in the way of adds just its proper prefixes. */
  lemma {:induction false} ParentsMade(files: Files, path: seq<string>, i: nat)
    requires 1 <= i && forall q | q in files && q < path :: files[q] == Dir
    ensures MakeParents(files, path, i).1
    ensures var made := MakeParents(files, path, i).0;
            && (forall q | q in files :: q in made && made[q] == files[q])
            && (forall k | i <= k < |path| :: path[..k] in made && made[path[..k]] == Dir)
            && (forall q | q in made && q !in files :: q != [] && q < path && made[q] == Dir)
    decreases |path| - i
  {
    if i < |path| {
      var next := if path[..i] in files then files else files[path[..i] := Dir];
      ParentsMade(next, path, i + 1);
    }
  }

  lemma PlaceWritten(files: Files, id: string, places: seq<seq<string>>, contents: seq<string>, path: seq<string>,
                     bytes: string)
    requires |places| == |contents| && Laid(files, id, places, contents) && Apart(places + [path])
    ensures Written(files, path, false, bytes).1
    ensures Laid(Written(files, path, false, bytes).0, id, places + [path], contents + [bytes])
    ensures !Written(files, path, true, bytes).1
  {
    NothingInTheWay(files, id, places, contents, path);
    ParentsMade(files, path, 1);
    var made := MakeParents(files, path, 1).0;
    var all := places + [path];
    assert path !in made;
    var next := made[path := File(bytes)];
    assert forall i | 0 <= i < |places| :: all[i] == places[i];
    assert all[|places|] == path;
    forall q | Under(q, all) ensures q in next && next[q] == Dir {
      var i :| 0 <= i < |all| && q != [] && q < all[i];
      if i == |places| {
        assert q == path[..|q|];
      } else {
        assert Under(q, places);
      }
    }
    forall q | q in next ensures q == MARKER || q in all || Under(q, all) {
      if q in files {
        if Under(q, places) { var i :| 0 <= i < |places| && q != [] && q < places[i]; assert q < all[i]; }
      } else if q != path {
        assert q < all[|places|];
      }
    }
  }

  /** Nothing on the way to a place apart from the others is a file, and the place itself is free. */
  lemma NothingInTheWay(files: Files, id: string, places: seq<seq<string>>, contents: seq<string>, path: seq<string>)
    requires |places| == |contents| && Laid(files, id, places, contents) && Apart(places + [path])
    ensures path !in files && forall q | q in files && q < path :: files[q] == Dir
  {
    var all := places + [path];
    assert all[|places|] == path;
    forall i | 0 <= i < |places| ensures Incomparable(places[i], path) { assert all[i] == places[i]; }
    forall q | q in files && q <= path ensures Under(q, places) && q != path {
      assert Incomparable(path, MARKER);
      if Under(q, places) {
        var i :| 0 <= i < |places| && q != [] && q < places[i];
        assert Incomparable(places[i], path);
      }
    }
  }

  function PlacesOf(folds: bool, sources: seq<Source>): seq<seq<string>> {
    seq(|sources|, i requires 0 <= i < |sources| => Place(folds, sources[i].name))
  }

  function ContentsOf(sources: seq<Source>): seq<string> {
    seq(|sources|, i requires 0 <= i < |sources| => if sources[i].contents.Some? then sources[i].contents.value else "")
  }

  /** A source that can be copied: it is readable and its label does not end in ".". */
  predicate Copyable(source: Source) { source.contents.Some? && !EndsInDot(source.name) }

  lemma PrefixApart(places: seq<seq<string>>, n: nat)
    requires Apart(places) && n <= |places|
    ensures Apart(places[..n])
  {
  }

  lemma {:induction false} CopyLays(folds: bool, files: Files, id: string, done: seq<Source>, rest: seq<Source>)
    requires Laid(files, id, PlacesOf(folds, done), ContentsOf(done)) && Apart(PlacesOf(folds, done + rest))
    ensures CopyAll(folds, files, rest).1 <==> forall i | 0 <= i < |rest| :: Copyable(rest[i])
    ensures CopyAll(folds, files, rest).1 ==>
              Laid(CopyAll(folds, files, rest).0, id, PlacesOf(folds, done + rest), ContentsOf(done + rest))
    decreases |rest|
  {
    hide Written, Laid, Apart, Place, EndsInDot;
    if rest == [] {
      assert done + rest == done;
    } else if rest[0].contents.Some? {
      var x := rest[0];
      var place, bytes := Place(folds, x.name), x.contents.value;
      assert done + [x] + rest[1..] == done + rest;
      assert PlacesOf(folds, done) + [place] == PlacesOf(folds, done + [x])
             == PlacesOf(folds, done + rest)[..|done| + 1];
      assert ContentsOf(done + [x]) == ContentsOf(done) + [bytes];
      PrefixApart(PlacesOf(folds, done + rest), |done| + 1);
      PlaceWritten(files, id, PlacesOf(folds, done), ContentsOf(done), place, bytes);
      if Copyable(x) {
        CopyLays(folds, Written(files, place, false, bytes).0, id, done + [x], rest[1..]);
        assert forall i | 0 <= i < |rest[1..]| :: rest[1..][i] == rest[i + 1];
        assert forall i | 0 < i < |rest| :: rest[i] == rest[1..][i - 1];
      }
    }
  }

  lemma AcceptableIsApart(folds: bool, sources: seq<Source>)
    requires Acceptable(NamesOf(sources))
    ensures Apart(PlacesOf(folds, sources))
  {
    var names, places := NamesOf(sources), PlacesOf(folds, sources);
    hide Acceptable, Normalized, PathOf;
    forall i, j | 0 <= i < |places| && 0 <= j < |places|
      ensures i != j ==> Incomparable(places[i], places[j])
      ensures Incomparable(places[i], MARKER)
    {
      AcceptedPathsApart(names, i, j);
    }
    assert forall i | 0 <= i < |places| :: places[i] == [] ==> places[i] <= MARKER;
  }

  lemma EmptyLays(folds: bool, id: string, sources: seq<Source>)
    requires Acceptable(NamesOf(sources))
    ensures var (files, ok) := CopyAll(folds, map[MARKER := File(id)], sources);
            && (ok <==> forall i | 0 <= i < |sources| :: Copyable(sources[i]))
            && (ok ==> Laid(files, id, PlacesOf(folds, sources), ContentsOf(sources)))
  {
    AcceptableIsApart(folds, sources);
    assert Laid(map[MARKER := File(id)], id, [], []);
    assert PlacesOf(folds, []) == [] && ContentsOf([]) == [] && [] + sources == sources;
    hide Acceptable, CopyAll, Place, Laid, PlacesOf, ContentsOf;
    CopyLays(folds, map[MARKER := File(id)], id, [], sources);
  }

  /** Copying into a fresh directory succeeds exactly when every source is readable and no label ends in "." as a
      path, and then leaves exactly the marker with the id and each label with its bytes; other directories stay. */
  lemma FreshCopyIsExact(folds: bool, tree: Tree, id: string, sources: seq<Source>)
    requires sources != [] && Acceptable(NamesOf(sources)) && Locate(tree, id).At?
    requires var d := Locate(tree, id).path; d !in tree || tree[d] == map[MARKER := File(id)]
    ensures var (after, r) := CopiedLocal(folds, tree, id, sources);
            var d := Locate(tree, id).path;
            && (r == Into(d) <==> forall i | 0 <= i < |sources| :: Copyable(sources[i]))
            && (r == Into(d) ==> d in after && Laid(after[d], id, PlacesOf(folds, sources), ContentsOf(sources)))
            && forall e | e != d :: (e in after <==> e in tree) && (e in tree ==> after[e] == tree[e])
  {
    var d := Locate(tree, id).path;
    assert FirstProblem(NamesOf(sources), 0).None? by { ProblemFree(NamesOf(sources)); }
    LocatedExistsIf(tree, id);
    assert Allocated(tree, id)[d] == map[MARKER := File(id)];
    assert forall e | e != d ::
        (e in Allocated(tree, id) <==> e in tree) && (e in tree ==> Allocated(tree, id)[e] == tree[e]);
    hide Acceptable, FirstProblem, Locate, Allocated, CopyAll, Place, Laid, PlacesOf, ContentsOf;
    EmptyLays(folds, id, sources);
  }

  lemma OneSegment(c: char)
    requires c != '/'
    ensures Segments([c]) == [[c]]
  {
    assert [c][1..] == "" && [c] + "" == [c];
  }

  lemma DottedSegments()
    ensures Segments("x/.") == ["x", "."]
  {
    OneSegment('.');
    assert "/."[1..] == "." && "x/."[1..] == "/.";
    assert Segments("/.") == [""] + ["."];
    assert ['x'] + "" == "x";
  }

  lemma DottedLabel()
    ensures ValidateLabel("x/.").None? && EndsInDot("x/.")
  {
    DottedSegments();
    hide Segments;
    assert Pieces(["."]) == [] && ["x", "."][1..] == ["."];
    assert Components("x/.") == [Normal("x")];
    hide Components, Pieces;
    assert |Lower("x")| == 1 && |EVENT_MARKER| == 9;
  }

  /** The label "x/." is accepted, yet copying a readable source to it fails for every id. */
  lemma DottedLabelFails(folds: bool, id: string, bytes: string)
    requires id != ""
    ensures ValidateLabel("x/.").None? && Acceptable(["x/."])
    ensures CopiedLocal(folds, map[], id, [Source("x/.", Some(bytes))]).1 == Failed
  {
    DottedLabel();
    var source := Source("x/.", Some(bytes));
    assert NamesOf([source]) == ["x/."];
    hide ValidateLabel, EndsInDot, Overlaps, CopyAll;
    assert Acceptable(["x/."]);
    ProblemFree(["x/."]);
    LocatedExistsIf(map[], id);
    FreeAtOnce(id);
    FreshCopyIsExact(folds, map[], id, [source]);
    assert !Copyable([source][0]);
  }

  lemma FreeAtOnce(id: string)
    requires id != ""
    ensures Locate(map[], id).At?
  {
  }

  // --------------------------------------------------------------------- one directory for one id

  /** Every directory is marked with an id it is a long enough prefix of, and every shorter eligible prefix of that id
      was taken by another id before. */
  ghost predicate Inv(tree: Tree) { forall d | d in tree :: DirectoryFits(tree, d) }

  ghost predicate DirectoryFits(tree: Tree, d: string)
    requires d in tree
  {
    && MarkerOf(tree[d]).Some? && MarkerOf(tree[d]).value != ""
    && d <= MarkerOf(tree[d]).value && First(MarkerOf(tree[d]).value) <= |d|
    && forall n | First(MarkerOf(tree[d]).value) <= n < |d| :: Foreign(tree, d[..n], MarkerOf(tree[d]).value)
  }

  ghost predicate Foreign(tree: Tree, d: string, id: string) { d in tree && MarkerOf(tree[d]) != Some(id) }

  lemma MarkerKept(a: Tree, b: Tree, d: string, id: string)
    requires TreeKept(a, b) && MarkerMatches(a, d, id)
    ensures MarkerMatches(b, d, id)
  {
  }

  lemma DirectoryOf(tree: Tree, d: string)
    requires Inv(tree) && d in tree
    ensures DirectoryFits(tree, d)
  {
  }

  lemma AllFit(tree: Tree)
    requires forall d | d in tree :: DirectoryFits(tree, d)
    ensures Inv(tree)
  {
  }

  lemma StillFits(a: Tree, b: Tree, d: string)
    requires d in a && DirectoryFits(a, d) && forall e | e in a :: e in b && b[e] == a[e]
    ensures DirectoryFits(b, d)
  {
    hide First, MarkerOf;
    forall n | First(MarkerOf(a[d]).value) <= n < |d| ensures Foreign(b, d[..n], MarkerOf(a[d]).value) {
      assert Foreign(a, d[..n], MarkerOf(a[d]).value);
    }
  }

  lemma AddedInv(tree: Tree, d: string, id: string)
    requires Inv(tree) && d !in tree && d <= id && First(id) <= |d| && id != ""
    requires forall n | First(id) <= n < |d| :: Foreign(tree, d[..n], id)
    ensures Inv(tree[d := map[MARKER := File(id)]])
  {
    var after := tree[d := map[MARKER := File(id)]];
    assert MarkerOf(after[d]) == Some(id);
    hide First, MarkerOf, Inv;
    assert DirectoryFits(after, d) by {
      forall n | First(id) <= n < |d| ensures Foreign(after, d[..n], id) { assert Foreign(tree, d[..n], id); }
    }
    forall e | e in tree ensures DirectoryFits(after, e) {
      assert DirectoryFits(tree, e) by { DirectoryOf(tree, e); }
      StillFits(tree, after, e);
    }
    AllFit(after);
  }

  lemma AllocatedInv(tree: Tree, id: string)
    requires Inv(tree)
    ensures Inv(Allocated(tree, id))
  {
    var located := Locate(tree, id);
    if located.At? && located.path !in tree {
      SlotFits(tree, id, First(id));
      hide Inv, MarkerOf;
      var d := located.path;
      forall n | First(id) <= n < |d| ensures Foreign(tree, d[..n], id) { assert d[..n] == id[..n]; }
      AddedInv(tree, d, id);
    }
  }

  lemma CopiedIs(folds: bool, tree: Tree, id: string, sources: seq<Source>)
    ensures var copied, after := CopiedLocal(folds, tree, id, sources).0, Allocated(tree, id);
            || copied == tree
            || copied == after
            || (Locate(tree, id).At? && Locate(tree, id).path in after
                && copied == after[Locate(tree, id).path := CopyAll(folds, after[Locate(tree, id).path], sources).0])
  {
    LocatedExistsIf(tree, id);
    hide FirstProblem, Locate, Allocated, CopyAll;
  }

  lemma CopiedInv(folds: bool, tree: Tree, id: string, sources: seq<Source>)
    requires Inv(tree)
    ensures Inv(CopiedLocal(folds, tree, id, sources).0)
  {
    hide *;
    AllocatedInv(tree, id);
    CopiedIs(folds, tree, id, sources);
    var after := Allocated(tree, id);
    if Locate(tree, id).At? && Locate(tree, id).path in after {
      var d := Locate(tree, id).path;
      CopyKept(folds, after[d], sources);
      FilledInv(after, d, CopyAll(folds, after[d], sources).0);
    }
  }

  lemma FilledInv(a: Tree, d: string, files: Files)
    requires Inv(a) && d in a && Kept(a[d], files)
    ensures Inv(a[d := files])
  {
    var b := a[d := files];
    assert MarkerOf(files) == MarkerOf(a[d]) by { assert MarkerOf(a[d]).Some?; }
    assert forall e | e in a :: MarkerOf(b[e]) == MarkerOf(a[e]);
    SameMarkersInv(a, b);
  }

  lemma SameMarkersInv(a: Tree, b: Tree)
    requires Inv(a) && a.Keys == b.Keys && forall d | d in a :: MarkerOf(b[d]) == MarkerOf(a[d])
    ensures Inv(b)
  {
    forall d, n | d in b && First(MarkerOf(b[d]).value) <= n < |d| ensures Foreign(b, d[..n], MarkerOf(b[d]).value) {
      assert Foreign(a, d[..n], MarkerOf(a[d]).value);
    }
  }

  lemma {:induction false} RunInv(folds: bool, tree: Tree, calls: seq<Call>)
    requires Inv(tree)
    ensures Inv(After(folds, tree, calls))
    decreases |calls|
  {
    hide Inv, Allocated, CopiedLocal;
    if calls != [] {
      if calls[0].Locating? {
        AllocatedInv(tree, calls[0].id);
      } else {
        CopiedInv(folds, tree, calls[0].id, calls[0].sources);
      }
      RunInv(folds, Done(folds, tree, calls[0]), calls[1..]);
    }
  }

  /** A directory marked with an id is the one every call for that id finds, and the only one. */
  lemma MarkedIsLocated(tree: Tree, d: string, id: string)
    requires Inv(tree) && MarkerMatches(tree, d, id)
    ensures Locate(tree, id) == At(d)
  {
    assert d == id[..|d|];
    SlotReaches(tree, id, First(id), d);
  }

  lemma {:induction false} SlotReaches(tree: Tree, id: string, n: nat, d: string)
    requires n <= |d| && d <= id && MarkerMatches(tree, d, id)
    requires forall k | n <= k < |d| :: Foreign(tree, d[..k], id)
    ensures Slot(tree, id, n) == |d|
    decreases |d| - n
  {
    assert d == id[..|d|];
    if n < |d| {
      assert d[..n] == id[..n];
      assert Foreign(tree, d[..n], id);
      SlotReaches(tree, id, n + 1, d);
    }
  }

  /** Whatever runs in between, an id that was given a directory is given the same one again, and no other id is. */
  lemma SameDirectoryForever(folds: bool, tree: Tree, id: string, calls: seq<Call>, other: string)
    requires Inv(tree) && Locate(tree, id).At?
    ensures var later := After(folds, Allocated(tree, id), calls);
            Locate(later, id) == Locate(tree, id) && (Locate(later, other) == Locate(tree, id) ==> other == id)
  {
    hide *;
    var d := Locate(tree, id).path;
    var start := Allocated(tree, id);
    var later := After(folds, start, calls);
    AllocatedInv(tree, id);
    LocatedExists(tree, id);
    RunInv(folds, start, calls);
    NothingIsRewritten(folds, start, calls);
    MarkerKept(start, later, d, id);
    MarkedIsLocated(later, d, id);
    if Locate(later, other) == At(d) { OwnerIsUnique(later, d, id, other); }
  }

  lemma OwnerIsUnique(tree: Tree, d: string, id: string, other: string)
    requires MarkerMatches(tree, d, id) && Locate(tree, other) == At(d)
    ensures other == id
  {
    LocatedExists(tree, other);
  }

  lemma {:induction false} CompleteReaches(folds: bool, tree: Tree, id: string, names: seq<string>, n: nat)
    requires n <= |id| + 1
    requires forall k | n <= k <= |id| :: !MarkerMatches(tree, id[..k], id) || !AllFiles(folds, tree[id[..k]], names)
    ensures CompleteFrom(folds, tree, id, names, n).None?
    decreases |id| + 1 - n
  {
    hide MarkerMatches, AllFiles;
    if n <= |id| { CompleteReaches(folds, tree, id, names, n + 1); }
  }

  lemma {:induction false} CompleteFinds(folds: bool, tree: Tree, id: string, names: seq<string>, n: nat, d: string)
    requires n <= |d| && d <= id && MarkerMatches(tree, d, id) && AllFiles(folds, tree[d], names)
    requires forall k | n <= k < |d| :: !MarkerMatches(tree, id[..k], id)
    ensures CompleteFrom(folds, tree, id, names, n) == Some(d)
    decreases |d| - n
  {
    hide AllFiles;
    assert d == id[..|d|];
    if n < |d| { CompleteFinds(folds, tree, id, names, n + 1, d); }
  }

  lemma OnlyOneMarked(tree: Tree, d: string, e: string, id: string)
    requires Inv(tree) && MarkerMatches(tree, d, id) && MarkerMatches(tree, e, id)
    ensures d == e
  {
    MarkedIsLocated(tree, d, id);
    MarkedIsLocated(tree, e, id);
  }

  /** `existing_complete` finds the directory the id was given, exactly when every file is in it. */
  lemma ExistingIsTheLocated(folds: bool, tree: Tree, d: string, id: string, names: seq<string>)
    requires Inv(tree) && MarkerMatches(tree, d, id) && names != []
    ensures Locate(tree, id) == At(d)
    ensures Existing(folds, tree, id, names) == if AllFiles(folds, tree[d], names) then Some(d) else None
  {
    MarkedIsLocated(tree, d, id);
    assert id != "" && d <= id && First(id) <= |d|;
    hide AllFiles, Locate, Inv;
    forall k | First(id) <= k <= |id| && MarkerMatches(tree, id[..k], id) ensures id[..k] == d {
      OnlyOneMarked(tree, id[..k], d, id);
    }
    if AllFiles(folds, tree[d], names) {
      CompleteFinds(folds, tree, id, names, First(id), d);
    } else {
      CompleteReaches(folds, tree, id, names, First(id));
    }
  }

  lemma LaidIsComplete(folds: bool, files: Files, id: string, sources: seq<Source>)
    requires Laid(files, id, PlacesOf(folds, sources), ContentsOf(sources))
    requires forall i | 0 <= i < |sources| :: Copyable(sources[i])
    ensures AllFiles(folds, files, NamesOf(sources))
  {
    hide EndsInDot, Place;
    forall i | 0 <= i < |sources| ensures IsFile(folds, files, NamesOf(sources)[i]) {
      assert PlacesOf(folds, sources)[i] == Place(folds, sources[i].name);
      assert Copyable(sources[i]);
    }
  }

  /** What was copied into a fresh directory is found complete, at once and after any further calls. */
  lemma CopiedIsFound(folds: bool, tree: Tree, id: string, sources: seq<Source>, calls: seq<Call>)
    requires Inv(tree) && sources != [] && Acceptable(NamesOf(sources)) && Locate(tree, id).At?
    requires Locate(tree, id).path !in tree && forall i | 0 <= i < |sources| :: Copyable(sources[i])
    ensures var later := After(folds, CopiedLocal(folds, tree, id, sources).0, calls);
            Existing(folds, later, id, NamesOf(sources)) == Some(Locate(tree, id).path)
  {
    hide *;
    var d, names := Locate(tree, id).path, NamesOf(sources);
    var copied := CopiedLocal(folds, tree, id, sources).0;
    var later := After(folds, copied, calls);
    FreshCopyIsExact(folds, tree, id, sources);
    LaidIsComplete(folds, copied[d], id, sources);
    CopiedInv(folds, tree, id, sources);
    RunInv(folds, copied, calls);
    NothingIsRewritten(folds, copied, calls);
    LaidIsMarked(folds, copied, d, id, sources);
    MarkerKept(copied, later, d, id);
    StaysComplete(folds, copied, later, d, names);
    assert names != [] by { NamesLength(sources); }
    ExistingIsTheLocated(folds, later, d, id, names);
  }

  lemma NamesLength(sources: seq<Source>)
    ensures |NamesOf(sources)| == |sources|
  {
  }

  lemma LaidIsMarked(folds: bool, tree: Tree, d: string, id: string, sources: seq<Source>)
    requires d in tree && Laid(tree[d], id, PlacesOf(folds, sources), ContentsOf(sources))
    ensures MarkerMatches(tree, d, id)
  {
  }

  lemma StaysComplete(folds: bool, a: Tree, b: Tree, d: string, names: seq<string>)
    requires TreeKept(a, b) && d in a && AllFiles(folds, a[d], names)
    ensures d in b && AllFiles(folds, b[d], names)
  {
    hide Place, EndsInDot;
    assert Kept(a[d], b[d]);
    forall i | 0 <= i < |names| ensures IsFile(folds, b[d], names[i]) {
      assert IsFile(folds, a[d], names[i]);
    }
  }

  // ------------------------------------------------------------------------------- collisions

  /** The collision error comes exactly when the whole id names another id's directory and it has none of its own. */
  lemma CollidesExactly(tree: Tree, id: string)
    requires Inv(tree) && id != ""
    ensures Locate(tree, id).Collision? <==> id in tree && forall d | d in tree :: !MarkerMatches(tree, d, id)
  {
    SlotFits(tree, id, First(id));
    assert id[..|id|] == id;
    var n := Slot(tree, id, First(id));
    if n > |id| {
      forall d | d in tree ensures !MarkerMatches(tree, d, id) {
        if MarkerMatches(tree, d, id) { MarkedIsLocated(tree, d, id); }
      }
    } else if id in tree && MarkerOf(tree[id]) != Some(id) {
      PrefixTaken(tree, id, n);
    }
  }

  lemma PrefixTaken(tree: Tree, id: string, n: nat)
    requires Inv(tree) && id in tree && MarkerOf(tree[id]) != Some(id) && First(id) <= n <= |id|
    ensures id[..n] in tree
  {
    var m := MarkerOf(tree[id]).value;
    assert id == m[..|id|] && First(m) == First(id);
    assert n < |id| ==> Foreign(tree, id[..n], m);
    assert id[..|id|] == id;
  }

  ghost predicate Uniform(tree: Tree, length: nat) {
    forall d | d in tree && MarkerOf(tree[d]).Some? :: |MarkerOf(tree[d]).value| == length
  }

  lemma FilledUniform(a: Tree, d: string, files: Files, length: nat)
    requires Inv(a) && Uniform(a, length) && d in a && Kept(a[d], files)
    ensures Uniform(a[d := files], length)
  {
    assert MarkerOf(files) == MarkerOf(a[d]) by { assert MarkerOf(a[d]).Some?; }
  }

  lemma AllocatedUniform(tree: Tree, id: string)
    requires Uniform(tree, |id|)
    ensures Uniform(Allocated(tree, id), |id|)
  {
    hide Locate;
    assert MarkerOf(map[MARKER := File(id)]) == Some(id);
  }

  lemma CopiedUniform(folds: bool, tree: Tree, id: string, sources: seq<Source>)
    requires Inv(tree) && Uniform(tree, |id|)
    ensures Uniform(CopiedLocal(folds, tree, id, sources).0, |id|)
  {
    hide *;
    AllocatedInv(tree, id);
    AllocatedUniform(tree, id);
    CopiedIs(folds, tree, id, sources);
    var after := Allocated(tree, id);
    if Locate(tree, id).At? && Locate(tree, id).path in after {
      var d := Locate(tree, id).path;
      CopyKept(folds, after[d], sources);
      FilledUniform(after, d, CopyAll(folds, after[d], sources).0, |id|);
    }
  }

  lemma {:induction false} RunUniform(folds: bool, tree: Tree, calls: seq<Call>, length: nat)
    requires Inv(tree) && Uniform(tree, length) && forall i | 0 <= i < |calls| :: |calls[i].id| == length
    ensures Uniform(After(folds, tree, calls), length)
    decreases |calls|
  {
    hide Inv, Uniform, Allocated, CopiedLocal;
    if calls != [] {
      if calls[0].Locating? {
        AllocatedUniform(tree, calls[0].id);
        AllocatedInv(tree, calls[0].id);
      } else {
        CopiedUniform(folds, tree, calls[0].id, calls[0].sources);
        CopiedInv(folds, tree, calls[0].id, calls[0].sources);
      }
      RunUniform(folds, Done(folds, tree, calls[0]), calls[1..], length);
    }
  }

  lemma UniformOwns(tree: Tree, id: string)
    requires Inv(tree) && Uniform(tree, |id|) && id in tree
    ensures MarkerMatches(tree, id, id)
  {
    var m := MarkerOf(tree[id]).value;
    assert id == m[..|id|] && m == m[..|m|];
  }

  lemma EmptyInv(length: nat)
    ensures Inv(map[]) && Uniform(map[], length)
  {
  }

  lemma LocatesOrCollides(tree: Tree, id: string)
    requires id != ""
    ensures Locate(tree, id).At? || Locate(tree, id).Collision?
  {
  }

  /** With ids of one length, as event ids are, the collision error is unreachable. */
  lemma OneLengthNeverCollides(folds: bool, calls: seq<Call>, id: string)
    requires id != "" && forall i | 0 <= i < |calls| :: |calls[i].id| == |id|
    ensures Locate(After(folds, map[], calls), id).At?
  {
    hide *;
    var tree := After(folds, map[], calls);
    LocatesOrCollides(tree, id);
    EmptyInv(|id|);
    RunInv(folds, map[], calls);
    RunUniform(folds, map[], calls, |id|);
    CollidesExactly(tree, id);
    if id in tree { UniformOwns(tree, id); }
  }

  /** Ids of different lengths can collide. */
  lemma MixedLengthsCollide(folds: bool)
    ensures Locate(After(folds, map[], [Locating("abcdefz"), Locating("abcdefgh")]), "abcdefg").Collision?
  {
    var a: Tree := map[];
    var b: Tree := map["abcdef" := map[MARKER := File("abcdefz")]];
    var c := b["abcdefg" := map[MARKER := File("abcdefgh")]];
    var calls := [Locating("abcdefz"), Locating("abcdefgh")];
    assert Locate(a, "abcdefz") == At("abcdef") by { assert "abcdefz"[..6] == "abcdef"; }
    assert Allocated(a, "abcdefz") == b;
    assert calls[1..] == [Locating("abcdefgh")] && calls[1..][1..] == [];
    assert Locate(b, "abcdefgh") == At("abcdefg") by { LocateSecond(b); }
    assert Allocated(b, "abcdefgh") == c;
    hide Locate, Allocated;
    assert After(folds, c, []) == c;
    assert After(folds, b, calls[1..]) == After(folds, Done(folds, b, calls[1]), []);
    assert After(folds, a, calls) == c;
    LocateThird(c);
  }

  lemma LocateSecond(b: Tree)
    requires b == map["abcdef" := map[MARKER := File("abcdefz")]]
    ensures Locate(b, "abcdefgh") == At("abcdefg")
  {
    assert "abcdefgh"[..6] == "abcdef" && "abcdefgh"[..7] == "abcdefg";
    assert "abcdefz"[7 - 1] != "abcdefgh"[7 - 1];
    assert "abcdefg" !in b by { assert |"abcdefg"| == 7; }
    assert Slot(b, "abcdefgh", 7) == 7;
  }

  lemma LocateThird(c: Tree)
    requires c == map["abcdef" := map[MARKER := File("abcdefz")], "abcdefg" := map[MARKER := File("abcdefgh")]]
    ensures Locate(c, "abcdefg").Collision?
  {
    assert "abcdefg"[..6] == "abcdef" && "abcdefg"[..7] == "abcdefg";
    assert |"abcdef"| == 6 && |"abcdefg"| == 7;
    assert "abcdefz"[6] != "abcdefg"[6] && |"abcdefgh"| == 8;
    assert Slot(c, "abcdefg", 8) == 8;
    assert Slot(c, "abcdefg", 7) == 8;
  }
}
