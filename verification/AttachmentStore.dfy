/** Attachment storage (`src/attachment_receive.rs`) with one call at a time: event directories at growing prefixes of
    an id, ownership markers, and files that only the first writer creates. */
module AttachmentStore {
  import opened Order
  import opened Chars
  import opened AttachmentLabels

  datatype Entry = Dir | File(bytes: string)

  /** The inside of one event directory: paths below it. */
  type Files = map<seq<string>, Entry>

  const MARKER: seq<string> := [EVENT_MARKER]

  // ------------------------------------------------------------------------------ write_new

  /** `create_dir_all` on the parent of `path`, from its prefix of length `i` on; false when a file is in the way. */
  function MakeParents(files: Files, path: seq<string>, i: nat): (Files, bool)
    decreases |path| - i
  {
    if i >= |path| then (files, true)
    else if path[..i] !in files then MakeParents(files[path[..i] := Dir], path, i + 1)
    else if files[path[..i]].File? then (files, false)
    else MakeParents(files, path, i + 1)
  }

  /** `write_new`: an existing entry is left alone and counts as success. A label ending in "." names what is inside
      a directory of that name, so it creates nothing: it succeeds only where such a directory exists. */
  function Written(files: Files, path: seq<string>, dotted: bool, bytes: string): (Files, bool) {
    var (made, ok) := MakeParents(files, path, 1);
    if !ok then (made, false)
    else if dotted then (made, path in made && made[path].Dir?)
    else if path in made then (made, true)
    else (made[path := File(bytes)], true)
  }

  /** A source file: its label and what reading it gives. */
  datatype Source = Source(name: string, contents: Option<string>)

  function NamesOf(sources: seq<Source>): seq<string> {
    seq(|sources|, i requires 0 <= i < |sources| => sources[i].name)
  }

  predicate EndsInDot(name: string) { var s := Segments(name); s[|s| - 1] == "." }

  /** Where a label lies on a file system that folds case, or does not. */
  function Place(folds: bool, name: string): seq<string> { if folds then Normalized(name) else PathOf(name) }

  /** The copying loop; false when a source cannot be read or a file cannot be created. */
  function CopyAll(folds: bool, files: Files, sources: seq<Source>): (Files, bool)
    decreases |sources|
  {
    if sources == [] then (files, true)
    else if sources[0].contents.None? then (files, false)
    else
      var (next, ok) := Written(files, Place(folds, sources[0].name), EndsInDot(sources[0].name),
                                sources[0].contents.value);
      if ok then CopyAll(folds, next, sources[1..]) else (next, false)
  }

  // ------------------------------------------------------------------------ event directories

  type Tree = map<string, Files>

  function First(id: string): nat { if |id| < 6 then |id| else 6 }

  function MarkerOf(files: Files): Option<string> {
    if MARKER in files && files[MARKER].File? then Some(files[MARKER].bytes) else None
  }

  predicate MarkerMatches(tree: Tree, d: string, id: string) { d in tree && MarkerOf(tree[d]) == Some(id) }

  /** The first length from `n` on at which the prefix is free or already owned, or one past the end. */
  function Slot(tree: Tree, id: string, n: nat): (r: nat)
    ensures n <= |id| ==> n <= r <= |id| + 1
    decreases |id| + 1 - n
  {
    if n > |id| then |id| + 1
    else if id[..n] !in tree || MarkerMatches(tree, id[..n], id) then n
    else Slot(tree, id, n + 1)
  }

  datatype Located = EmptyId | Collision | At(path: string)

  function Locate(tree: Tree, id: string): Located {
    if id == "" then EmptyId
    else
      var n := Slot(tree, id, First(id));
      if n > |id| then Collision else At(id[..n])
  }

  function Allocated(tree: Tree, id: string): Tree {
    if Locate(tree, id).At? && Locate(tree, id).path !in tree
    then tree[Locate(tree, id).path := map[MARKER := File(id)]]
    else tree
  }

  predicate IsFile(folds: bool, files: Files, name: string) {
    !EndsInDot(name) && Place(folds, name) in files && files[Place(folds, name)].File?
  }

  predicate AllFiles(folds: bool, files: Files, names: seq<string>) {
    forall i | 0 <= i < |names| :: IsFile(folds, files, names[i])
  }

  /** The first owned prefix of length at least `n` that holds every file. */
  function CompleteFrom(folds: bool, tree: Tree, id: string, names: seq<string>, n: nat): Option<string>
    decreases |id| + 1 - n
  {
    if n > |id| then None
    else if MarkerMatches(tree, id[..n], id) && AllFiles(folds, tree[id[..n]], names) then Some(id[..n])
    else CompleteFrom(folds, tree, id, names, n + 1)
  }

  function Existing(folds: bool, tree: Tree, id: string, names: seq<string>): Option<string> {
    if names == [] || id == "" then None else CompleteFrom(folds, tree, id, names, First(id))
  }

  datatype Copied = Nothing | Refused(error: LabelError) | NoDirectory(why: Located) | Failed | Into(path: string)

  class Store {
    const folds: bool
    var tree: Tree

    constructor (folds: bool)
      ensures this.folds == folds && tree == map[]
    {
      this.folds := folds;
      tree := map[];
    }

    method WriteNew(d: string, path: seq<string>, dotted: bool, bytes: string) returns (ok: bool)
      requires d in tree
      modifies this
      ensures tree == old(tree)[d := Written(old(tree)[d], path, dotted, bytes).0]
      ensures ok == Written(old(tree)[d], path, dotted, bytes).1
    {
      var files := tree[d];
      var i := 1;
      while i < |path|
        invariant 1 <= i && tree == old(tree)[d := files]
        invariant MakeParents(old(tree)[d], path, 1) == MakeParents(files, path, i)
      {
        if path[..i] !in files {
          files := files[path[..i] := Dir];
          tree := tree[d := files];
        } else if files[path[..i]].File? {
          return false;
        }
        i := i + 1;
      }
      if dotted { return path in files && files[path].Dir?; }
      if path !in files { tree := tree[d := files[path := File(bytes)]]; }
      return true;
    }

    method EventDirectory(id: string) returns (r: Located)
      modifies this
      ensures r == Locate(old(tree), id) && tree == Allocated(old(tree), id)
    {
      if id == "" { return EmptyId; }
      var length := First(id);
      while length <= |id|
        invariant First(id) <= length <= |id| + 1 && tree == old(tree)
        invariant Slot(tree, id, First(id)) == Slot(tree, id, length)
      {
        var directory := id[..length];
        if directory !in tree {
          tree := tree[directory := map[]];
          var _ := WriteNew(directory, MARKER, false, id);
          return At(directory);
        }
        if MarkerMatches(tree, directory, id) { return At(directory); }
        length := length + 1;
      }
      return Collision;
    }

    method ExistingComplete(id: string, names: seq<string>) returns (r: Option<string>)
      ensures r == Existing(folds, tree, id, names)
    {
      if names == [] || id == "" { return None; }
      var length := First(id);
      while length <= |id|
        invariant First(id) <= length <= |id| + 1
        invariant CompleteFrom(folds, tree, id, names, First(id)) == CompleteFrom(folds, tree, id, names, length)
      {
        var directory := id[..length];
        if MarkerMatches(tree, directory, id) && AllFiles(folds, tree[directory], names) { return Some(directory); }
        length := length + 1;
      }
      return None;
    }

    /** The copying loop of `copy_local`. */
    method CopyInto(d: string, sources: seq<Source>) returns (ok: bool)
      requires d in tree
      modifies this
      ensures tree == old(tree)[d := CopyAll(folds, old(tree)[d], sources).0]
      ensures ok == CopyAll(folds, old(tree)[d], sources).1
    {
      hide Written, Place, EndsInDot;
      ghost var start := tree;
      var i := 0;
      while i < |sources|
        invariant 0 <= i <= |sources| && d in tree && tree == start[d := tree[d]]
        invariant CopyAll(folds, start[d], sources) == CopyAll(folds, tree[d], sources[i..])
      {
        assert sources[i..][0] == sources[i] && sources[i..][1..] == sources[i + 1..];
        if sources[i].contents.None? { return false; }
        var written := WriteNew(d, Place(folds, sources[i].name), EndsInDot(sources[i].name),
                                sources[i].contents.value);
        if !written { return false; }
        i := i + 1;
      }
      return true;
    }

    method CopyLocal(id: string, sources: seq<Source>) returns (r: Copied)
      modifies this
      ensures (tree, r) == CopiedLocal(folds, old(tree), id, sources)
    {
      hide FirstProblem, Locate, Allocated, CopyAll, Acceptable;
      if sources == [] { return Nothing; }
      var problem := ValidateLabels(NamesOf(sources));
      if problem.Some? { return Refused(problem.value); }
      LocatedExistsIf(tree, id);
      var located := EventDirectory(id);
      if !located.At? { return NoDirectory(located); }
      var ok := CopyInto(located.path, sources);
      return if ok then Into(located.path) else Failed;
    }
  }

  function CopiedLocal(folds: bool, tree: Tree, id: string, sources: seq<Source>): (Tree, Copied) {
    if sources == [] then (tree, Nothing)
    else if FirstProblem(NamesOf(sources), 0).Some? then (tree, Refused(FirstProblem(NamesOf(sources), 0).value))
    else
      var located, after := Locate(tree, id), Allocated(tree, id);
      LocatedExistsIf(tree, id);
      if !located.At? then (after, NoDirectory(located))
      else
        var (files, ok) := CopyAll(folds, after[located.path], sources);
        (after[located.path := files], if ok then Into(located.path) else Failed)
  }

  lemma {:induction false} SlotFits(tree: Tree, id: string, n: nat)
    requires n <= |id|
    ensures var r := Slot(tree, id, n); r <= |id| && id[..r] in tree ==> MarkerMatches(tree, id[..r], id)
    ensures forall k | n <= k < Slot(tree, id, n) :: id[..k] in tree && !MarkerMatches(tree, id[..k], id)
    decreases |id| - n
  {
    if n < |id| && id[..n] in tree && !MarkerMatches(tree, id[..n], id) { SlotFits(tree, id, n + 1); }
  }

  /** The directory handed out exists afterwards and carries the id's marker. */
  lemma LocatedExists(tree: Tree, id: string)
    requires Locate(tree, id).At?
    ensures MarkerMatches(Allocated(tree, id), Locate(tree, id).path, id)
  {
    SlotFits(tree, id, First(id));
  }

  lemma LocatedExistsIf(tree: Tree, id: string)
    ensures Locate(tree, id).At? ==> MarkerMatches(Allocated(tree, id), Locate(tree, id).path, id)
  {
    if Locate(tree, id).At? { LocatedExists(tree, id); }
  }
}
