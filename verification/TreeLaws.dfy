/** What the channel forest promises: every input path once, in its place, in order, and stable. */
module TreeLaws {
  import opened Order
  import opened Fabric
  import opened Tree

  // ------------------------------------------------------------------------ ancestry

  /** `k` ends up at `p` or somewhere beneath it. */
  ghost predicate Under(m: Nodes, root: string, k: string, p: string)
    decreases |k|
  {
    k == p || (Moves(m, root, k) && Under(m, root, ParentOf(k).value, p))
  }

  lemma {:induction false} UnderLength(m: Nodes, root: string, k: string, p: string)
    requires Under(m, root, k, p)
    ensures |p| <= |k| && (k in m ==> p in m)
    decreases |k|
  {
    if k != p { UnderLength(m, root, ParentOf(k).value, p); }
  }

  /** Two nodes side by side share no descendant. */
  lemma {:induction false} SiblingsDisjoint(m: Nodes, root: string, p: string, c: string, d: string, k: string)
    requires IsKid(m, root, p, c) && IsKid(m, root, p, d)
    requires Under(m, root, k, c) && Under(m, root, k, d)
    ensures c == d
    decreases |k|
  {
    if k == c && k != d {
      UnderLength(m, root, p, d);
    } else if k == d && k != c {
      UnderLength(m, root, p, c);
    } else if k != c {
      SiblingsDisjoint(m, root, p, c, d, ParentOf(k).value);
    }
  }

  lemma {:induction false} TopsDisjoint(m: Nodes, root: string, c: string, d: string, k: string)
    requires !Moves(m, root, c) && !Moves(m, root, d)
    requires Under(m, root, k, c) && Under(m, root, k, d)
    ensures c == d
    decreases |k|
  {
    if k != c && k != d { TopsDisjoint(m, root, c, d, ParentOf(k).value); }
  }

  lemma {:induction false} HasTop(m: Nodes, root: string, k: string) returns (t: string)
    requires k in m
    ensures t in m && !Moves(m, root, t) && Under(m, root, k, t)
    decreases |k|
  {
    if Moves(m, root, k) { t := HasTop(m, root, ParentOf(k).value); } else { t := k; }
  }

  lemma {:induction false} ViaKid(m: Nodes, root: string, p: string, k: string) returns (c: string)
    requires k in m && k != p && Under(m, root, k, p)
    ensures c in m && IsKid(m, root, p, c) && Under(m, root, k, c)
    decreases |k|
  {
    if ParentOf(k).value == p { c := k; } else { c := ViaKid(m, root, p, ParentOf(k).value); }
  }

  lemma {:induction false} KidUnder(m: Nodes, root: string, p: string, c: string, k: string)
    requires IsKid(m, root, p, c) && Under(m, root, k, c)
    ensures Under(m, root, k, p)
    decreases |k|
  {
    if k != c { KidUnder(m, root, p, c, ParentOf(k).value); }
  }

  // ---------------------------------------------------------------------- conservation

  ghost predicate OwnNode(m: Nodes, x: ChannelBlock) { x.path in m && m[x.path] == x }

  ghost predicate Covered(m: Nodes, root: string, ks: seq<string>, k: string) {
    exists i :: 0 <= i < |ks| && Under(m, root, k, ks[i])
  }

  /** No node is beneath two of `ks`. */
  ghost predicate Separate(m: Nodes, root: string, ks: seq<string>) {
    forall i, j, k | 0 <= i < j < |ks| && Under(m, root, k, ks[i]) :: !Under(m, root, k, ks[j])
  }

  ghost predicate Cover(m: Nodes, refs: seq<string>) { OwnPaths(m) && forall c :: c in refs <==> c in m }

  lemma KidsCover(m: Nodes, root: string, refs: seq<string>, p: string, k: string)
    requires Cover(m, refs) && NoDup(refs)
    ensures Separate(m, root, Kids(m, root, refs, p)) && NoDup(Kids(m, root, refs, p))
    ensures k in m ==> (Covered(m, root, Kids(m, root, refs, p), k) <==> k != p && Under(m, root, k, p))
  {
    var ks := Kids(m, root, refs, p);
    KidsNoDup(m, root, refs, p);
    hide Kids, Moves;
    forall i, j, x | 0 <= i < j < |ks| && Under(m, root, x, ks[i]) ensures !Under(m, root, x, ks[j]) {
      assert ks[i] in ks && ks[j] in ks;
      if Under(m, root, x, ks[j]) { SiblingsDisjoint(m, root, p, ks[i], ks[j], x); }
    }
    if k in m && k != p && Under(m, root, k, p) {
      var c := ViaKid(m, root, p, k);
      assert c in ks;
    }
    if Covered(m, root, ks, k) {
      var i :| 0 <= i < |ks| && Under(m, root, k, ks[i]);
      assert ks[i] in ks;
      KidUnder(m, root, p, ks[i], k);
      UnderLength(m, root, k, ks[i]);
    }
  }

  lemma {:induction false} KidsNoDup(m: Nodes, root: string, refs: seq<string>, p: string)
    requires NoDup(refs)
    ensures NoDup(Kids(m, root, refs, p))
    decreases |refs|
  {
    if refs != [] {
      KidsNoDup(m, root, refs[..|refs| - 1], p);
      assert refs[|refs| - 1] !in refs[..|refs| - 1];
    }
  }

  /** A finished node holds exactly the nodes beneath it, each once. */
  lemma {:induction false} FullHolds(m: Nodes, root: string, refs: seq<string>, p: string, x: ChannelBlock)
    requires Cover(m, refs) && NoDup(refs) && p in m
    ensures multiset(Flat(Full(m, root, refs, p)))[x] == if OwnNode(m, x) && Under(m, root, x.path, p) then 1 else 0
    decreases Longer(m, p), 0
  {
    var kids := Kids(m, root, refs, p);
    FullParts(m, root, refs, p);
    KidsCover(m, root, refs, p, x.path);
    assert forall c | c in kids :: c in m && |c| > |p|;
    hide Kids, Under, Separate, Covered;
    AllHold(m, root, refs, kids, p, x);
    assert OwnNode(m, m[p]) && m[p].path == p;
  }

  lemma {:induction false} AllHold(m: Nodes, root: string, refs: seq<string>, ks: seq<string>, p: string,
                                   x: ChannelBlock)
    requires Cover(m, refs) && NoDup(refs) && (forall k | k in ks :: k in m && |k| > |p|)
    requires Separate(m, root, ks)
    ensures multiset(FlatAll(FullAll(m, root, refs, ks)))[x]
            == if OwnNode(m, x) && Covered(m, root, ks, x.path) then 1 else 0
    decreases Longer(m, p), 0, |ks|
  {
    if ks != [] {
      assert ks[0] in ks && forall k | k in ks[1..] :: k in ks;
      CoveredSplit(m, root, ks, x.path);
      FlatSplits(m, root, refs, ks, x);
      hide Full, FullAll, Flat, FlatAll, Cover, NoDup, Under, Separate, Covered;
      LongerShrinks(m, p, ks[0]);
      FullHolds(m, root, refs, ks[0], x);
      AllHold(m, root, refs, ks[1..], p, x);
    }
  }

  lemma FullAllSplits(m: Nodes, root: string, refs: seq<string>, ks: seq<string>)
    requires (forall c | c in refs :: c in m) && ks != [] && forall k | k in ks :: k in m
    ensures forall k | k in ks[1..] :: k in m
    ensures FullAll(m, root, refs, ks) == [Full(m, root, refs, ks[0])] + FullAll(m, root, refs, ks[1..])
  {
    assert ks[0] in ks && forall k | k in ks[1..] :: k in ks;
    hide Full;
  }

  lemma FlatSplits(m: Nodes, root: string, refs: seq<string>, ks: seq<string>, x: ChannelBlock)
    requires Cover(m, refs) && ks != [] && forall k | k in ks :: k in m
    ensures forall k | k in ks[1..] :: k in m
    ensures multiset(FlatAll(FullAll(m, root, refs, ks)))[x]
         == multiset(Flat(Full(m, root, refs, ks[0])))[x] + multiset(FlatAll(FullAll(m, root, refs, ks[1..])))[x]
  {
    FullAllSplits(m, root, refs, ks);
    assert ks[0] in ks;
    var first, rest := Full(m, root, refs, ks[0]), FullAll(m, root, refs, ks[1..]);
    assert ([first] + rest)[1..] == rest;
    assert FlatAll([first] + rest) == Flat(first) + FlatAll(rest);
    hide *;
  }

  lemma CoveredSplit(m: Nodes, root: string, ks: seq<string>, k: string)
    requires ks != [] && Separate(m, root, ks)
    ensures Separate(m, root, ks[1..])
    ensures Covered(m, root, ks, k) <==> Under(m, root, k, ks[0]) || Covered(m, root, ks[1..], k)
    ensures !(Under(m, root, k, ks[0]) && Covered(m, root, ks[1..], k))
  {
    hide Under;
    assert forall i | 0 <= i < |ks| - 1 :: ks[1..][i] == ks[i + 1];
    if Covered(m, root, ks, k) && !Under(m, root, k, ks[0]) {
      var i :| 0 <= i < |ks| && Under(m, root, k, ks[i]);
      assert ks[1..][i - 1] == ks[i];
    }
  }

  lemma {:induction false} TopsHold(m: Nodes, root: string, refs: seq<string>, ks: seq<string>, x: ChannelBlock)
    requires Cover(m, refs) && NoDup(refs) && (forall k | k in ks :: k in m) && Separate(m, root, ks)
    ensures multiset(FlatAll(FullAll(m, root, refs, ks)))[x]
            == if OwnNode(m, x) && Covered(m, root, ks, x.path) then 1 else 0
    decreases |ks|
  {
    hide Kids, Full, Under, Separate, OwnNode;
    if ks != [] {
      assert ks == [ks[0]] + ks[1..];
      CoveredSplit(m, root, ks, x.path);
      FullHolds(m, root, refs, ks[0], x);
      TopsHold(m, root, refs, ks[1..], x);
      assert FullAll(m, root, refs, ks)[1..] == FullAll(m, root, refs, ks[1..]);
    }
  }

  // ------------------------------------------------------------------------- the result

  /** The forest `arrange` returns, root first. */
  function Blocks(f: (Option<ChannelBlock>, seq<ChannelBlock>)): seq<ChannelBlock> {
    (if f.0.Some? then [f.0.value] else []) + f.1
  }

  ghost function TopKeys(m: Nodes, root: string): seq<string> {
    (if root in m then [root] else []) + Kept(m, root, Ascending(m.Keys))
  }

  lemma TopKeysCover(m: Nodes, root: string)
    ensures forall k :: k in TopKeys(m, root) <==> k in m && !Moves(m, root, k)
    ensures NoDup(TopKeys(m, root)) && Separate(m, root, TopKeys(m, root))
    ensures forall k | k in m :: Covered(m, root, TopKeys(m, root), k)
  {
    var ks := TopKeys(m, root);
    AscendingSorted(m.Keys);
    KeptSorted(m, root, Ascending(m.Keys));
    forall i, j, x | 0 <= i < j < |ks| && Under(m, root, x, ks[i]) ensures !Under(m, root, x, ks[j]) {
      assert ks[i] in ks && ks[j] in ks;
      if Under(m, root, x, ks[j]) { TopsDisjoint(m, root, ks[i], ks[j], x); }
    }
    forall k | k in m ensures Covered(m, root, ks, k) {
      var t := HasTop(m, root, k);
      assert t in ks;
    }
  }

  lemma ForestBlocks(workspace: string, m: Nodes)
    requires OwnPaths(m)
    ensures var root := RootRef(workspace);
            && (forall k | k in TopKeys(m, root) :: k in m) && (forall c | c in References(m) :: c in m)
            && Blocks(Forest(workspace, m)) == FullAll(m, root, References(m), TopKeys(m, root))
  {
    ReferencesCover(m);
    TopKeysCover(m, RootRef(workspace));
    hide Kids, Full, Kept, References, Moves, OwnPaths, RootRef, Ascending, NoDup, Separate, Covered;
    var root, refs := RootRef(workspace), References(m);
    assert Blocks(Forest(workspace, m)) == FullAll(m, root, refs, TopKeys(m, root));
  }

  lemma ForestHolds(workspace: string, m: Nodes, x: ChannelBlock)
    requires OwnPaths(m)
    ensures multiset(FlatAll(Blocks(Forest(workspace, m))))[x] == if OwnNode(m, x) then 1 else 0
  {
    var root, refs := RootRef(workspace), References(m);
    ReferencesCover(m);
    ReferencesOrdered(m);
    BeforeIrreflexive(refs);
    TopKeysCover(m, root);
    ForestBlocks(workspace, m);
    TopsHold(m, root, refs, TopKeys(m, root), x);
  }

  // ------------------------------------------------------------------ the content of a node

  ghost predicate At(bs: seq<ChannelBlock>, k: string, i: int) { 0 <= i < |bs| && bs[i].path == k }

  /** `value` is what the last block at `k` that sets the field has there, `unset` when none sets it. */
  ghost predicate LastSet<T(!new)>(bs: seq<ChannelBlock>, k: string, field: ChannelBlock -> T, unset: T, value: T) {
    || (value == unset && forall i | At(bs, k, i) :: field(bs[i]) == unset)
    || exists i :: SetLast(bs, k, field, unset, value, i)
  }

  /** The block at `i` sets the field, to `value`, and no later one at `k` does. */
  ghost predicate SetLast<T(!new)>(bs: seq<ChannelBlock>, k: string, field: ChannelBlock -> T, unset: T, value: T,
                                   i: int)
  {
    At(bs, k, i) && value == field(bs[i]) != unset && forall j | i < j && At(bs, k, j) :: field(bs[j]) == unset
  }

  ghost predicate Most(bs: seq<ChannelBlock>, k: string, omitted: nat) {
    && (exists i :: At(bs, k, i) && bs[i].omitted == omitted)
    && forall i | At(bs, k, i) :: bs[i].omitted <= omitted
  }

  ghost predicate FirstHas(bs: seq<ChannelBlock>, k: string, departures: seq<string>) {
    exists i :: At(bs, k, i) && bs[i].departures == departures && forall j | At(bs, k, j) :: i <= j
  }

  /** The newest of every field among the input blocks at the path of `x`, the largest omitted count, and the
      departures of the first block. */
  ghost predicate Newest(bs: seq<ChannelBlock>, x: ChannelBlock) {
    && x.children == []
    && LastSet(bs, x.path, (b: ChannelBlock) => b.about, "", x.about)
    && LastSet(bs, x.path, (b: ChannelBlock) => b.agentCount, None, x.agentCount)
    && LastSet(bs, x.path, (b: ChannelBlock) => b.lastActive, None, x.lastActive)
    && LastSet(bs, x.path, (b: ChannelBlock) => b.members, [], x.members)
    && LastSet(bs, x.path, (b: ChannelBlock) => b.presence, [], x.presence)
    && LastSet(bs, x.path, (b: ChannelBlock) => b.messages, [], x.messages)
    && Most(bs, x.path, x.omitted) && FirstHas(bs, x.path, x.departures)
  }

  lemma LastSetMore<T(!new)>(bs: seq<ChannelBlock>, b: ChannelBlock, k: string, field: ChannelBlock -> T, unset: T,
                      value: T)
    requires LastSet(bs, k, field, unset, value)
    ensures LastSet(bs + [b], k, field, unset, if b.path == k && field(b) != unset then field(b) else value)
  {
    var all := bs + [b];
    assert forall i | 0 <= i < |bs| :: all[i] == bs[i];
    assert all[|bs|] == b;
    if b.path == k && field(b) != unset {
      assert SetLast(all, k, field, unset, field(b), |bs|);
    } else if i :| SetLast(bs, k, field, unset, value, i) {
      assert forall j | i < j < |bs| && At(all, k, j) :: At(bs, k, j);
      assert SetLast(all, k, field, unset, value, i);
    } else {
      assert forall i | At(all, k, i) :: i == |bs| || At(bs, k, i);
    }
  }

  lemma LastSetOne<T(!new)>(bs: seq<ChannelBlock>, b: ChannelBlock, k: string, field: ChannelBlock -> T, unset: T)
    requires b.path == k && forall i :: !At(bs, k, i)
    ensures LastSet(bs + [b], k, field, unset, field(b))
  {
    var all := bs + [b];
    assert forall i | 0 <= i < |bs| && At(all, k, i) :: At(bs, k, i);
    if field(b) != unset { assert SetLast(all, k, field, unset, field(b), |bs|); }
  }

  lemma LastSetUnique<T(!new)>(bs: seq<ChannelBlock>, k: string, field: ChannelBlock -> T, unset: T, v: T, w: T)
    requires LastSet(bs, k, field, unset, v) && LastSet(bs, k, field, unset, w)
    ensures v == w
  {
  }

  /** A further block at the path is merged in. */
  lemma NewestMore(bs: seq<ChannelBlock>, x: ChannelBlock, b: ChannelBlock)
    requires Newest(bs, x) && b.path == x.path && b.children == []
    ensures Newest(bs + [b], Merge(x, b))
  {
    var k, all, y := x.path, bs + [b], Merge(x, b);
    LastSetMore(bs, b, k, (b: ChannelBlock) => b.about, "", x.about);
    LastSetMore(bs, b, k, (b: ChannelBlock) => b.agentCount, None, x.agentCount);
    LastSetMore(bs, b, k, (b: ChannelBlock) => b.lastActive, None, x.lastActive);
    LastSetMore(bs, b, k, (b: ChannelBlock) => b.members, [], x.members);
    LastSetMore(bs, b, k, (b: ChannelBlock) => b.presence, [], x.presence);
    LastSetMore(bs, b, k, (b: ChannelBlock) => b.messages, [], x.messages);
    hide LastSet;
    MostMore(bs, b, k, x.omitted);
    FirstStays(bs, b, k, x.departures);
  }

  lemma MostMore(bs: seq<ChannelBlock>, b: ChannelBlock, k: string, omitted: nat)
    requires Most(bs, k, omitted) && b.path == k
    ensures Most(bs + [b], k, if omitted >= b.omitted then omitted else b.omitted)
  {
    var all := bs + [b];
    var i :| At(bs, k, i) && bs[i].omitted == omitted;
    assert At(all, k, i) && all[i] == bs[i];
    assert At(all, k, |bs|);
    assert forall j | 0 <= j < |bs| && At(all, k, j) :: At(bs, k, j);
  }

  lemma FirstStays(bs: seq<ChannelBlock>, b: ChannelBlock, k: string, departures: seq<string>)
    requires FirstHas(bs, k, departures)
    ensures FirstHas(bs + [b], k, departures)
  {
    var all := bs + [b];
    var i :| At(bs, k, i) && bs[i].departures == departures && forall j | At(bs, k, j) :: i <= j;
    assert At(all, k, i) && all[i] == bs[i];
    assert forall j | 0 <= j < |bs| && At(all, k, j) :: At(bs, k, j);
  }

  /** A block elsewhere changes nothing. */
  lemma NewestElsewhere(bs: seq<ChannelBlock>, x: ChannelBlock, b: ChannelBlock)
    requires Newest(bs, x) && b.path != x.path
    ensures Newest(bs + [b], x)
  {
    var k, all := x.path, bs + [b];
    LastSetMore(bs, b, k, (b: ChannelBlock) => b.about, "", x.about);
    LastSetMore(bs, b, k, (b: ChannelBlock) => b.agentCount, None, x.agentCount);
    LastSetMore(bs, b, k, (b: ChannelBlock) => b.lastActive, None, x.lastActive);
    LastSetMore(bs, b, k, (b: ChannelBlock) => b.members, [], x.members);
    LastSetMore(bs, b, k, (b: ChannelBlock) => b.presence, [], x.presence);
    LastSetMore(bs, b, k, (b: ChannelBlock) => b.messages, [], x.messages);
    hide LastSet;
    FirstStays(bs, b, k, x.departures);
    assert forall i :: At(all, k, i) <==> At(bs, k, i);
    var i :| At(bs, k, i) && bs[i].omitted == x.omitted;
    assert At(all, k, i);
  }

  lemma NewestFirst(bs: seq<ChannelBlock>, b: ChannelBlock)
    requires b.children == [] && forall i :: !At(bs, b.path, i)
    ensures Newest(bs + [b], b)
  {
    var k, all := b.path, bs + [b];
    LastSetOne(bs, b, k, (b: ChannelBlock) => b.about, "");
    LastSetOne(bs, b, k, (b: ChannelBlock) => b.agentCount, None);
    LastSetOne(bs, b, k, (b: ChannelBlock) => b.lastActive, None);
    LastSetOne(bs, b, k, (b: ChannelBlock) => b.members, []);
    LastSetOne(bs, b, k, (b: ChannelBlock) => b.presence, []);
    LastSetOne(bs, b, k, (b: ChannelBlock) => b.messages, []);
    hide LastSet;
    assert forall i | 0 <= i < |bs| && At(all, k, i) :: At(bs, k, i);
    assert At(all, k, |bs|);
  }

  lemma NewestUnique(bs: seq<ChannelBlock>, x: ChannelBlock, y: ChannelBlock)
    requires Newest(bs, x) && Newest(bs, y) && x.path == y.path
    ensures x == y
  {
    var k := x.path;
    LastSetUnique(bs, k, (b: ChannelBlock) => b.about, "", x.about, y.about);
    LastSetUnique(bs, k, (b: ChannelBlock) => b.agentCount, None, x.agentCount, y.agentCount);
    LastSetUnique(bs, k, (b: ChannelBlock) => b.lastActive, None, x.lastActive, y.lastActive);
    LastSetUnique(bs, k, (b: ChannelBlock) => b.members, [], x.members, y.members);
    LastSetUnique(bs, k, (b: ChannelBlock) => b.presence, [], x.presence, y.presence);
    LastSetUnique(bs, k, (b: ChannelBlock) => b.messages, [], x.messages, y.messages);
    hide LastSet;
  }

  /** What the node table holds: at each input path the newest of everything. */
  ghost predicate Holds(m: Nodes, bs: seq<ChannelBlock>) {
    && (forall k :: k in m <==> exists i :: At(bs, k, i))
    && (forall k | k in m :: m[k].path == k && Newest(bs, m[k]))
  }

  lemma AddHolds(m: Nodes, bs: seq<ChannelBlock>, b: ChannelBlock)
    requires Holds(m, bs) && b.children == []
    ensures Holds(Add(m, b), bs + [b])
  {
    var all, next := bs + [b], Add(m, b);
    assert At(all, b.path, |bs|);
    assert forall k, i :: At(all, k, i) <==> At(bs, k, i) || (i == |bs| && k == b.path);
    hide Newest, Merge;
    forall k | k in next ensures next[k].path == k && Newest(all, next[k]) {
      if k != b.path { NewestElsewhere(bs, m[k], b); }
      else if k in m { NewestMore(bs, m[k], b); MergeKeepsPath(m[k], b); }
      else { NewestFirst(bs, b); }
    }
    forall k ensures k in next <==> exists i :: At(all, k, i) {
      if k in m { var i :| At(bs, k, i); assert At(all, k, i); }
    }
  }

  lemma MergeKeepsPath(a: ChannelBlock, b: ChannelBlock)
    ensures Merge(a, b).path == a.path
  {
  }

  lemma {:induction false} AddAllHolds(m: Nodes, bs: seq<ChannelBlock>, more: seq<ChannelBlock>)
    requires Holds(m, bs) && forall i | 0 <= i < |more| :: more[i].children == []
    ensures Holds(AddAll(m, more), bs + more)
    decreases |more|
  {
    hide Holds, Add;
    if more == [] {
      assert bs + more == bs;
    } else {
      AddHolds(m, bs, more[0]);
      AddAllHolds(Add(m, more[0]), bs + [more[0]], more[1..]);
      assert bs + [more[0]] + more[1..] == bs + more;
    }
  }

  lemma CollectedHolds(channels: seq<ChannelBlock>)
    ensures Holds(CollectedAll(map[], channels), FlatAll(channels))
  {
    var flat, none: Nodes := FlatAll(channels), map[];
    CollectAllIsFlat(none, channels);
    FlatHasNoChildren(channels);
    assert Holds(none, []);
    hide Holds, FlatAll, CollectedAll, AddAll;
    AddAllHolds(none, [], flat);
    assert [] + flat == flat;
  }

  /** Conservation: a block stands in the output, exactly once, exactly when it carries the newest of every field that
      the input blocks at its path, however deeply nested, set. In particular the paths of the output are those of the
      input. */
  lemma ArrangeConserves(workspace: string, channels: seq<ChannelBlock>, x: ChannelBlock)
    ensures multiset(FlatAll(Blocks(Arranged(workspace, channels))))[x]
         == if Newest(FlatAll(channels), x) then 1 else 0
  {
    var m, flat := CollectedAll(map[], channels), FlatAll(channels);
    CollectOwnPaths(channels);
    ForestHolds(workspace, m, x);
    CollectedHolds(channels);
    hide CollectedAll, FlatAll, Forest, LastSet;
    if Newest(flat, x) {
      var i :| At(flat, x.path, i);
      NewestUnique(flat, x, m[x.path]);
    }
  }

  // -------------------------------------------------------------------------- placement

  /** Every node beneath `b` is named by its parent's path and one more segment, is not the root, and siblings are
      in strict path order. */
  ghost predicate Placed(root: string, b: ChannelBlock) {
    && (forall i | 0 <= i < |b.children| ::
          b.children[i].path != root && ParentOf(b.children[i].path) == Some(b.path) && Placed(root, b.children[i]))
    && (forall i, j | 0 <= i < j < |b.children| :: StrLt(b.children[i].path, b.children[j].path))
  }

  lemma {:induction false} FullPlaced(m: Nodes, root: string, refs: seq<string>, p: string)
    requires Cover(m, refs) && Sorted(refs, Before) && p in m
    ensures Placed(root, Full(m, root, refs, p))
    decreases Longer(m, p)
  {
    var kids := Kids(m, root, refs, p);
    FullParts(m, root, refs, p);
    KidsSorted(m, root, refs, p);
    assert forall c | c in kids :: IsKid(m, root, p, c) && c in m;
    hide Kids, Full, Before, StrLt;
    var b := Full(m, root, refs, p);
    forall i | 0 <= i < |kids|
      ensures b.children[i].path == kids[i] && IsKid(m, root, p, kids[i]) && Placed(root, b.children[i])
    {
      assert kids[i] in kids;
      LongerShrinks(m, p, kids[i]);
      FullParts(m, root, refs, kids[i]);
      FullPlaced(m, root, refs, kids[i]);
    }
  }

  lemma NodePlaced(m: Nodes, root: string, k: string)
    requires OwnPaths(m) && k in m
    ensures forall c | c in References(m) :: c in m
    ensures Full(m, root, References(m), k).path == k && Placed(root, Full(m, root, References(m), k))
  {
    var refs := References(m);
    ReferencesCover(m);
    ReferencesOrdered(m);
    hide Kids, Full, Before, StrLt, Placed, References;
    assert Cover(m, refs);
    FullParts(m, root, refs, k);
    FullPlaced(m, root, refs, k);
  }

  /** Every tree of the output is well placed, and the root, when there is one, has the root's path. */
  lemma ArrangePlaces(workspace: string, channels: seq<ChannelBlock>, b: ChannelBlock)
    requires b in Blocks(Arranged(workspace, channels))
    ensures Placed(RootRef(workspace), b)
    ensures Arranged(workspace, channels).0 == Some(b) ==> b.path == RootRef(workspace)
  {
    var m, root := CollectedAll(map[], channels), RootRef(workspace);
    CollectOwnPaths(channels);
    ForestBlocks(workspace, m);
    var ks := TopKeys(m, root);
    hide Full, Placed, References, TopKeys, CollectedAll, OwnPaths;
    var i :| 0 <= i < |ks| && Blocks(Forest(workspace, m))[i] == b;
    assert ks[i] in ks;
    NodePlaced(m, root, ks[i]);
    if root in m { NodePlaced(m, root, root); }
  }

  lemma KeptInOrder(m: Nodes, root: string)
    ensures Sorted(Kept(m, root, Ascending(m.Keys)), StrLt)
  {
    AscendingSorted(m.Keys);
    KeptSorted(m, root, Ascending(m.Keys));
  }

  lemma TopAt(workspace: string, m: Nodes, i: nat)
    requires OwnPaths(m) && i < |Forest(workspace, m).1|
    ensures var kept := Kept(m, RootRef(workspace), Ascending(m.Keys));
            |Forest(workspace, m).1| == |kept| && Forest(workspace, m).1[i].path == kept[i]
  {
    var kept := Kept(m, RootRef(workspace), Ascending(m.Keys));
    ReferencesCover(m);
    hide Full, Kept, References, OwnPaths, RootRef, Ascending;
    assert kept[i] in kept && kept[i] in Ascending(m.Keys);
    NodePlaced(m, RootRef(workspace), kept[i]);
  }

  /** With conservation this places every node: it sits beneath the node its path names as parent exactly when that
      path was in the input and the node is not the root; otherwise it is at the top, in strict path order there. */
  lemma ArrangeTop(workspace: string, channels: seq<ChannelBlock>, i: nat, j: nat)
    requires i <= j < |Arranged(workspace, channels).1|
    ensures var top := Arranged(workspace, channels).1;
            && (i < j ==> StrLt(top[i].path, top[j].path))
            && top[i].path != RootRef(workspace)
            && (ParentOf(top[i].path).Some? ==>
                  forall b | b in FlatAll(channels) :: b.path != ParentOf(top[i].path).value)
  {
    var m, root := CollectedAll(map[], channels), RootRef(workspace);
    var kept := Kept(m, root, Ascending(m.Keys));
    CollectOwnPaths(channels);
    CollectedHolds(channels);
    KeptInOrder(m, root);
    hide Forest, Holds, StrLt, Kept, CollectedAll, OwnPaths, FlatAll, RootRef, ParentOf;
    TopAt(workspace, m, i);
    TopAt(workspace, m, j);
    assert kept[i] in kept;
    if ParentOf(kept[i]).Some? { NotAmong(m, FlatAll(channels), ParentOf(kept[i]).value); }
  }

  lemma NotAmong(m: Nodes, bs: seq<ChannelBlock>, k: string)
    requires Holds(m, bs) && k !in m
    ensures forall b | b in bs :: b.path != k
  {
    forall b | b in bs ensures b.path != k {
      var i :| 0 <= i < |bs| && bs[i] == b;
      assert !At(bs, k, i);
    }
  }

  // --------------------------------------------------------------------------- stability

  lemma {:induction false} AddAllDistinct(nodes: Nodes, bs: seq<ChannelBlock>)
    requires forall i | 0 <= i < |bs| :: bs[i].path !in nodes
    requires forall i, j | 0 <= i < j < |bs| :: bs[i].path != bs[j].path
    ensures forall k :: k in AddAll(nodes, bs) <==> k in nodes || exists i :: 0 <= i < |bs| && bs[i].path == k
    ensures forall k | k in nodes :: AddAll(nodes, bs)[k] == nodes[k]
    ensures forall i | 0 <= i < |bs| :: AddAll(nodes, bs)[bs[i].path] == bs[i]
    decreases |bs|
  {
    if bs != [] {
      assert bs == [bs[0]] + bs[1..];
      AddAllDistinct(Add(nodes, bs[0]), bs[1..]);
    }
  }

  lemma OnceMeansNoDup<T(!new)>(s: seq<T>)
    requires forall x :: multiset(s)[x] <= 1
    ensures NoDup(s)
  {
    forall i, j | 0 <= i < j < |s| ensures s[i] != s[j] {
      assert s == s[..i] + [s[i]] + s[i + 1..j] + [s[j]] + s[j + 1..];
      assert multiset(s)[s[i]] <= 1;
    }
  }

  /** A list of a map's blocks, each once, collects to that map. */
  lemma Recollected(m: Nodes, bs: seq<ChannelBlock>)
    requires OwnPaths(m)
    requires forall x: ChannelBlock :: multiset(bs)[x] == if OwnNode(m, x) then 1 else 0
    ensures AddAll(map[], bs) == m
  {
    OnceMeansNoDup(bs);
    forall i | 0 <= i < |bs| ensures OwnNode(m, bs[i]) { assert bs[i] in multiset(bs); }
    AddAllDistinct(map[], bs);
    hide AddAll;
    forall k | k in m ensures k in AddAll(map[], bs) {
      assert OwnNode(m, m[k]) && multiset(bs)[m[k]] == 1;
      assert m[k] in bs;
    }
  }

  /** Rearranging what `arrange` returned gives it back unchanged. */
  lemma ArrangeIsStable(workspace: string, channels: seq<ChannelBlock>)
    ensures var forest := Arranged(workspace, channels);
            Arranged(workspace, Blocks(forest)) == forest
  {
    var m := CollectedAll(map[], channels);
    CollectOwnPaths(channels);
    hide Forest, FlatAll, OwnPaths, CollectedAll, AddAll;
    forall x: ChannelBlock
      ensures multiset(FlatAll(Blocks(Forest(workspace, m))))[x] == if OwnNode(m, x) then 1 else 0
    {
      ForestHolds(workspace, m, x);
    }
    Recollected(m, FlatAll(Blocks(Forest(workspace, m))));
    CollectAllIsFlat(map[], Blocks(Forest(workspace, m)));
  }
}
