/** The channel forest builder of `src/fabric_context/tree.rs`. */
module Tree {
  import opened Order
  import opened Fabric

  type Nodes = map<string, ChannelBlock>

  // -------------------------------------------------------------- collecting the input

  function Or<T>(incoming: seq<T>, existing: seq<T>): seq<T> { if |incoming| != 0 then incoming else existing }

  /** `merge`: `departures`, `path` and `children` stay those of the first block seen. */
  function Merge(existing: ChannelBlock, incoming: ChannelBlock): ChannelBlock {
    existing.(
      about := Or(incoming.about, existing.about),
      agentCount := if incoming.agentCount.Some? then incoming.agentCount else existing.agentCount,
      lastActive := if incoming.lastActive.Some? then incoming.lastActive else existing.lastActive,
      members := Or(incoming.members, existing.members),
      presence := Or(incoming.presence, existing.presence),
      messages := Or(incoming.messages, existing.messages),
      omitted := if existing.omitted >= incoming.omitted then existing.omitted else incoming.omitted)
  }

  function Own(b: ChannelBlock): ChannelBlock { b.(children := []) }

  function Add(nodes: Nodes, b: ChannelBlock): Nodes {
    nodes[b.path := if b.path in nodes then Merge(nodes[b.path], b) else b]
  }

  /** `collect`, over one block and over a list of blocks. */
  function Collected(nodes: Nodes, b: ChannelBlock): Nodes
    decreases b, 1
  {
    CollectedAll(Add(nodes, Own(b)), b.children)
  }

  function CollectedAll(nodes: Nodes, bs: seq<ChannelBlock>): Nodes
    decreases bs, 0
  {
    if bs == [] then nodes else CollectedAll(Collected(nodes, bs[0]), bs[1..])
  }

  /** Every block of a forest without its children, parents first. */
  function Flat(b: ChannelBlock): seq<ChannelBlock>
    decreases b, 1
  {
    [Own(b)] + FlatAll(b.children)
  }

  function FlatAll(bs: seq<ChannelBlock>): seq<ChannelBlock>
    decreases bs, 0
  {
    if bs == [] then [] else Flat(bs[0]) + FlatAll(bs[1..])
  }

  function AddAll(nodes: Nodes, bs: seq<ChannelBlock>): Nodes
    decreases |bs|
  {
    if bs == [] then nodes else AddAll(Add(nodes, bs[0]), bs[1..])
  }

  lemma {:induction false} AddAllAppend(nodes: Nodes, a: seq<ChannelBlock>, b: seq<ChannelBlock>)
    ensures AddAll(nodes, a + b) == AddAll(AddAll(nodes, a), b)
    decreases |a|
  {
    if a == [] {
      assert a + b == b;
    } else {
      AddAllAppend(Add(nodes, a[0]), a[1..], b);
      assert (a + b)[1..] == a[1..] + b;
    }
  }

  lemma {:induction false} CollectIsFlat(nodes: Nodes, b: ChannelBlock)
    ensures Collected(nodes, b) == AddAll(nodes, Flat(b))
    decreases b, 1
  {
    CollectAllIsFlat(Add(nodes, Own(b)), b.children);
    assert Flat(b)[0] == Own(b) && Flat(b)[1..] == FlatAll(b.children);
  }

  lemma {:induction false} CollectAllIsFlat(nodes: Nodes, bs: seq<ChannelBlock>)
    ensures CollectedAll(nodes, bs) == AddAll(nodes, FlatAll(bs))
    decreases bs, 0
  {
    if bs != [] {
      CollectIsFlat(nodes, bs[0]);
      CollectAllIsFlat(Collected(nodes, bs[0]), bs[1..]);
      AddAllAppend(nodes, Flat(bs[0]), FlatAll(bs[1..]));
    }
  }

  method Collect(nodes: Nodes, channel: ChannelBlock) returns (nodes': Nodes)
    ensures nodes' == Collected(nodes, channel)
    decreases channel
  {
    var children, own := channel.children, Own(channel);
    nodes' := nodes;
    if own.path in nodes' {
      nodes' := nodes'[own.path := Merge(nodes'[own.path], own)];
    } else {
      nodes' := nodes'[own.path := own];
    }
    for i := 0 to |children|
      invariant CollectedAll(nodes', children[i..]) == Collected(nodes, channel)
    {
      assert children[i..][0] == children[i] && children[i..][1..] == children[i + 1..];
      nodes' := Collect(nodes', children[i]);
    }
  }

  // ------------------------------------------------------------- the forest, declaratively

  /** A node goes beneath its parent exactly when the parent is known and the node is not the root. */
  predicate Moves(m: Nodes, root: string, k: string) {
    k != root && ParentOf(k).Some? && ParentOf(k).value in m
  }

  predicate IsKid(m: Nodes, root: string, p: string, k: string) { Moves(m, root, k) && ParentOf(k) == Some(p) }

  function Kids(m: Nodes, root: string, refs: seq<string>, p: string): (r: seq<string>)
    ensures forall c :: c in r <==> c in refs && IsKid(m, root, p, c)
  {
    if refs == [] then []
    else
      var n := |refs| - 1;
      assert forall c :: c in refs <==> c in refs[..n] || c == refs[n];
      Kids(m, root, refs[..n], p) + (if IsKid(m, root, p, refs[n]) then [refs[n]] else [])
  }

  function Longer(m: Nodes, p: string): set<string> { set k | k in m && |k| > |p| }

  lemma LongerShrinks(m: Nodes, p: string, k: string)
    requires k in m && |k| > |p|
    ensures Longer(m, k) < Longer(m, p)
  {
    assert k in Longer(m, p) && k !in Longer(m, k);
  }

  /** The finished node at `p`: its own content over the finished nodes of its kids, in the order of `refs`. */
  function Full(m: Nodes, root: string, refs: seq<string>, p: string): ChannelBlock
    requires p in m && forall c | c in refs :: c in m
    decreases Longer(m, p)
  {
    var kids := Kids(m, root, refs, p);
    m[p].(children := seq(|kids|, i requires 0 <= i < |kids| =>
      assert kids[i] in kids;
      LongerShrinks(m, p, kids[i]);
      Full(m, root, refs, kids[i])))
  }

  function FullAll(m: Nodes, root: string, refs: seq<string>, ks: seq<string>): (r: seq<ChannelBlock>)
    requires (forall c | c in refs :: c in m) && (forall k | k in ks :: k in m)
    ensures |r| == |ks|
  {
    seq(|ks|, i requires 0 <= i < |ks| => assert ks[i] in ks; Full(m, root, refs, ks[i]))
  }

  predicate Deeper(a: string, b: string) { Depth(a) >= Depth(b) }
  predicate ByPath(a: ChannelBlock, b: ChannelBlock) { StrLe(a.path, b.path) }

  /** Node references deepest first, in key order within one depth. */
  function References(m: Nodes): seq<string> { Sort(Ascending(m.Keys), Deeper) }

  function Kept(m: Nodes, root: string, ks: seq<string>): (r: seq<string>)
    ensures forall k :: k in r <==> k in ks && k != root && !Moves(m, root, k)
  {
    if ks == [] then []
    else
      assert ks == [ks[0]] + ks[1..];
      (if ks[0] != root && !Moves(m, root, ks[0]) then [ks[0]] else []) + Kept(m, root, ks[1..])
  }

  /** The forest: the root node if known, and the other nodes that go beneath nothing, in path order. */
  function Forest(workspace: string, m: Nodes): (Option<ChannelBlock>, seq<ChannelBlock>) {
    var root := RootRef(workspace);
    var refs := References(m);
    ReferencesCover(m);
    (if root in m then Some(Full(m, root, refs, root)) else None,
     FullAll(m, root, refs, Kept(m, root, Ascending(m.Keys))))
  }

  function Arranged(workspace: string, channels: seq<ChannelBlock>): (Option<ChannelBlock>, seq<ChannelBlock>) {
    Forest(workspace, CollectedAll(map[], channels))
  }

  lemma ReferencesCover(m: Nodes)
    ensures forall k :: k in References(m) <==> k in m
  {
    MultisetMembers(References(m), Ascending(m.Keys));
  }

  // ----------------------------------------------------------------- order of references

  ghost predicate Before(a: string, b: string) {
    Depth(a) > Depth(b) || (Depth(a) == Depth(b) && StrLt(a, b))
  }

  /** Inserting a key in front of the equally deep keys keeps the whole order, because it comes first by name. */
  lemma {:induction false} InsertStable(x: string, s: seq<string>)
    requires Sorted(s, Before) && forall y | y in s :: StrLt(x, y)
    ensures Sorted(Insert(x, s, Deeper), Before)
  {
    if s != [] {
      if Deeper(x, s[0]) {
        forall y | y in s ensures Before(x, y) {
          if y != s[0] { assert Before(s[0], y); }
        }
      } else {
        InsertStable(x, s[1..]);
        forall y | y in Insert(x, s[1..], Deeper) ensures Before(s[0], y) {
          assert y in multiset(Insert(x, s[1..], Deeper));
        }
      }
    }
  }

  lemma {:induction false} SortStable(s: seq<string>)
    requires Sorted(s, StrLt)
    ensures Sorted(Sort(s, Deeper), Before)
  {
    if s != [] {
      SortStable(s[1..]);
      MultisetMembers(Sort(s[1..], Deeper), s[1..]);
      InsertStable(s[0], Sort(s[1..], Deeper));
    }
  }

  lemma ReferencesOrdered(m: Nodes)
    ensures Sorted(References(m), Before)
  {
    AscendingSorted(m.Keys);
    assert Sorted(Ascending(m.Keys), StrLt);
    SortStable(Ascending(m.Keys));
  }

  lemma BeforeIrreflexive(refs: seq<string>)
    requires Sorted(refs, Before)
    ensures NoDup(refs)
  {
    forall i, j | 0 <= i < j < |refs| ensures refs[i] != refs[j] {
      StrTotal(refs[i], refs[i]);
      assert Before(refs[i], refs[j]);
    }
  }

  // -------------------------------------------------------------------- kids in order

  /** No kid of `p` comes after the first `n` references. */
  lemma {:induction false} KidsEarly(m: Nodes, root: string, refs: seq<string>, p: string, n: nat)
    requires n <= |refs| && forall j | n <= j < |refs| :: !IsKid(m, root, p, refs[j])
    ensures Kids(m, root, refs, p) == Kids(m, root, refs[..n], p)
    decreases |refs|
  {
    if n < |refs| {
      KidsEarly(m, root, refs[..|refs| - 1], p, n);
      assert refs[..|refs| - 1][..n] == refs[..n];
    } else {
      assert refs[..n] == refs;
    }
  }

  /** Kids of one node are listed in path order: they are equally deep. */
  lemma {:induction false} KidsSorted(m: Nodes, root: string, refs: seq<string>, p: string)
    requires Sorted(refs, Before)
    ensures Sorted(Kids(m, root, refs, p), StrLt)
    decreases |refs|
  {
    if refs != [] {
      var n := |refs| - 1;
      KidsSorted(m, root, refs[..n], p);
      if IsKid(m, root, p, refs[n]) {
        forall c | c in Kids(m, root, refs[..n], p) ensures StrLt(c, refs[n]) {
          ParentDepth(c);
          ParentDepth(refs[n]);
        }
      }
    }
  }

  // ------------------------------------------------------------------ sorting the result

  function SortedTree(b: ChannelBlock): ChannelBlock {
    var s := Sort(b.children, ByPath);
    MultisetMembers(s, b.children);
    b.(children := seq(|s|, i requires 0 <= i < |s| => assert s[i] in s; SortedTree(s[i])))
  }

  method SortChildren(channel: ChannelBlock) returns (sorted: ChannelBlock)
    ensures sorted == SortedTree(channel)
    decreases channel
  {
    var children := Sort(channel.children, ByPath);
    MultisetMembers(children, channel.children);
    ghost var s := children;
    for i := 0 to |children|
      invariant |children| == |s| && children[i..] == s[i..]
      invariant forall j | 0 <= j < i :: children[j] == SortedTree(s[j])
    {
      assert children[i] == children[i..][0] == s[i] && s[i] in s;
      var child := SortChildren(children[i]);
      assert children[i + 1..] == children[i..][1..];
      children := children[i := child];
    }
    sorted := channel.(children := children);
    assert sorted.children == SortedTree(channel).children;
  }

  ghost predicate OwnPaths(m: Nodes) { forall k | k in m :: m[k].path == k && m[k].children == [] }

  lemma FullParts(m: Nodes, root: string, refs: seq<string>, p: string)
    requires OwnPaths(m) && p in m && forall c | c in refs :: c in m
    ensures Full(m, root, refs, p).path == p && Own(Full(m, root, refs, p)) == m[p]
    ensures forall k | k in Kids(m, root, refs, p) :: k in m
    ensures Full(m, root, refs, p).children == FullAll(m, root, refs, Kids(m, root, refs, p))
  {
    assert Full(m, root, refs, p).children == FullAll(m, root, refs, Kids(m, root, refs, p));
  }

  lemma FullAllSorted(m: Nodes, root: string, refs: seq<string>, ks: seq<string>)
    requires OwnPaths(m) && (forall c | c in refs :: c in m) && (forall k | k in ks :: k in m)
    requires Sorted(ks, StrLe)
    ensures Sorted(FullAll(m, root, refs, ks), ByPath)
  {
    hide Full, Kids, OwnPaths;
    forall i, j | 0 <= i < j < |ks| ensures StrLe(Full(m, root, refs, ks[i]).path, Full(m, root, refs, ks[j]).path) {
      FullParts(m, root, refs, ks[i]);
      FullParts(m, root, refs, ks[j]);
    }
  }

  /** A finished node needs no sorting. */
  lemma {:induction false} FullIsSorted(m: Nodes, root: string, refs: seq<string>, p: string)
    requires OwnPaths(m) && p in m && Sorted(refs, Before) && forall c | c in refs :: c in m
    ensures SortedTree(Full(m, root, refs, p)) == Full(m, root, refs, p)
    decreases Longer(m, p)
  {
    var kids := Kids(m, root, refs, p);
    var b := Full(m, root, refs, p);
    FullParts(m, root, refs, p);
    KidsSorted(m, root, refs, p);
    assert Sorted(kids, StrLe);
    FullAllSorted(m, root, refs, kids);
    SortIdentity(b.children, ByPath);
    assert forall c | c in kids :: c in m && |c| > |p|;
    hide Kids, Before, OwnPaths, Full, SortedTree, Sort;
    forall i | 0 <= i < |kids| ensures SortedTree(b.children[i]) == b.children[i] {
      assert kids[i] in kids;
      LongerShrinks(m, p, kids[i]);
      FullIsSorted(m, root, refs, kids[i]);
    }
    SortedTreeStays(b);
  }

  lemma SortedTreeStays(b: ChannelBlock)
    requires Sort(b.children, ByPath) == b.children
    requires forall i | 0 <= i < |b.children| :: SortedTree(b.children[i]) == b.children[i]
    ensures SortedTree(b) == b
  {
    hide Sort, ByPath;
    assert SortedTree(b).children == b.children;
  }

  // -------------------------------------------------------------------- the builder itself

  /** The state of the node map once the first `n` references have been visited. */
  ghost predicate Visited(m: Nodes, root: string, refs: seq<string>, n: nat, nodes: Nodes)
    requires n <= |refs| && forall c | c in refs :: c in m
  {
    && (forall k :: k in nodes <==> k in m && !(Moves(m, root, k) && k in refs[..n]))
    && (forall k | k in nodes ::
          (forall c | c in Kids(m, root, refs[..n], k) :: c in m)
          && nodes[k] == m[k].(children := FullAll(m, root, refs, Kids(m, root, refs[..n], k))))
  }

  lemma ParentStays(refs: seq<string>, n: nat)
    requires n < |refs| && Sorted(refs, Before) && ParentOf(refs[n]).Some?
    ensures ParentOf(refs[n]).value !in refs[..n] && ParentOf(refs[n]).value != refs[n]
  {
    ParentDepth(refs[n]);
    forall j | 0 <= j < n ensures refs[j] != ParentOf(refs[n]).value { assert Before(refs[j], refs[n]); }
  }

  lemma NoLaterKids(m: Nodes, root: string, refs: seq<string>, n: nat)
    requires n < |refs| && Sorted(refs, Before)
    ensures Kids(m, root, refs, refs[n]) == Kids(m, root, refs[..n], refs[n])
    ensures refs[n] !in refs[..n]
  {
    BeforeIrreflexive(refs);
    forall j | n <= j < |refs| ensures !IsKid(m, root, refs[n], refs[j]) {
      if ParentOf(refs[j]).Some? { ParentDepth(refs[j]); }
      assert j == n || Before(refs[n], refs[j]);
    }
    KidsEarly(m, root, refs, refs[n], n);
  }

  /** When a node is moved all its kids have been moved beneath it, and its parent is still in place. */
  lemma MoveIsComplete(m: Nodes, root: string, refs: seq<string>, n: nat, nodes: Nodes)
    requires n < |refs| && Sorted(refs, Before) && (forall c :: c in refs <==> c in m)
    requires Visited(m, root, refs, n, nodes)
    ensures refs[n] in nodes && nodes[refs[n]] == Full(m, root, refs, refs[n])
    ensures ParentOf(refs[n]).Some? ==> ParentOf(refs[n]).value != refs[n]
    ensures ParentOf(refs[n]).Some? ==> (ParentOf(refs[n]).value in nodes <==> ParentOf(refs[n]).value in m)
  {
    hide Kids, Before;
    NoLaterKids(m, root, refs, n);
    if ParentOf(refs[n]).Some? { ParentStays(refs, n); }
    assert refs[n] in refs;
    assert nodes[refs[n]].children == Full(m, root, refs, refs[n]).children;
  }

  lemma KidsGrow(m: Nodes, root: string, refs: seq<string>, n: nat, k: string)
    requires n < |refs| && forall c | c in refs :: c in m
    ensures Kids(m, root, refs[..n + 1], k)
         == Kids(m, root, refs[..n], k) + (if IsKid(m, root, k, refs[n]) then [refs[n]] else [])
    ensures forall c | c in refs[..n + 1] :: c in m
    ensures forall c :: c in refs[..n + 1] <==> c in refs[..n] || c == refs[n]
  {
    assert refs[..n + 1][..n] == refs[..n];
    assert refs[..n + 1] == refs[..n] + [refs[n]];
  }

  ghost function Partial(m: Nodes, root: string, refs: seq<string>, n: nat, k: string): ChannelBlock
    requires n <= |refs| && k in m && forall c | c in refs :: c in m
  {
    m[k].(children := FullAll(m, root, refs, Kids(m, root, refs[..n], k)))
  }

  lemma PartialGrows(m: Nodes, root: string, refs: seq<string>, n: nat, k: string)
    requires n < |refs| && k in m && forall c | c in refs :: c in m
    ensures var was := Partial(m, root, refs, n, k);
            Partial(m, root, refs, n + 1, k)
            == was.(children := was.children
                    + (if IsKid(m, root, k, refs[n]) then [Full(m, root, refs, refs[n])] else []))
  {
    KidsGrow(m, root, refs, n, k);
    assert refs[n] in refs;
    assert Partial(m, root, refs, n + 1, k).children
        == Partial(m, root, refs, n, k).children
        + (if IsKid(m, root, k, refs[n]) then [Full(m, root, refs, refs[n])] else []);
  }

  /** The node map after visiting one more reference. */
  ghost function Visit(m: Nodes, root: string, refs: seq<string>, c: string, nodes: Nodes): Nodes
    requires c in m && forall c | c in refs :: c in m
  {
    if !Moves(m, root, c) || ParentOf(c).value !in nodes then nodes
    else
      var p := ParentOf(c).value;
      (nodes - {c})[p := nodes[p].(children := nodes[p].children + [Full(m, root, refs, c)])]
  }

  lemma VisitKeys(m: Nodes, root: string, refs: seq<string>, n: nat, nodes: Nodes)
    requires n < |refs| && Sorted(refs, Before) && (forall c :: c in refs <==> c in m)
    requires Visited(m, root, refs, n, nodes)
    ensures refs[n] in refs
    ensures forall k ::
              k in Visit(m, root, refs, refs[n], nodes) <==> k in m && !(Moves(m, root, k) && k in refs[..n + 1])
  {
    hide Kids, Full, Before, FullAll;
    assert refs[n] in refs;
    MoveIsComplete(m, root, refs, n, nodes);
    KidsGrow(m, root, refs, n, refs[n]);
  }

  lemma VisitValue(m: Nodes, root: string, refs: seq<string>, n: nat, nodes: Nodes, k: string)
    requires n < |refs| && Sorted(refs, Before) && (forall c :: c in refs <==> c in m)
    requires Visited(m, root, refs, n, nodes) && refs[n] in refs && k in Visit(m, root, refs, refs[n], nodes)
    ensures k in m && Visit(m, root, refs, refs[n], nodes)[k] == Partial(m, root, refs, n + 1, k)
  {
    hide Kids, Full, Before, FullAll;
    MoveIsComplete(m, root, refs, n, nodes);
    PartialGrows(m, root, refs, n, k);
  }

  lemma VisitOne(m: Nodes, root: string, refs: seq<string>, n: nat, nodes: Nodes)
    requires n < |refs| && Sorted(refs, Before) && (forall c :: c in refs <==> c in m)
    requires Visited(m, root, refs, n, nodes)
    ensures refs[n] in refs && Visited(m, root, refs, n + 1, Visit(m, root, refs, refs[n], nodes))
  {
    hide Visited, Visit, Partial, Before, Moves;
    VisitKeys(m, root, refs, n, nodes);
    var nodes' := Visit(m, root, refs, refs[n], nodes);
    forall k | k in nodes' ensures k in m && nodes'[k] == Partial(m, root, refs, n + 1, k) {
      VisitValue(m, root, refs, n, nodes, k);
    }
    VisitedFrom(m, root, refs, n + 1, nodes');
  }

  lemma VisitedFrom(m: Nodes, root: string, refs: seq<string>, n: nat, nodes: Nodes)
    requires n <= |refs| && forall c | c in refs :: c in m
    requires forall k :: k in nodes <==> k in m && !(Moves(m, root, k) && k in refs[..n])
    requires forall k | k in nodes :: k in m && nodes[k] == Partial(m, root, refs, n, k)
    ensures Visited(m, root, refs, n, nodes)
  {
    hide Kids, FullAll, Moves;
    assert forall c | c in refs[..n] :: c in refs;
  }

  method CollectChannels(channels: seq<ChannelBlock>) returns (nodes: Nodes)
    ensures nodes == CollectedAll(map[], channels)
  {
    nodes := map[];
    for i := 0 to |channels|
      invariant CollectedAll(nodes, channels[i..]) == CollectedAll(map[], channels)
    {
      assert channels[i..][0] == channels[i] && channels[i..][1..] == channels[i + 1..];
      nodes := Collect(nodes, channels[i]);
    }
    assert channels[|channels|..] == [];
  }

  /** The loop that moves each node beneath its parent, deepest first. */
  method Attach(all: Nodes, rootReference: string, references: seq<string>) returns (nodes: Nodes)
    requires Sorted(references, Before) && OwnPaths(all) && forall c :: c in references <==> c in all
    ensures forall k :: k in nodes <==> k in all && !Moves(all, rootReference, k)
    ensures forall k | k in nodes :: nodes[k] == Full(all, rootReference, references, k)
  {
    hide Kids, Full, Before;
    nodes := all;
    NothingVisited(all, rootReference, references);
    for i := 0 to |references|
      invariant Visited(all, rootReference, references, i, nodes)
    {
      var reference := references[i];
      MoveIsComplete(all, rootReference, references, i, nodes);
      VisitOne(all, rootReference, references, i, nodes);
      if reference != rootReference {
        var parent := ParentOf(reference);
        if parent.Some? && parent.value in nodes {
          assert reference in nodes;  // the first `expect`
          var child := nodes[reference];
          nodes := nodes - {reference};
          assert parent.value in nodes;  // the second `expect`
          var block := nodes[parent.value];
          nodes := nodes[parent.value := block.(children := block.children + [child])];
        }
      }
    }
    AllVisited(all, rootReference, references, nodes);
  }

  lemma NothingVisited(m: Nodes, root: string, refs: seq<string>)
    requires OwnPaths(m) && forall c | c in refs :: c in m
    ensures Visited(m, root, refs, 0, m)
  {
    assert refs[..0] == [];
    forall k | k in m ensures m[k] == Partial(m, root, refs, 0, k) {
      assert Kids(m, root, refs[..0], k) == [];
    }
  }

  lemma AllVisited(m: Nodes, root: string, refs: seq<string>, nodes: Nodes)
    requires (forall c :: c in refs <==> c in m) && Visited(m, root, refs, |refs|, nodes)
    ensures forall k :: k in nodes <==> k in m && !Moves(m, root, k)
    ensures forall k | k in nodes :: nodes[k] == Full(m, root, refs, k)
  {
    assert refs[..|refs|] == refs;
    forall k | k in nodes ensures nodes[k] == Full(m, root, refs, k) {
      assert nodes[k].children == Full(m, root, refs, k).children;
    }
  }

  /** The last loop: every top-level node is sorted throughout. */
  method SortTops(top: seq<ChannelBlock>) returns (sorted: seq<ChannelBlock>)
    ensures |sorted| == |top| && forall i | 0 <= i < |top| :: sorted[i] == SortedTree(top[i])
  {
    sorted := top;
    for i := 0 to |top|
      invariant |sorted| == |top| && sorted[i..] == top[i..]
      invariant forall j | 0 <= j < i :: sorted[j] == SortedTree(top[j])
    {
      assert sorted[i] == sorted[i..][0] == top[i];
      var node := SortChildren(sorted[i]);
      assert sorted[i + 1..] == sorted[i..][1..];
      sorted := sorted[i := node];
    }
  }

  /** What is left, in path order and sorted throughout. */
  method SortedValues(nodes: Nodes, ghost all: Nodes, ghost root: string, ghost refs: seq<string>)
    returns (top: seq<ChannelBlock>)
    requires OwnPaths(all) && Sorted(refs, Before) && forall c | c in refs :: c in all
    requires forall k | k in nodes :: k in all && nodes[k] == Full(all, root, refs, k)
    ensures top == FullAll(all, root, refs, Ascending(nodes.Keys))
  {
    hide *;
    var keys := Ascending(nodes.Keys);
    LeftInOrder(nodes, all, root, refs, keys);
    top := SortTops(Sort(Values(nodes, keys), ByPath));
    assert top == Values(nodes, keys);
  }

  lemma LeftInOrder(nodes: Nodes, all: Nodes, root: string, refs: seq<string>, keys: seq<string>)
    requires OwnPaths(all) && Sorted(refs, Before) && forall c | c in refs :: c in all
    requires forall k | k in nodes :: k in all && nodes[k] == Full(all, root, refs, k)
    requires keys == Ascending(nodes.Keys)
    ensures forall k | k in keys :: k in all
    ensures Values(nodes, keys) == FullAll(all, root, refs, keys)
    ensures Sort(Values(nodes, keys), ByPath) == Values(nodes, keys)
    ensures forall i | 0 <= i < |keys| :: SortedTree(Values(nodes, keys)[i]) == Values(nodes, keys)[i]
  {
    AscendingSorted(nodes.Keys);
    hide Kids, Full, SortedTree, Before, Ascending;
    forall i | 0 <= i < |keys|
      ensures keys[i] in all && Values(nodes, keys)[i] == Full(all, root, refs, keys[i])
      ensures SortedTree(Values(nodes, keys)[i]) == Values(nodes, keys)[i]
    {
      assert keys[i] in keys;
      FullIsSorted(all, root, refs, keys[i]);
    }
    assert Values(nodes, keys) == FullAll(all, root, refs, keys);
    hide FullAll, Values, OwnPaths;
    FullAllSorted(all, root, refs, keys);
    SortIdentity(Values(nodes, keys), ByPath);
  }

  /** The end of the builder: the root is taken out and everything is put in path order. */
  method Finish(all: Nodes, rootReference: string, ghost references: seq<string>, attached: Nodes)
    returns (root: Option<ChannelBlock>, top: seq<ChannelBlock>)
    requires OwnPaths(all) && Sorted(references, Before) && forall c | c in references :: c in all
    requires forall k :: k in attached <==> k in all && !Moves(all, rootReference, k)
    requires forall k | k in attached :: attached[k] == Full(all, rootReference, references, k)
    ensures root == if rootReference in all then Some(Full(all, rootReference, references, rootReference)) else None
    ensures top == FullAll(all, rootReference, references, Kept(all, rootReference, Ascending(all.Keys)))
  {
    hide Kids, Full, FullAll, Before, SortedTree, Kept, OwnPaths;
    var nodes := attached;
    root := None;
    if rootReference in nodes {
      FullIsSorted(all, rootReference, references, rootReference);
      var sorted := SortChildren(nodes[rootReference]);
      root := Some(sorted);
      nodes := nodes - {rootReference};
    }
    KeptKeys(all, rootReference, nodes.Keys);
    top := SortedValues(nodes, all, rootReference, references);
  }

  method Arrange(workspace: string, channels: seq<ChannelBlock>)
    returns (root: Option<ChannelBlock>, top: seq<ChannelBlock>)
    ensures (root, top) == Arranged(workspace, channels)
  {
    hide Kids, Full, Before;
    var nodes := CollectChannels(channels);
    CollectOwnPaths(channels);
    var references := Sort(Ascending(nodes.Keys), Deeper);
    var rootReference := RootRef(workspace);
    ReferencesOrdered(nodes);
    ReferencesCover(nodes);
    var attached := Attach(nodes, rootReference, references);
    root, top := Finish(nodes, rootReference, references, attached);
  }

  /** `into_values`, in key order. */
  function Values(nodes: Nodes, keys: seq<string>): (r: seq<ChannelBlock>)
    requires forall k | k in keys :: k in nodes
    ensures |r| == |keys| && forall i | 0 <= i < |r| :: r[i] == nodes[keys[i]]
  {
    seq(|keys|, i requires 0 <= i < |keys| => nodes[keys[i]])
  }

  lemma {:induction false} KeptSorted(m: Nodes, root: string, ks: seq<string>)
    requires Sorted(ks, StrLe) && NoDup(ks)
    ensures Sorted(Kept(m, root, ks), StrLe) && NoDup(Kept(m, root, ks))
  {
    if ks != [] {
      KeptSorted(m, root, ks[1..]);
      forall k | k in Kept(m, root, ks[1..]) ensures StrLe(ks[0], k) && k != ks[0] { assert k in ks[1..]; }
    }
  }

  /** The keys left at the end, in order, are the kept keys in order. */
  lemma KeptKeys(m: Nodes, root: string, left: set<string>)
    requires forall k :: k in left <==> k in m && k != root && !Moves(m, root, k)
    ensures Ascending(left) == Kept(m, root, Ascending(m.Keys))
  {
    var a, b := Ascending(left), Kept(m, root, Ascending(m.Keys));
    AscendingSorted(left);
    AscendingSorted(m.Keys);
    KeptSorted(m, root, Ascending(m.Keys));
    SameElements(a, b);
    StrLeIsTotal();
    SortedUnique(a, b, StrLe);
  }

  lemma {:induction false} SameElements<T>(a: seq<T>, b: seq<T>)
    requires NoDup(a) && NoDup(b) && forall x :: x in a <==> x in b
    ensures multiset(a) == multiset(b)
  {
    OnceEach(a);
    OnceEach(b);
    assert forall x :: multiset(a)[x] == multiset(b)[x];
  }

  lemma {:induction false} OnceEach<T>(s: seq<T>)
    requires NoDup(s)
    ensures forall x :: multiset(s)[x] == if x in s then 1 else 0
  {
    if s != [] {
      assert s == [s[0]] + s[1..];
      OnceEach(s[1..]);
    }
  }

  lemma {:induction false} AddAllOwnPaths(nodes: Nodes, bs: seq<ChannelBlock>)
    requires OwnPaths(nodes) && forall i | 0 <= i < |bs| :: bs[i].children == []
    ensures OwnPaths(AddAll(nodes, bs))
    ensures forall k :: k in AddAll(nodes, bs) <==> k in nodes || exists i :: 0 <= i < |bs| && bs[i].path == k
    decreases |bs|
  {
    if bs != [] {
      AddAllOwnPaths(Add(nodes, bs[0]), bs[1..]);
      assert bs == [bs[0]] + bs[1..];
    }
  }

  lemma {:induction false} FlatHasNoChildren(bs: seq<ChannelBlock>)
    ensures forall i | 0 <= i < |FlatAll(bs)| :: FlatAll(bs)[i].children == []
    decreases bs
  {
    if bs != [] {
      FlatHasNoChildren(bs[0].children);
      FlatHasNoChildren(bs[1..]);
      assert FlatAll(bs) == [Own(bs[0])] + FlatAll(bs[0].children) + FlatAll(bs[1..]);
    }
  }

  lemma CollectOwnPaths(channels: seq<ChannelBlock>)
    ensures OwnPaths(CollectedAll(map[], channels))
  {
    CollectAllIsFlat(map[], channels);
    FlatHasNoChildren(channels);
    AddAllOwnPaths(map[], FlatAll(channels));
  }
}
