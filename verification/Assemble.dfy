/** Which messages a channel shows (`src/fabric_context/assemble.rs`): the recent cluster, or everything past the
    cursor, together with the forced ones. */
module Assemble {
  import opened Order
  import opened Fabric

  const WINDOW_SECS := 14400
  const MAX_CLUSTER_GAP_SECS := 1200
  const MAX_CLUSTER_ROWS := 30

  datatype EvCap = EvCap(
    id: string, channelRef: string, fromRef: string, recipientRefs: seq<string>, createdAt: nat, body: string,
    attachmentDir: string, mentionsSelf: bool, forcedMention: bool, needsReplyNudge: bool)

  predicate EvLe(a: EvCap, b: EvCap) { a.createdAt < b.createdAt || (a.createdAt == b.createdAt && StrLe(a.id, b.id)) }

  /** In time order, ids breaking ties. */
  function InOrder(events: seq<EvCap>): (s: seq<EvCap>)
    ensures |s| == |events| && multiset(s) == multiset(events)
  {
    Sort(events, EvLe)
  }

  function Gap(s: seq<EvCap>, i: nat): nat
    requires 0 < i < |s|
  {
    if s[i].createdAt < s[i - 1].createdAt then 0 else s[i].createdAt - s[i - 1].createdAt
  }

  // ------------------------------------------------------------------------------- the cluster

  /** Where the walk back from `i` stops. */
  function StopAt(s: seq<EvCap>, i: nat): (r: nat)
    requires i < |s|
    ensures r <= i
  {
    if i == 0 || Gap(s, i) > MAX_CLUSTER_GAP_SECS || |s| - i >= MAX_CLUSTER_ROWS then i else StopAt(s, i - 1)
  }

  function Cut(s: seq<EvCap>): seq<EvCap>
    requires s != []
  {
    s[StopAt(s, |s| - 1)..]
  }

  function Cluster(events: seq<EvCap>): seq<EvCap> {
    if |events| <= MAX_CLUSTER_ROWS then events
    else
      Cut(InOrder(events))
  }

  /** What one round of the walk back does. */
  lemma StopStep(s: seq<EvCap>, i: nat, gap: nat)
    requires 0 < i < |s|
    requires gap == if s[i].createdAt < s[i - 1].createdAt then 0 else s[i].createdAt - s[i - 1].createdAt
    ensures StopAt(s, i) == if gap > MAX_CLUSTER_GAP_SECS || |s| - i >= MAX_CLUSTER_ROWS then i else StopAt(s, i - 1)
  {
    assert gap == Gap(s, i);
  }

  method RecentCluster(events: seq<EvCap>) returns (r: seq<EvCap>)
    ensures r == Cluster(events)
  {
    hide InOrder, EvLe;
    if |events| <= MAX_CLUSTER_ROWS { return events; }
    var s := InOrder(events);
    assert Cluster(events) == s[StopAt(s, |s| - 1)..];
    assert StopAt(s, 0) == 0;
    hide *;
    var start := |s| - 1;
    while start > 0
      invariant 0 <= start < |s| && StopAt(s, start) == StopAt(s, |s| - 1)
    {
      var gap := if s[start].createdAt < s[start - 1].createdAt then 0 else s[start].createdAt - s[start - 1].createdAt;
      StopStep(s, start, gap);
      if gap > MAX_CLUSTER_GAP_SECS || |s| - start >= MAX_CLUSTER_ROWS { break; }
      start := start - 1;
    }
    return s[start..];
  }

  /** A run of the newest `n` rows: at most 30, and no gap inside over 20 minutes. */
  ghost predicate IsRun(s: seq<EvCap>, n: nat) {
    n <= |s| && n <= MAX_CLUSTER_ROWS && forall i | |s| - n < i < |s| :: Gap(s, i) <= MAX_CLUSTER_GAP_SECS
  }

  lemma {:induction false} StopIsMaximal(s: seq<EvCap>, i: nat)
    requires i < |s| && |s| - i <= MAX_CLUSTER_ROWS && IsRun(s, |s| - i)
    ensures var k := |s| - StopAt(s, i); k >= 1 && IsRun(s, k) && forall n: nat | IsRun(s, n) :: n <= k
  {
    if i == 0 || Gap(s, i) > MAX_CLUSTER_GAP_SECS || |s| - i >= MAX_CLUSTER_ROWS {
      forall n: nat | IsRun(s, n) ensures n <= |s| - i {}
    } else {
      StopIsMaximal(s, i - 1);
    }
  }

  lemma CutIsMaximal(s: seq<EvCap>)
    requires s != []
    ensures var c := Cut(s);
            1 <= |c| <= |s| && c == s[|s| - |c|..] && IsRun(s, |c|) && forall n: nat | IsRun(s, n) :: n <= |c|
  {
    LastIsRun(s);
    hide StopAt, Gap, IsRun;
    StopIsMaximal(s, |s| - 1);
    SuffixLength(s, StopAt(s, |s| - 1));
  }

  lemma InOrderIsSorted(events: seq<EvCap>)
    ensures Sorted(InOrder(events), EvLe)
  {
    EventOrder();
    SortSorted(events, EvLe);
  }

  /** Among more than 30 events, the cluster is the longest suffix in time order with at most 30 rows and no gap over 20
      minutes. */
  lemma ClusterIsMaximal(events: seq<EvCap>)
    requires |events| > MAX_CLUSTER_ROWS
    ensures var s, c := InOrder(events), Cluster(events);
            && 1 <= |c| <= |s| && c == s[|s| - |c|..]
            && Sorted(s, EvLe) && multiset(s) == multiset(events)
            && IsRun(s, |c|) && forall n: nat | IsRun(s, n) :: n <= |c|
  {
    hide InOrder, Cut, EvLe, IsRun;
    InOrderIsSorted(events);
    CutIsMaximal(InOrder(events));
  }

  lemma LastIsRun(s: seq<EvCap>)
    requires s != []
    ensures IsRun(s, 1)
  {
  }

  lemma SuffixLength(s: seq<EvCap>, n: nat)
    requires n <= |s|
    ensures |s[n..]| == |s| - n && s[|s| - |s[n..]|..] == s[n..]
  {
  }

  lemma EventOrder()
    ensures Total(EvLe)
  {
    hide StrLt;
    StrLeIsTotal();
  }

  // ---------------------------------------------------------------------------------- the rows

  function Since(events: seq<EvCap>, since: nat): seq<EvCap> {
    if events == [] then [] else (if events[0].createdAt > since then [events[0]] else []) + Since(events[1..], since)
  }

  function Ids(events: seq<EvCap>): set<string> { set e | e in events :: e.id }

  /** The forced events are added unless their id is there. */
  function WithForced(events: seq<EvCap>, seen: set<string>, forced: seq<EvCap>): seq<EvCap>
    decreases |forced|
  {
    if forced == [] then events
    else if forced[0].id in seen then WithForced(events, seen, forced[1..])
    else WithForced(events + [forced[0]], seen + {forced[0].id}, forced[1..])
  }

  function StartOf(cursor: nat, now: nat): nat {
    if cursor != 0 then cursor else if now < WINDOW_SECS then 0 else now - WINDOW_SECS
  }

  /** What is shown before the forced events join. */
  function Chosen(events: seq<EvCap>, cursor: nat, now: nat): seq<EvCap> {
    var recent := Since(events, StartOf(cursor, now));
    if cursor == 0 then Cluster(recent) else recent
  }

  function Shown(events: seq<EvCap>, forced: seq<EvCap>, cursor: nat, now: nat): seq<EvCap> {
    var chosen := Chosen(events, cursor, now);
    InOrder(WithForced(chosen, Ids(chosen), forced))
  }

  predicate ForcedMention(forced: seq<EvCap>, id: string) { exists e | e in forced :: e.forcedMention && e.id == id }

  function RowOf(e: EvCap, forced: seq<EvCap>): MessageRow {
    MessageRow(e.id, e.channelRef, e.fromRef, e.recipientRefs, e.createdAt, e.body, e.attachmentDir,
               e.mentionsSelf || ForcedMention(forced, e.id), e.needsReplyNudge)
  }

  function RowsOf(events: seq<EvCap>, forced: seq<EvCap>): seq<MessageRow> {
    seq(|events|, i requires 0 <= i < |events| => RowOf(events[i], forced))
  }

  function OmittedOf(events: seq<EvCap>, cursor: nat, now: nat): nat {
    if cursor != 0 then 0
    else
      ClusterFits(Since(events, StartOf(cursor, now)));
      |Since(events, StartOf(cursor, now))| - |Chosen(events, cursor, now)|
  }

  lemma ClusterFits(events: seq<EvCap>)
    ensures |Cluster(events)| <= |events|
  {
  }

  method MessageRows(events: seq<EvCap>, forced: seq<EvCap>, cursor: nat, now: nat)
    returns (rows: seq<MessageRow>, omitted: nat)
    ensures rows == RowsOf(Shown(events, forced, cursor, now), forced)
    ensures omitted == OmittedOf(events, cursor, now)
  {
    hide Cluster, InOrder, Since, RowOf;
    var since := StartOf(cursor, now);
    var shown := Since(events, since);
    omitted := 0;
    if cursor == 0 {
      var total := |shown|;
      ClusterFits(shown);
      shown := RecentCluster(shown);
      omitted := total - |shown|;
    }
    ghost var chosen := shown;
    var seen := Ids(shown);
    var i := 0;
    while i < |forced|
      invariant 0 <= i <= |forced|
      invariant WithForced(chosen, Ids(chosen), forced) == WithForced(shown, seen, forced[i..])
    {
      assert forced[i..][0] == forced[i] && forced[i..][1..] == forced[i + 1..];
      if forced[i].id !in seen {
        seen := seen + {forced[i].id};
        shown := shown + [forced[i]];
      }
      i := i + 1;
    }
    assert forced[|forced|..] == [];
    rows := RowsOf(InOrder(shown), forced);
  }

  // ------------------------------------------------------------------------------- main results

  ghost predicate DistinctIds(events: seq<EvCap>) {
    forall i, j | 0 <= i < j < |events| :: events[i].id != events[j].id
  }

  lemma IdsMore(events: seq<EvCap>, e: EvCap)
    ensures Ids(events + [e]) == Ids(events) + {e.id}
  {
  }

  /** The forced events that join: for each id that is not there yet, the first with it. */
  lemma {:induction false} ForcedJoin(events: seq<EvCap>, forced: seq<EvCap>)
    requires DistinctIds(events)
    ensures var r := WithForced(events, Ids(events), forced);
            && DistinctIds(r) && events <= r && Ids(r) == Ids(events) + Ids(forced)
            && forall e | e in r :: e in events || e in forced
    decreases |forced|
  {
    if forced != [] {
      var f := forced[0];
      assert Ids(forced) == {f.id} + Ids(forced[1..]) by { assert forced == [f] + forced[1..]; }
      IdsMore(events, f);
      if f.id in Ids(events) {
        ForcedJoin(events, forced[1..]);
      } else {
        assert DistinctIds(events + [f]) by {
          forall i | 0 <= i < |events| ensures events[i].id != f.id { assert events[i] in events; }
        }
        hide Ids, DistinctIds;
        ForcedJoin(events + [f], forced[1..]);
      }
    }
  }

  lemma {:induction false} SinceKeeps(events: seq<EvCap>, since: nat, e: EvCap)
    ensures multiset(Since(events, since))[e] == if e.createdAt > since then multiset(events)[e] else 0
  {
    if events != [] {
      SinceKeeps(events[1..], since, e);
      assert events == [events[0]] + events[1..];
    }
  }

  ghost predicate EachOnce(events: seq<EvCap>) {
    && (forall e | e in events :: multiset(events)[e] == 1)
    && forall a, b | a in events && b in events && a.id == b.id :: a == b
  }

  lemma DistinctByCount(events: seq<EvCap>)
    ensures DistinctIds(events) <==> EachOnce(events)
  {
    if DistinctIds(events) {
      forall e | e in events ensures multiset(events)[e] == 1 { CountOne(events, e); }
    } else {
      var i, j :| 0 <= i < j < |events| && events[i].id == events[j].id;
      assert events[i] in events && events[j] in events;
      if events[i] == events[j] { CountTwo(events, i, j); }
    }
  }

  lemma CountTwo(events: seq<EvCap>, i: nat, j: nat)
    requires i < j < |events| && events[i] == events[j]
    ensures multiset(events)[events[i]] >= 2
  {
    var a, b := events[..j], events[j..];
    assert events == a + b && a[i] == events[i] && b[0] == events[j];
    assert events[i] in a && events[j] in b;
    assert multiset(events) == multiset(a) + multiset(b);
  }

  lemma CountOne(events: seq<EvCap>, e: EvCap)
    requires DistinctIds(events) && e in events
    ensures multiset(events)[e] == 1
  {
    var i :| 0 <= i < |events| && events[i] == e;
    assert events == events[..i] + [e] + events[i + 1..];
    assert e !in events[..i] && e !in events[i + 1..];
  }

  lemma SameMultisetDistinct(a: seq<EvCap>, b: seq<EvCap>)
    requires multiset(a) == multiset(b) && DistinctIds(a)
    ensures DistinctIds(b)
  {
    MultisetMembers(a, b);
    DistinctByCount(a);
    DistinctByCount(b);
  }

  lemma SameInOrder(a: seq<EvCap>, b: seq<EvCap>)
    requires multiset(a) == multiset(b) && DistinctIds(a)
    ensures InOrder(a) == InOrder(b)
  {
    InOrderIsSorted(a);
    InOrderIsSorted(b);
    var x, y := InOrder(a), InOrder(b);
    MultisetMembers(a, x);
    DistinctByCount(a);
    StrLeIsTotal();
    hide InOrder, StrLt, DistinctIds;
    assert forall m, n | m in x && n in x && EvLe(m, n) && EvLe(n, m) :: m == n;
    SortedUnique(x, y, EvLe);
  }

  lemma SinceSame(a: seq<EvCap>, b: seq<EvCap>, since: nat)
    requires multiset(a) == multiset(b)
    ensures multiset(Since(a, since)) == multiset(Since(b, since))
  {
    forall e ensures multiset(Since(a, since))[e] == multiset(Since(b, since))[e] {
      SinceKeeps(a, since, e);
      SinceKeeps(b, since, e);
    }
  }

  lemma {:induction false} SinceDistinct(events: seq<EvCap>, since: nat)
    requires DistinctIds(events)
    ensures DistinctIds(Since(events, since))
            && forall e | e in Since(events, since) :: e in events && e.createdAt > since
  {
    if events != [] {
      SinceDistinct(events[1..], since);
      assert forall e | e in events[1..] :: e.id != events[0].id;
    }
  }

  lemma ClusterDistinct(events: seq<EvCap>)
    requires DistinctIds(events)
    ensures DistinctIds(Cluster(events)) && forall e | e in Cluster(events) :: e in events
  {
    if |events| > MAX_CLUSTER_ROWS {
      SameMultisetDistinct(events, InOrder(events));
      MultisetMembers(events, InOrder(events));
      hide InOrder, StopAt;
    }
  }

  lemma ClusterSame(a: seq<EvCap>, b: seq<EvCap>)
    requires multiset(a) == multiset(b) && DistinctIds(a)
    ensures multiset(Cluster(a)) == multiset(Cluster(b))
  {
    assert |a| == |multiset(a)| == |multiset(b)| == |b|;
    hide InOrder, Cut, DistinctIds;
    if |a| > MAX_CLUSTER_ROWS { SameInOrder(a, b); }
  }

  lemma ChosenIs(events: seq<EvCap>, cursor: nat, now: nat)
    requires DistinctIds(events)
    ensures var c := Chosen(events, cursor, now);
            DistinctIds(c) && forall e | e in c :: e in events && e.createdAt > StartOf(cursor, now)
  {
    hide Since, Cluster, DistinctIds, StartOf;
    SinceDistinct(events, StartOf(cursor, now));
    ClusterDistinct(Since(events, StartOf(cursor, now)));
  }

  /** The rows are in time order, no id comes twice, and the ids are those chosen and those forced: so every forced
      message is there once. */
  lemma RowsAreSortedOnce(events: seq<EvCap>, forced: seq<EvCap>, cursor: nat, now: nat)
    requires DistinctIds(events)
    ensures var shown, chosen := Shown(events, forced, cursor, now), Chosen(events, cursor, now);
            && Sorted(shown, EvLe) && DistinctIds(shown)
            && Ids(shown) == Ids(chosen) + Ids(forced)
            && (forall e | e in chosen :: e in shown)
            && (forall e | e in shown :: e in chosen || e in forced)
            && |chosen| + OmittedOf(events, cursor, now)
               == if cursor == 0 then |Since(events, StartOf(cursor, now))| else |chosen|
  {
    ChosenIs(events, cursor, now);
    var chosen := Chosen(events, cursor, now);
    var all := WithForced(chosen, Ids(chosen), forced);
    hide Chosen, InOrder, WithForced, DistinctIds, EvLe;
    ForcedJoin(chosen, forced);
    InOrderIsSorted(all);
    SameMultisetDistinct(all, InOrder(all));
    MultisetMembers(all, InOrder(all));
    assert Ids(InOrder(all)) == Ids(all);
  }

  lemma {:induction false} WithForcedSame(a: seq<EvCap>, b: seq<EvCap>, seen: set<string>, forced: seq<EvCap>)
    requires multiset(a) == multiset(b)
    ensures multiset(WithForced(a, seen, forced)) == multiset(WithForced(b, seen, forced))
    decreases |forced|
  {
    if forced != [] {
      if forced[0].id in seen {
        WithForcedSame(a, b, seen, forced[1..]);
      } else {
        WithForcedSame(a + [forced[0]], b + [forced[0]], seen + {forced[0].id}, forced[1..]);
      }
    }
  }

  /** The rows and the omitted count do not depend on the order events arrive in. */
  lemma ArrivalOrderIsIrrelevant(a: seq<EvCap>, b: seq<EvCap>, forced: seq<EvCap>, cursor: nat, now: nat)
    requires multiset(a) == multiset(b) && DistinctIds(a)
    ensures Shown(a, forced, cursor, now) == Shown(b, forced, cursor, now)
    ensures OmittedOf(a, cursor, now) == OmittedOf(b, cursor, now)
  {
    var since := StartOf(cursor, now);
    SinceSame(a, b, since);
    SinceDistinct(a, since);
    ClusterSame(Since(a, since), Since(b, since));
    var ca, cb := Chosen(a, cursor, now), Chosen(b, cursor, now);
    assert multiset(ca) == multiset(cb);
    assert |ca| == |multiset(ca)| == |cb| && |Since(a, since)| == |multiset(Since(a, since))| == |Since(b, since)|;
    ChosenIs(a, cursor, now);
    hide Chosen, InOrder, WithForced, DistinctIds, Since, Cluster;
    MultisetMembers(ca, cb);
    assert Ids(ca) == Ids(cb);
    WithForcedSame(ca, cb, Ids(ca), forced);
    ForcedJoin(ca, forced);
    SameInOrder(WithForced(ca, Ids(ca), forced), WithForced(cb, Ids(cb), forced));
  }

  lemma {:induction false} ForcedMembers(events: seq<EvCap>, seen: set<string>, forced: seq<EvCap>, e: EvCap)
    requires DistinctIds(forced)
    ensures e in WithForced(events, seen, forced) <==> e in events || (e in forced && e.id !in seen)
    decreases |forced|
  {
    if forced != [] {
      var f, rest := forced[0], forced[1..];
      assert forall x | x in rest :: x.id != f.id;
      assert e in forced <==> e == f || e in rest;
      if f.id in seen {
        ForcedMembers(events, seen, rest, e);
      } else {
        ForcedMembers(events + [f], seen + {f.id}, rest, e);
      }
    }
  }

  lemma SameMembersDistinct(a: seq<EvCap>, b: seq<EvCap>)
    requires DistinctIds(a) && DistinctIds(b) && forall e :: e in a <==> e in b
    ensures multiset(a) == multiset(b)
  {
    DistinctByCount(a);
    DistinctByCount(b);
    forall e ensures multiset(a)[e] == multiset(b)[e] {
      assert e in a <==> e in multiset(a);
      assert e in b <==> e in multiset(b);
    }
  }

  lemma SameMentions(f: seq<EvCap>, g: seq<EvCap>, shown: seq<EvCap>)
    requires forall e :: e in f <==> e in g
    ensures RowsOf(shown, f) == RowsOf(shown, g)
  {
    forall id ensures ForcedMention(f, id) == ForcedMention(g, id) {}
    hide ForcedMention;
  }

  /** Nor on the order of the forced events, as long as their ids are distinct. */
  lemma ForcedOrderIsIrrelevant(events: seq<EvCap>, f: seq<EvCap>, g: seq<EvCap>, cursor: nat, now: nat)
    requires DistinctIds(events) && DistinctIds(f) && multiset(f) == multiset(g)
    ensures RowsOf(Shown(events, f, cursor, now), f) == RowsOf(Shown(events, g, cursor, now), g)
  {
    ChosenIs(events, cursor, now);
    var chosen := Chosen(events, cursor, now);
    var x, y := WithForced(chosen, Ids(chosen), f), WithForced(chosen, Ids(chosen), g);
    hide Chosen, InOrder, WithForced, DistinctIds, Ids, RowsOf;
    MultisetMembers(f, g);
    SameMultisetDistinct(f, g);
    ForcedJoin(chosen, f);
    ForcedJoin(chosen, g);
    forall e ensures e in x <==> e in y {
      ForcedMembers(chosen, Ids(chosen), f, e);
      ForcedMembers(chosen, Ids(chosen), g, e);
    }
    SameMembersDistinct(x, y);
    SameInOrder(x, y);
    SameMentions(f, g, InOrder(x));
  }
}
