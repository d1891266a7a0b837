/** Exactly which messages a channel shows and what their rows say (`src/fabric_context/assemble.rs`), stated over the
    events themselves. */
module AssembleLaws {
  import opened Order
  import opened Fabric
  import opened Assemble

  /** Older and newer; ids decide between events of one second. */
  predicate Ordered(a: EvCap, b: EvCap) {
    a.createdAt < b.createdAt || (a.createdAt == b.createdAt && StrLt(a.id, b.id))
  }

  /** Past the cursor, or, without one, of the last four hours. */
  predicate Recent(e: EvCap, cursor: nat, now: nat) {
    if cursor != 0 then e.createdAt > cursor else e.createdAt > 0 && e.createdAt + 4 * 3600 > now
  }

  /** `w` is the recent events in order. */
  ghost predicate InWindow(events: seq<EvCap>, cursor: nat, now: nat, w: seq<EvCap>) {
    && (forall e :: e in w <==> e in events && Recent(e, cursor, now))
    && forall i, j | 0 <= i < j < |w| :: Ordered(w[i], w[j])
  }

  /** The newest `n` follow each other within 20 minutes and are at most 30. */
  ghost predicate Close(w: seq<EvCap>, n: nat) {
    n <= |w| && n <= 30 && forall i | |w| - n < i < |w| :: w[i].createdAt - w[i - 1].createdAt <= 20 * 60
  }

  /** How many of the recent events are shown: all past a cursor or up to 30, else the most that are close. */
  ghost predicate Kept(w: seq<EvCap>, cursor: nat, n: nat) {
    if cursor != 0 || |w| <= 30 then n == |w| else Close(w, n) && forall m: nat | Close(w, m) :: m <= n
  }

  ghost predicate HasId(events: seq<EvCap>, id: string) { exists e :: e in events && e.id == id }

  /** The first forced event with its id. */
  predicate FirstForced(forced: seq<EvCap>, e: EvCap) {
    forced != [] && (forced[0] == e || (forced[0].id != e.id && FirstForced(forced[1..], e)))
  }

  ghost predicate Says(row: MessageRow, e: EvCap, forced: seq<EvCap>) {
    && row.id == e.id && row.channelRef == e.channelRef && row.from == e.fromRef && row.recipients == e.recipientRefs
    && row.createdAt == e.createdAt && row.body == e.body && row.attachmentDir == e.attachmentDir
    && row.needsReplyNudge == e.needsReplyNudge
    && (row.mention <==> e.mentionsSelf || exists f :: f in forced && f.forcedMention && f.id == e.id)
  }

  // -------------------------------------------------------------------------------- the proof

  lemma StartIs(e: EvCap, cursor: nat, now: nat)
    ensures e.createdAt > StartOf(cursor, now) <==> Recent(e, cursor, now)
  {
  }

  lemma OrderedIs(a: EvCap, b: EvCap)
    ensures Ordered(a, b) ==> EvLe(a, b)
    ensures EvLe(a, b) && a.id != b.id ==> Ordered(a, b)
    ensures Ordered(a, b) ==> a != b
  {
    StrTotal(a.id, b.id);
  }

  lemma SinceIs(events: seq<EvCap>, since: nat, e: EvCap)
    ensures e in Since(events, since) <==> e in events && e.createdAt > since
  {
    SinceKeeps(events, since, e);
    assert e in multiset(Since(events, since)) <==> e in Since(events, since);
    assert e in multiset(events) <==> e in events;
  }

  lemma WindowIs(events: seq<EvCap>, cursor: nat, now: nat, w: seq<EvCap>)
    requires DistinctIds(events) && InWindow(events, cursor, now, w)
    ensures var since := Since(events, StartOf(cursor, now));
            DistinctIds(since) && multiset(w) == multiset(since) && InOrder(since) == w && |w| == |since|
  {
    var start := StartOf(cursor, now);
    var since := Since(events, start);
    SinceDistinct(events, start);
    forall e ensures e in w <==> e in since { SinceIs(events, start, e); StartIs(e, cursor, now); }
    WindowDistinct(events, cursor, now, w);
    hide Since, InWindow, StartOf, InOrder;
    SameMembersDistinct(w, since);
    SameInOrder(w, since);
    assert |w| == |multiset(w)| == |multiset(since)| == |since|;
    WindowSorted(w);
  }

  lemma WindowDistinct(events: seq<EvCap>, cursor: nat, now: nat, w: seq<EvCap>)
    requires DistinctIds(events) && InWindow(events, cursor, now, w)
    ensures DistinctIds(w) && forall i, j | 0 <= i < j < |w| :: Ordered(w[i], w[j])
  {
    forall i, j | 0 <= i < j < |w| ensures w[i].id != w[j].id {
      OrderedIs(w[i], w[j]);
      assert w[i] in events && w[j] in events;
    }
  }

  lemma WindowSorted(w: seq<EvCap>)
    requires forall i, j | 0 <= i < j < |w| :: Ordered(w[i], w[j])
    ensures InOrder(w) == w
  {
    forall i, j | 0 <= i < j < |w| ensures EvLe(w[i], w[j]) { OrderedIs(w[i], w[j]); }
    SortIdentity(w, EvLe);
  }

  lemma CloseIs(w: seq<EvCap>, n: nat)
    requires forall i, j | 0 <= i < j < |w| :: Ordered(w[i], w[j])
    ensures IsRun(w, n) <==> Close(w, n)
  {
    hide StrLt;
    forall i | 0 < i < |w| ensures Gap(w, i) == w[i].createdAt - w[i - 1].createdAt { assert Ordered(w[i - 1], w[i]); }
  }

  lemma ChosenAre(events: seq<EvCap>, cursor: nat, now: nat, w: seq<EvCap>) returns (n: nat)
    requires DistinctIds(events) && InWindow(events, cursor, now, w)
    ensures n <= |w| && Kept(w, cursor, n) && OmittedOf(events, cursor, now) == |w| - n
    ensures forall e :: e in Chosen(events, cursor, now) <==> e in w[|w| - n..]
  {
    var since, chosen := Since(events, StartOf(cursor, now)), Chosen(events, cursor, now);
    WindowIs(events, cursor, now, w);
    WindowDistinct(events, cursor, now, w);
    MultisetMembers(w, since);
    ClusterFits(since);
    n := |w|;
    assert w[0..] == w;
    if cursor == 0 && |w| > 30 {
      ClusterIsMaximal(since);
      n := |Cluster(since)|;
      forall m: nat ensures IsRun(w, m) <==> Close(w, m) { CloseIs(w, m); }
    }
    hide InWindow, Since, InOrder, DistinctIds, Ordered, IsRun, Close;
  }

  lemma {:induction false} ForcedJoinFirst(events: seq<EvCap>, seen: set<string>, forced: seq<EvCap>, e: EvCap)
    ensures e in WithForced(events, seen, forced) <==> e in events || (FirstForced(forced, e) && e.id !in seen)
    decreases |forced|
  {
    if forced != [] {
      var f, rest := forced[0], forced[1..];
      if f.id in seen {
        ForcedJoinFirst(events, seen, rest, e);
      } else {
        ForcedJoinFirst(events + [f], seen + {f.id}, rest, e);
      }
    }
  }

  lemma RowsSay(shown: seq<EvCap>, forced: seq<EvCap>)
    ensures |RowsOf(shown, forced)| == |shown|
    ensures forall i | 0 <= i < |shown| :: Says(RowsOf(shown, forced)[i], shown[i], forced)
  {
  }

  /** With the recent events in order, the channel shows all of them past a cursor or when they are at most 30, and else
      the longest run of the newest that are at most 30 and within 20 minutes of each other, and counts the others as
      omitted; each forced event joins whose id is not shown yet; the rows are in order and say what their events
      say. */
  lemma RowsExactly(events: seq<EvCap>, forced: seq<EvCap>, cursor: nat, now: nat, w: seq<EvCap>)
    returns (n: nat, shown: seq<EvCap>)
    requires DistinctIds(events) && InWindow(events, cursor, now, w)
    ensures n <= |w| && Kept(w, cursor, n) && OmittedOf(events, cursor, now) == |w| - n
    ensures forall e :: e in shown <==>
              e in w[|w| - n..] || (FirstForced(forced, e) && !HasId(w[|w| - n..], e.id))
    ensures forall i, j | 0 <= i < j < |shown| :: Ordered(shown[i], shown[j])
    ensures var rows := RowsOf(Shown(events, forced, cursor, now), forced);
            |rows| == |shown| && forall i | 0 <= i < |rows| :: Says(rows[i], shown[i], forced)
  {
    n := ChosenAre(events, cursor, now, w);
    shown := Shown(events, forced, cursor, now);
    RowsSay(shown, forced);
    RowsAreSortedOnce(events, forced, cursor, now);
    forall i, j | 0 <= i < j < |shown| ensures Ordered(shown[i], shown[j]) { OrderedIs(shown[i], shown[j]); }
    var chosen := Chosen(events, cursor, now);
    var all := WithForced(chosen, Ids(chosen), forced);
    hide Chosen, InOrder, WithForced, Ordered, Kept, OmittedOf, InWindow, Says, RowsOf, DistinctIds, EvLe, FirstForced;
    MultisetMembers(all, InOrder(all));
    forall e ensures e in shown <==> e in w[|w| - n..] || (FirstForced(forced, e) && !HasId(w[|w| - n..], e.id)) {
      ForcedJoinFirst(chosen, Ids(chosen), forced, e);
      assert HasId(w[|w| - n..], e.id) <==> e.id in Ids(chosen);
    }
  }
}
