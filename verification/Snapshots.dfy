/** Group records (`src/group_snapshot.rs`): folding relay events into the latest state of each group. */
module Snapshots {
  import opened Order

  /** `id` is the event id; distinct events have distinct ids. */
  datatype Event = Event(id: string, createdAt: nat, kind: nat, tags: seq<seq<string>>)

  datatype Metadata = Metadata(name: Option<string>, about: Option<string>, tags: seq<seq<string>>, asOf: nat)

  datatype Subject = Subject(pubkey: string, roles: seq<string>)

  datatype Snapshot = Snapshot(id: string, metadata: Option<Metadata>, admins: seq<Subject>, members: seq<Subject>)

  /** The value of the first tag of this name that has one. */
  function TagValue(tags: seq<seq<string>>, name: string): Option<string> {
    if tags == [] then None
    else if |tags[0]| > 1 && tags[0][0] == name then Some(tags[0][1])
    else TagValue(tags[1..], name)
  }

  function DTag(e: Event): Option<string> { TagValue(e.tags, "d") }

  /** Section "Kinds" of NIP-01: the newer event, and on a tie the one with the lower id. */
  predicate Beats(a: Event, b: Event) { a.createdAt > b.createdAt || (a.createdAt == b.createdAt && StrLt(a.id, b.id)) }

  function InsertLatest(m: map<string, Event>, key: string, e: Event): map<string, Event> {
    if key !in m || Beats(e, m[key]) then m[key := e] else m
  }

  function FromMetadataEvent(e: Event): Metadata {
    Metadata(TagValue(e.tags, "name"), TagValue(e.tags, "about"), e.tags, e.createdAt)
  }

  /** The "p" tags whose key parses; `hex` stands for `PublicKey::from_hex`. */
  function Subjects(hex: string -> Option<string>, tags: seq<seq<string>>, withRoles: bool): seq<Subject> {
    if tags == [] then []
    else
      var tag, rest := tags[0], Subjects(hex, tags[1..], withRoles);
      if |tag| > 1 && tag[0] == "p" && hex(tag[1]).Some?
      then [Subject(hex(tag[1]).value, if withRoles then tag[2..] else [])] + rest
      else rest
  }

  function Listed(hex: string -> Option<string>, e: Option<Event>, withRoles: bool): seq<Subject> {
    if e.None? then [] else Subjects(hex, e.value.tags, withRoles)
  }

  function Get(m: map<string, Event>, key: string): Option<Event> { if key in m then Some(m[key]) else None }

  datatype Maps = Maps(metadata: map<string, Event>, admins: map<string, Event>, members: map<string, Event>)

  function SnapshotOf(hex: string -> Option<string>, m: Maps, id: string): Snapshot {
    var metadata := Get(m.metadata, id);
    Snapshot(id, if metadata.None? then None else Some(FromMetadataEvent(metadata.value)),
             Listed(hex, Get(m.admins, id), true), Listed(hex, Get(m.members, id), false))
  }

  function AllOf(hex: string -> Option<string>, m: Maps, ids: seq<string>): seq<Snapshot> {
    seq(|ids|, i requires 0 <= i < |ids| => SnapshotOf(hex, m, ids[i]))
  }

  predicate Wanted(groupIds: set<string>, d: string) { groupIds == {} || d in groupIds }

  /** The map of one kind after a list of events. */
  function LatestMap(events: seq<Event>, kind: nat, groupIds: set<string>): map<string, Event> {
    if events == [] then map[]
    else
      var e, before := events[|events| - 1], LatestMap(events[..|events| - 1], kind, groupIds);
      if e.kind == kind && DTag(e).Some? && Wanted(groupIds, DTag(e).value)
      then InsertLatest(before, DTag(e).value, e)
      else before
  }

  function MapsOf(events: seq<Event>, groupIds: set<string>): Maps {
    Maps(LatestMap(events, 39000, groupIds), LatestMap(events, 39001, groupIds), LatestMap(events, 39002, groupIds))
  }

  function IdsOf(m: Maps): set<string> { m.metadata.Keys + m.admins.Keys + m.members.Keys }

  function Decoded(hex: string -> Option<string>, events: seq<Event>, groupIds: set<string>): seq<Snapshot> {
    AllOf(hex, MapsOf(events, groupIds), Ascending(IdsOf(MapsOf(events, groupIds))))
  }

  method DecodeSnapshots(hex: string -> Option<string>, events: seq<Event>, groupIds: set<string>)
    returns (r: seq<Snapshot>)
    ensures r == Decoded(hex, events, groupIds)
  {
    var metadata, admins, members: map<string, Event> := map[], map[], map[];
    var i := 0;
    while i < |events|
      invariant 0 <= i <= |events| && Maps(metadata, admins, members) == MapsOf(events[..i], groupIds)
    {
      var event := events[i];
      assert events[..i + 1][..i] == events[..i] && events[..i + 1][i] == event;
      i := i + 1;
      var d := DTag(event);
      if d.None? { continue; }
      if groupIds != {} && d.value !in groupIds { continue; }
      match event.kind {
        case 39000 => metadata := InsertLatest(metadata, d.value, event);
        case 39001 => admins := InsertLatest(admins, d.value, event);
        case 39002 => members := InsertLatest(members, d.value, event);
        case _ =>
      }
    }
    assert events[..|events|] == events;
    var allIds := metadata.Keys + admins.Keys + members.Keys;
    if groupIds != {} {
      KeysAreWanted(events, 39000, groupIds);
      KeysAreWanted(events, 39001, groupIds);
      KeysAreWanted(events, 39002, groupIds);
      assert allIds * groupIds == allIds;
      allIds := allIds * groupIds;
    }
    return AllOf(hex, Maps(metadata, admins, members), Ascending(allIds));
  }

  lemma {:induction false} KeysAreWanted(events: seq<Event>, kind: nat, groupIds: set<string>)
    ensures forall d | d in LatestMap(events, kind, groupIds) :: Wanted(groupIds, d)
  {
    if events != [] { KeysAreWanted(events[..|events| - 1], kind, groupIds); }
  }

  // ------------------------------------------------------------------ what the maps hold

  predicate Relevant(e: Event, kind: nat, groupIds: set<string>, d: string) {
    e.kind == kind && DTag(e) == Some(d) && Wanted(groupIds, d)
  }

  /** Distinct events have distinct ids. */
  ghost predicate IdsIdentify(events: seq<Event>) { forall a, b | a in events && b in events && a.id == b.id :: a == b }

  /** Each key holds a relevant event no relevant event beats, and keys are there for all relevant events. */
  ghost predicate HoldsLatest(m: map<string, Event>, events: seq<Event>, kind: nat, groupIds: set<string>) {
    && (forall d | d in m :: m[d] in events && Relevant(m[d], kind, groupIds, d))
    && (forall e, d | e in events && Relevant(e, kind, groupIds, d) :: d in m && !Beats(e, m[d]))
  }

  lemma {:induction false} MapHoldsLatest(events: seq<Event>, kind: nat, groupIds: set<string>)
    ensures HoldsLatest(LatestMap(events, kind, groupIds), events, kind, groupIds)
  {
    if events != [] {
      var n := |events| - 1;
      var e, before := events[n], LatestMap(events[..n], kind, groupIds);
      MapHoldsLatest(events[..n], kind, groupIds);
      assert events == events[..n] + [e];
      HoldsLatestMore(before, events[..n], kind, groupIds, e);
    }
  }

  lemma HoldsLatestMore(m: map<string, Event>, events: seq<Event>, kind: nat, groupIds: set<string>, e: Event)
    requires HoldsLatest(m, events, kind, groupIds)
    ensures DTag(e).Some? && Relevant(e, kind, groupIds, DTag(e).value) ==>
              HoldsLatest(InsertLatest(m, DTag(e).value, e), events + [e], kind, groupIds)
    ensures DTag(e).None? || !Relevant(e, kind, groupIds, DTag(e).value) ==>
              HoldsLatest(m, events + [e], kind, groupIds)
  {
    hide Beats, DTag, Wanted;
    if DTag(e).Some? && Relevant(e, kind, groupIds, DTag(e).value) {
      var key := DTag(e).value;
      var next := InsertLatest(m, key, e);
      StrTotal(e.id, e.id);
      assert !Beats(e, e) by { NeverBeatsItself(e); }
      forall x, d | x in events + [e] && Relevant(x, kind, groupIds, d) ensures d in next && !Beats(x, next[d]) {
        if x in events && d == key && key in m && Beats(e, m[key]) { LaterStillWins(x, m[key], e); }
      }
    }
  }

  lemma NeverBeatsItself(e: Event)
    ensures !Beats(e, e)
  {
    StrTotal(e.id, e.id);
  }

  lemma LaterStillWins(x: Event, before: Event, e: Event)
    requires !Beats(x, before) && Beats(e, before)
    ensures !Beats(x, e)
  {
    StrTotal(x.id, e.id);
    if Beats(x, e) && x.createdAt == e.createdAt == before.createdAt { StrTrans(x.id, e.id, before.id); }
  }

  // ----------------------------------------------------------------------------- main results

  lemma LatestIsUnique(a: map<string, Event>, b: map<string, Event>, xs: seq<Event>, ys: seq<Event>, kind: nat,
                       ids: set<string>)
    requires HoldsLatest(a, xs, kind, ids) && HoldsLatest(b, ys, kind, ids) && IdsIdentify(xs)
    requires (forall e | e in ys :: e in xs) && forall d | d in a :: a[d] in ys
    ensures a == b
  {
    hide Beats, DTag;
    forall d | d in a ensures d in b && b[d] == a[d] {
      assert Relevant(a[d], kind, ids, d);
      assert Relevant(b[d], kind, ids, d);
      Unbeaten(a[d], b[d]);
    }
    forall d | d in b ensures d in a { assert Relevant(b[d], kind, ids, d); }
  }

  lemma Unbeaten(a: Event, b: Event)
    ensures !Beats(a, b) && !Beats(b, a) ==> a.id == b.id
  {
    StrTotal(a.id, b.id);
  }

  ghost predicate AllIn(m: map<string, Event>, kept: seq<Event>) { forall d | d in m :: m[d] in kept }

  /** `kept` holds every latest event of `events` and nothing else but events of it. */
  ghost predicate KeepsLatest(kept: seq<Event>, events: seq<Event>, groupIds: set<string>) {
    && (forall e | e in kept :: e in events)
    && AllIn(LatestMap(events, 39000, groupIds), kept)
    && AllIn(LatestMap(events, 39001, groupIds), kept)
    && AllIn(LatestMap(events, 39002, groupIds), kept)
  }

  /** Decoding needs only the surviving events, in any order, any number of times, with or without superseded ones. */
  lemma SurvivorsDecodeTheSame(hex: string -> Option<string>, events: seq<Event>, kept: seq<Event>,
                               groupIds: set<string>)
    requires IdsIdentify(events) && KeepsLatest(kept, events, groupIds)
    ensures Decoded(hex, kept, groupIds) == Decoded(hex, events, groupIds)
  {
    hide LatestMap, HoldsLatest, IdsIdentify;
    forall kind ensures HoldsLatest(LatestMap(events, kind, groupIds), events, kind, groupIds) {
      MapHoldsLatest(events, kind, groupIds);
    }
    forall kind ensures HoldsLatest(LatestMap(kept, kind, groupIds), kept, kind, groupIds) {
      MapHoldsLatest(kept, kind, groupIds);
    }
    var m := MapsOf(events, groupIds);
    LatestIsUnique(m.metadata, LatestMap(kept, 39000, groupIds), events, kept, 39000, groupIds);
    LatestIsUnique(m.admins, LatestMap(kept, 39001, groupIds), events, kept, 39001, groupIds);
    LatestIsUnique(m.members, LatestMap(kept, 39002, groupIds), events, kept, 39002, groupIds);
  }

  /** So the order and the multiplicity of events do not matter. */
  lemma OrderDoesNotMatter(hex: string -> Option<string>, events: seq<Event>, others: seq<Event>, groupIds: set<string>)
    requires IdsIdentify(events) && forall e :: e in events <==> e in others
    ensures Decoded(hex, others, groupIds) == Decoded(hex, events, groupIds)
  {
    MapHoldsLatest(events, 39000, groupIds);
    MapHoldsLatest(events, 39001, groupIds);
    MapHoldsLatest(events, 39002, groupIds);
    assert KeepsLatest(others, events, groupIds) by { hide LatestMap, Relevant, IdsIdentify; }
    hide Decoded, IdsIdentify;
    SurvivorsDecodeTheSame(hex, events, others, groupIds);
  }

  /** Nor does batching: each batch may be reduced to its own survivors first. */
  lemma BatchesDecodeTheSame(hex: string -> Option<string>, a: seq<Event>, b: seq<Event>, keptA: seq<Event>,
                             keptB: seq<Event>, groupIds: set<string>)
    requires IdsIdentify(a + b) && KeepsLatest(keptA, a, groupIds) && KeepsLatest(keptB, b, groupIds)
    ensures Decoded(hex, keptA + keptB, groupIds) == Decoded(hex, a + b, groupIds)
  {
    assert KeepsLatest(keptA + keptB, a + b, groupIds) by {
      hide LatestMap;
      BatchKeeps(a, b, keptA, keptB, 39000, groupIds);
      BatchKeeps(a, b, keptA, keptB, 39001, groupIds);
      BatchKeeps(a, b, keptA, keptB, 39002, groupIds);
    }
    hide Decoded, IdsIdentify, KeepsLatest;
    SurvivorsDecodeTheSame(hex, a + b, keptA + keptB, groupIds);
  }

  lemma BatchKeeps(a: seq<Event>, b: seq<Event>, keptA: seq<Event>, keptB: seq<Event>, kind: nat, groupIds: set<string>)
    requires IdsIdentify(a + b)
    requires AllIn(LatestMap(a, kind, groupIds), keptA) && AllIn(LatestMap(b, kind, groupIds), keptB)
    ensures AllIn(LatestMap(a + b, kind, groupIds), keptA + keptB)
  {
    MapHoldsLatest(a, kind, groupIds);
    MapHoldsLatest(b, kind, groupIds);
    MapHoldsLatest(a + b, kind, groupIds);
    var ma, mb, m := LatestMap(a, kind, groupIds), LatestMap(b, kind, groupIds), LatestMap(a + b, kind, groupIds);
    hide LatestMap, Beats, DTag, Wanted;
    forall d | d in m ensures m[d] in keptA + keptB {
      var e := m[d];
      if e in a {
        assert Relevant(e, kind, groupIds, d);
        assert ma[d] in a + b && Relevant(ma[d], kind, groupIds, d);
        Unbeaten(e, ma[d]);
      } else {
        assert e in b && Relevant(e, kind, groupIds, d);
        assert mb[d] in a + b && Relevant(mb[d], kind, groupIds, d);
        Unbeaten(e, mb[d]);
      }
    }
  }

  // ------------------------------------------------------------------------------- filtering

  function Filter(snapshots: seq<Snapshot>, groupIds: set<string>): seq<Snapshot> {
    if snapshots == [] then []
    else (if snapshots[0].id in groupIds then [snapshots[0]] else []) + Filter(snapshots[1..], groupIds)
  }

  lemma {:induction false} FilteredMap(events: seq<Event>, kind: nat, groupIds: set<string>)
    requires groupIds != {}
    ensures LatestMap(events, kind, groupIds)
            == map d | d in LatestMap(events, kind, {}) && d in groupIds :: LatestMap(events, kind, {})[d]
  {
    if events != [] {
      hide Beats, DTag;
      FilteredMap(events[..|events| - 1], kind, groupIds);
    }
  }

  lemma FilterSplits(hex: string -> Option<string>, all: Maps, some: Maps, x: string, ids: seq<string>,
                     groupIds: set<string>)
    ensures Filter(AllOf(hex, all, [x] + ids), groupIds)
         == (if x in groupIds then [SnapshotOf(hex, all, x)] else []) + Filter(AllOf(hex, all, ids), groupIds)
    ensures AllOf(hex, some, [x] + ids) == [SnapshotOf(hex, some, x)] + AllOf(hex, some, ids)
  {
    hide SnapshotOf;
    assert AllOf(hex, all, [x] + ids) == [SnapshotOf(hex, all, x)] + AllOf(hex, all, ids);
    assert AllOf(hex, all, [x] + ids)[1..] == AllOf(hex, all, ids);
    assert AllOf(hex, all, [x] + ids)[0].id == x by {
      assert SnapshotOf(hex, all, x).id == x by { SnapshotId(hex, all, x); }
    }
  }

  lemma SnapshotId(hex: string -> Option<string>, m: Maps, x: string)
    ensures SnapshotOf(hex, m, x).id == x
  {
  }

  lemma {:induction false} FilterAscending(hex: string -> Option<string>, all: Maps, some: Maps, ids: set<string>,
                                           groupIds: set<string>)
    requires forall d | d in groupIds :: SnapshotOf(hex, all, d) == SnapshotOf(hex, some, d)
    ensures Filter(AllOf(hex, all, Ascending(ids)), groupIds) == AllOf(hex, some, Ascending(ids * groupIds))
    decreases |ids|
  {
    hide SnapshotOf, Filter, AllOf, Ascending;
    if ids == {} {
      assert ids * groupIds == {};
      NoneFiltered(hex, all, some, groupIds);
    } else {
      LeastUnique(ids);
      var x :| IsLeast(x, ids);
      var rest := ids - {x};
      AscendingFrom(ids, x);
      FilterAscending(hex, all, some, rest, groupIds);
      FilterSplits(hex, all, some, x, Ascending(rest), groupIds);
      if x in groupIds {
        AscendingFrom(ids * groupIds, x);
        assert ids * groupIds - {x} == rest * groupIds;
        FilterSplits(hex, all, some, x, Ascending(rest * groupIds), groupIds);
      } else {
        assert ids * groupIds == rest * groupIds;
      }
    }
  }

  lemma NoneFiltered(hex: string -> Option<string>, all: Maps, some: Maps, groupIds: set<string>)
    ensures Filter(AllOf(hex, all, Ascending({})), groupIds) == AllOf(hex, some, Ascending({})) == []
  {
  }

  lemma AscendingFrom(s: set<string>, x: string)
    requires IsLeast(x, s)
    ensures Ascending(s) == [x] + Ascending(s - {x})
  {
    LeastUnique(s);
  }

  /** Asking for some groups is the same as decoding everything and keeping those. */
  lemma FilterCommutes(hex: string -> Option<string>, events: seq<Event>, groupIds: set<string>)
    requires groupIds != {}
    ensures Decoded(hex, events, groupIds) == Filter(Decoded(hex, events, {}), groupIds)
  {
    FilteredMap(events, 39000, groupIds);
    FilteredMap(events, 39001, groupIds);
    FilteredMap(events, 39002, groupIds);
    var all, some := MapsOf(events, {}), MapsOf(events, groupIds);
    hide LatestMap, Ascending;
    assert IdsOf(some) == IdsOf(all) * groupIds;
    forall d | d in groupIds ensures SnapshotOf(hex, all, d) == SnapshotOf(hex, some, d) {
      assert Get(all.metadata, d) == Get(some.metadata, d) && Get(all.admins, d) == Get(some.admins, d)
          && Get(all.members, d) == Get(some.members, d);
    }
    FilterAscending(hex, all, some, IdsOf(all), groupIds);
  }
}
