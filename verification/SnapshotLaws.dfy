/** What a decoded snapshot holds (`src/group_snapshot.rs`), stated over the events and their tags alone. */
module SnapshotLaws {
  import opened Order
  import opened Snapshots

  /** `v` is the value of the first tag of this name that has a value. */
  ghost predicate FirstValue(tags: seq<seq<string>>, name: string, v: Option<string>) {
    match v
    case None => forall i | 0 <= i < |tags| :: !HasValue(tags[i], name)
    case Some(x) => exists i :: 0 <= i < |tags| && HasValue(tags[i], name) && tags[i][1] == x
                                && forall j | 0 <= j < i :: !HasValue(tags[j], name)
  }

  predicate HasValue(tag: seq<string>, name: string) { |tag| >= 2 && tag[0] == name }

  /** The tags that name someone: "p" tags with a key that parses. */
  predicate NamesSomeone(hex: string -> Option<string>, tag: seq<string>) { HasValue(tag, "p") && hex(tag[1]).Some? }

  /** How many of the tags name someone. */
  function Naming(hex: string -> Option<string>, tags: seq<seq<string>>): nat {
    if tags == [] then 0 else (if NamesSomeone(hex, tags[0]) then 1 else 0) + Naming(hex, tags[1..])
  }

  /** One subject for each tag that names someone, in the order of the tags. */
  ghost predicate Lists(hex: string -> Option<string>, tags: seq<seq<string>>, roles: bool, subjects: seq<Subject>) {
    && |subjects| == Naming(hex, tags)
    && forall n | 0 <= n < |tags| && NamesSomeone(hex, tags[n]) ::
         var k := Naming(hex, tags[..n]);
         k < |subjects| && subjects[k] == Subject(hex(tags[n][1]).value, if roles then tags[n][2..] else [])
  }

  /** An event of this kind about the group. */
  ghost predicate About(e: Event, kind: nat, group: string) { e.kind == kind && FirstValue(e.tags, "d", Some(group)) }

  /** The latest of them: the newest, and among equally new ones one with the lowest id. */
  ghost predicate IsLatest(events: seq<Event>, kind: nat, group: string, e: Event) {
    && e in events && About(e, kind, group)
    && forall x | x in events && About(x, kind, group) ::
         x.createdAt < e.createdAt || (x.createdAt == e.createdAt && StrLe(e.id, x.id))
  }

  ghost predicate NoneAbout(events: seq<Event>, kind: nat, group: string) {
    forall e | e in events :: !About(e, kind, group)
  }

  ghost predicate MetadataFrom(events: seq<Event>, group: string, metadata: Option<Metadata>) {
    match metadata
    case None => NoneAbout(events, 39000, group)
    case Some(m) =>
      exists e :: IsLatest(events, 39000, group, e) && FirstValue(e.tags, "name", m.name)
                  && FirstValue(e.tags, "about", m.about) && m.tags == e.tags && m.asOf == e.createdAt
  }

  ghost predicate SubjectsFrom(hex: string -> Option<string>, events: seq<Event>, kind: nat, group: string, roles: bool,
                               subjects: seq<Subject>)
  {
    || (NoneAbout(events, kind, group) && subjects == [])
    || (exists e :: IsLatest(events, kind, group, e) && Lists(hex, e.tags, roles, subjects))
  }

  /** Metadata of the latest event of kind 39000, admins with roles of the latest of kind 39001, members without roles
      of the latest of kind 39002; a missing kind gives none. */
  ghost predicate Describes(hex: string -> Option<string>, events: seq<Event>, s: Snapshot) {
    && MetadataFrom(events, s.id, s.metadata)
    && SubjectsFrom(hex, events, 39001, s.id, true, s.admins)
    && SubjectsFrom(hex, events, 39002, s.id, false, s.members)
  }

  ghost predicate Mentioned(events: seq<Event>, group: string) {
    exists e :: e in events && (About(e, 39000, group) || About(e, 39001, group) || About(e, 39002, group))
  }

  // -------------------------------------------------------------------------------- the proof

  lemma {:induction false} TagValueIsFirst(tags: seq<seq<string>>, name: string)
    ensures FirstValue(tags, name, TagValue(tags, name))
  {
    if tags != [] {
      var rest := tags[1..];
      TagValueIsFirst(rest, name);
      assert forall i | 0 <= i < |rest| :: tags[i + 1] == rest[i];
      if !HasValue(tags[0], name) && TagValue(rest, name).Some? {
        var i :| 0 <= i < |rest| && HasValue(rest[i], name) && rest[i][1] == TagValue(rest, name).value
                 && forall j | 0 <= j < i :: !HasValue(rest[j], name);
        assert HasValue(tags[i + 1], name) && forall j | 0 < j < i + 1 :: tags[j] == rest[j - 1];
      }
    }
  }

  lemma FirstIsUnique(tags: seq<seq<string>>, name: string, v: Option<string>, w: Option<string>)
    requires FirstValue(tags, name, v) && FirstValue(tags, name, w)
    ensures v == w
  {
  }

  lemma AboutIs(e: Event, kind: nat, group: string)
    ensures About(e, kind, group) <==> e.kind == kind && DTag(e) == Some(group)
  {
    TagValueIsFirst(e.tags, "d");
    if About(e, kind, group) { FirstIsUnique(e.tags, "d", DTag(e), Some(group)); }
  }

  lemma {:induction false} SubjectsAreListed(hex: string -> Option<string>, tags: seq<seq<string>>, roles: bool)
    ensures Lists(hex, tags, roles, Subjects(hex, tags, roles))
  {
    if tags != [] {
      var tag, rest := tags[0], tags[1..];
      SubjectsAreListed(hex, rest, roles);
      var subjects, later := Subjects(hex, tags, roles), Subjects(hex, rest, roles);
      var first := if NamesSomeone(hex, tag) then [Subject(hex(tag[1]).value, if roles then tag[2..] else [])] else [];
      assert subjects == first + later;
      hide Subjects;
      forall n | 0 <= n < |tags| && NamesSomeone(hex, tags[n])
        ensures var k := Naming(hex, tags[..n]);
                k < |subjects| && subjects[k] == Subject(hex(tags[n][1]).value, if roles then tags[n][2..] else [])
      {
        if n > 0 {
          assert tags[n] == rest[n - 1] && tags[..n][0] == tag && tags[..n][1..] == rest[..n - 1];
          assert Naming(hex, tags[..n]) == |first| + Naming(hex, rest[..n - 1]);
        }
      }
    }
  }

  lemma LatestIs(events: seq<Event>, kind: nat, groupIds: set<string>, d: string)
    requires Wanted(groupIds, d)
    ensures var m := LatestMap(events, kind, groupIds);
            if d in m then IsLatest(events, kind, d, m[d]) else NoneAbout(events, kind, d)
  {
    MapHoldsLatest(events, kind, groupIds);
    var m := LatestMap(events, kind, groupIds);
    hide LatestMap, About, DTag;
    forall e | e in events ensures About(e, kind, d) <==> Relevant(e, kind, groupIds, d) { AboutIs(e, kind, d); }
    if d in m {
      forall x | x in events && About(x, kind, d)
        ensures x.createdAt < m[d].createdAt || (x.createdAt == m[d].createdAt && StrLe(m[d].id, x.id))
      {
        StrTotal(x.id, m[d].id);
      }
    }
  }

  lemma SnapshotDescribes(hex: string -> Option<string>, events: seq<Event>, groupIds: set<string>, d: string)
    requires Wanted(groupIds, d)
    ensures Describes(hex, events, SnapshotOf(hex, MapsOf(events, groupIds), d))
  {
    var m := MapsOf(events, groupIds);
    LatestIs(events, 39000, groupIds, d);
    LatestIs(events, 39001, groupIds, d);
    LatestIs(events, 39002, groupIds, d);
    hide LatestMap, IsLatest, NoneAbout, FirstValue, Lists, Subjects, Wanted;
    if d in m.metadata {
      TagValueIsFirst(m.metadata[d].tags, "name");
      TagValueIsFirst(m.metadata[d].tags, "about");
    }
    if d in m.admins { SubjectsAreListed(hex, m.admins[d].tags, true); }
    if d in m.members { SubjectsAreListed(hex, m.members[d].tags, false); }
  }

  lemma MentionedIs(events: seq<Event>, groupIds: set<string>, d: string)
    requires Wanted(groupIds, d)
    ensures Mentioned(events, d) <==> d in IdsOf(MapsOf(events, groupIds))
  {
    LatestIs(events, 39000, groupIds, d);
    LatestIs(events, 39001, groupIds, d);
    LatestIs(events, 39002, groupIds, d);
    hide LatestMap, About, Wanted;
  }

  /** `AllOf` at every id. */
  lemma EachDescribes(hex: string -> Option<string>, events: seq<Event>, groupIds: set<string>, ids: seq<string>)
    requires forall d | d in ids :: Wanted(groupIds, d)
    ensures var r := AllOf(hex, MapsOf(events, groupIds), ids);
            |r| == |ids| && forall i | 0 <= i < |ids| :: r[i].id == ids[i] && Describes(hex, events, r[i])
  {
    hide MapsOf, Describes, Wanted;
    forall i | 0 <= i < |ids|
      ensures var s := SnapshotOf(hex, MapsOf(events, groupIds), ids[i]); s.id == ids[i] && Describes(hex, events, s)
    {
      assert ids[i] in ids;
      SnapshotDescribes(hex, events, groupIds, ids[i]);
    }
  }

  lemma IdsAre(events: seq<Event>, groupIds: set<string>, d: string)
    ensures d in IdsOf(MapsOf(events, groupIds)) <==> Wanted(groupIds, d) && Mentioned(events, d)
  {
    KeysAreWanted(events, 39000, groupIds);
    KeysAreWanted(events, 39001, groupIds);
    KeysAreWanted(events, 39002, groupIds);
    hide LatestMap, Mentioned;
    if Wanted(groupIds, d) { MentionedIs(events, groupIds, d); }
  }

  /** Decoding gives one snapshot, in id order, for each wanted group some record mentions, and each snapshot is what
      the latest records of its group say. */
  lemma DecodedExactly(hex: string -> Option<string>, events: seq<Event>, groupIds: set<string>)
    ensures var r := Decoded(hex, events, groupIds);
            && (forall i, j | 0 <= i < j < |r| :: StrLt(r[i].id, r[j].id))
            && (forall d :: (exists s :: s in r && s.id == d) <==> Wanted(groupIds, d) && Mentioned(events, d))
            && (forall s | s in r :: Describes(hex, events, s))
  {
    var all, r := IdsOf(MapsOf(events, groupIds)), Decoded(hex, events, groupIds);
    var ids := Ascending(all);
    AscendingSorted(all);
    hide MapsOf, Ascending, Describes, Mentioned, IdsOf, StrLt, Wanted, AllOf;
    forall d ensures d in ids <==> Wanted(groupIds, d) && Mentioned(events, d) { IdsAre(events, groupIds, d); }
    EachDescribes(hex, events, groupIds, ids);
    forall d ensures (exists s :: s in r && s.id == d) <==> d in ids {
      if d in ids {
        var i :| 0 <= i < |ids| && ids[i] == d;
        assert r[i] in r && r[i].id == d;
      }
    }
  }
}
