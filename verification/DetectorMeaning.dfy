/** Exactly when `detect_root_conversation` (`src/channel_nudge.rs`) sees a conversation, and what it reports, stated
    over the messages, reactions and participants themselves. */
module DetectorMeaning {
  import opened Order
  import opened Nudge
  import opened NudgeDetector
  import opened DetectorLaws

  /** The keys of live participants. */
  function LiveKeys(participants: seq<Participant>): set<string> { set p | p in participants && p.live :: p.pubkey }

  /** `w` is the substantive messages of live authors, oldest first, ids breaking ties. */
  ghost predicate Counted(messages: seq<Message>, live: set<string>, w: seq<Message>) {
    && (forall m :: multiset(w)[m] == if m.substantive && m.author in live then multiset(messages)[m] else 0)
    && forall i, j | 0 <= i < j < |w| ::
         w[i].createdAt < w[j].createdAt || (w[i].createdAt == w[j].createdAt && StrLe(w[i].id, w[j].id))
  }

  /** `a` wrote at least two of the messages. */
  ghost predicate WroteTwo(w: seq<Message>, a: string) {
    exists i, j :: 0 <= i < j < |w| && w[i].author == a && w[j].author == a
  }

  predicate Turn(w: seq<Message>, i: nat) { 0 < i < |w| && w[i - 1].author != w[i].author }

  /** Where the author changes. */
  function Turns(w: seq<Message>): set<nat> { set i: nat | i < |w| && Turn(w, i) }

  /** The live keys that wrote one of the messages or reacted to one. */
  ghost function Involved(w: seq<Message>, reactions: seq<Reaction>, live: set<string>): set<string> {
    set k | k in live && (|| (exists m :: m in w && m.author == k)
                          || (exists r, m :: r in reactions && m in w && r.reactor == k && r.target == m.id))
  }

  ghost predicate Conversation(w: seq<Message>, engaged: nat, audience: nat) {
    && (exists a, b :: a != b && WroteTwo(w, a) && WroteTwo(w, b))
    && |w| >= (if audience >= engaged + 3 && 2 * engaged <= audience then 4 else 6)
    && |Turns(w)| >= 3
    && (|w| >= 8 || w[|w| - 1].createdAt - w[0].createdAt >= 20)
  }

  /** The last participant listed with this key that is live. */
  ghost predicate LastLive(participants: seq<Participant>, p: Participant) {
    exists i :: 0 <= i < |participants| && participants[i] == p && p.live
                && forall j | i < j < |participants| && participants[j].live :: participants[j].pubkey != p.pubkey
  }

  /** In strictly ascending order. */
  ghost predicate Strict(keys: seq<string>) { forall i, j | 0 <= i < j < |keys| :: StrLt(keys[i], keys[j]) }

  function KeysOf(ps: seq<Participant>): seq<string> { seq(|ps|, i requires 0 <= i < |ps| => ps[i].pubkey) }

  ghost predicate Reports(e: Evidence, parent: string, w: seq<Message>, engaged: nat, participants: seq<Participant>) {
    && e.parent == parent && e.messageCount == |w| && e.alternations == |Turns(w)|
    && e.engagedCount == engaged && e.audienceCount == |LiveKeys(participants)|
    && w != [] && e.startedAt == w[0].createdAt && e.endedAt == w[|w| - 1].createdAt && e.lastMessageId == w[|w| - 1].id
    && Strict(KeysOf(e.cohort)) && Strict(e.busyPubkeys)
    && (forall p :: p in e.cohort <==> LastLive(participants, p) && exists m :: m in w && m.author == p.pubkey)
    && (forall k :: k in e.busyPubkeys <==> exists p :: p in e.cohort && p.busy && p.pubkey == k)
  }

  // -------------------------------------------------------------------------------- the proof

  lemma LiveKeysAre(participants: seq<Participant>)
    ensures LiveOf(participants).Keys == LiveKeys(participants)
  {
    forall k ensures k in LiveOf(participants) <==> k in LiveKeys(participants) { LiveExactly(participants, k); }
  }

  lemma LastLiveMore(rest: seq<Participant>, q: Participant, p: Participant)
    ensures q.live ==> LastLive(rest + [q], q)
    ensures LastLive(rest, p) && !(q.live && q.pubkey == p.pubkey) ==> LastLive(rest + [q], p)
  {
    var all := rest + [q];
    assert all[|rest|] == q;
    if LastLive(rest, p) {
      var i :| 0 <= i < |rest| && rest[i] == p && p.live
               && forall j | i < j < |rest| && rest[j].live :: rest[j].pubkey != p.pubkey;
      assert all[i] == p && forall j | i < j < |rest| :: all[j] == rest[j];
    }
  }

  lemma {:induction false} LiveIsLast(participants: seq<Participant>, k: string)
    ensures var live := LiveOf(participants);
            k in live ==> LastLive(participants, live[k]) && live[k].pubkey == k
  {
    if participants != [] {
      var n := |participants| - 1;
      var rest, q := participants[..n], participants[n];
      hide LastLive;
      LiveIsLast(rest, k);
      assert participants == rest + [q];
      LastLiveMore(rest, q, if k in LiveOf(rest) then LiveOf(rest)[k] else q);
    }
  }

  lemma LastLiveIs(participants: seq<Participant>, p: Participant)
    ensures LastLive(participants, p) <==> p.pubkey in LiveOf(participants) && LiveOf(participants)[p.pubkey] == p
  {
    var live := LiveOf(participants);
    LiveIsLast(participants, p.pubkey);
    LiveExactly(participants, p.pubkey);
    hide LiveOf;
    if LastLive(participants, p) {
      assert p in participants;
      var q := live[p.pubkey];
      var i :| 0 <= i < |participants| && participants[i] == p && p.live
               && forall j | i < j < |participants| && participants[j].live :: participants[j].pubkey != p.pubkey;
      var j :| 0 <= j < |participants| && participants[j] == q && q.live
               && forall k | j < k < |participants| && participants[k].live :: participants[k].pubkey != q.pubkey;
      assert i == j;
    }
  }

  lemma RelevantIsCounted(messages: seq<Message>, live: set<string>)
    ensures Counted(messages, live, Relevant(messages, live))
  {
    MessageOrder();
    SortSorted(Kept(messages, live), MessageLe);
    forall m
      ensures multiset(Kept(messages, live))[m]
              == if m.substantive && m.author in live then multiset(messages)[m] else 0
    {
      KeptCount(messages, live, m);
    }
  }

  lemma {:induction false} CountTwo(w: seq<Message>, a: string)
    ensures CountOf(w, a) >= 1 <==> exists i :: 0 <= i < |w| && w[i].author == a
    ensures CountOf(w, a) >= 2 <==> WroteTwo(w, a)
  {
    if w != [] {
      var n := |w| - 1;
      var rest := w[..n];
      CountTwo(rest, a);
      assert forall i | 0 <= i < n :: rest[i] == w[i];
      if w[n].author == a && CountOf(rest, a) >= 1 {
        var i :| 0 <= i < n && rest[i].author == a;
        assert w[i].author == a && w[n].author == a;
      }
      if WroteTwo(rest, a) {
        var i, j :| 0 <= i < j < n && rest[i].author == a && rest[j].author == a;
        assert w[i].author == a && w[j].author == a;
      }
      if WroteTwo(w, a) {
        var i, j :| 0 <= i < j < |w| && w[i].author == a && w[j].author == a;
        assert rest[i].author == a;
      }
    }
  }

  lemma TwoOf(s: set<string>)
    ensures |s| >= 2 <==> exists a, b :: a != b && a in s && b in s
  {
    if |s| >= 2 {
      var a :| a in s;
      assert |s - {a}| >= 1;
      var b :| b in s - {a};
    }
    if a, b :| a != b && a in s && b in s {
      SubsetSize({a, b}, s);
    }
  }

  lemma TalkersWroteTwo(w: seq<Message>)
    ensures |Authors(w)| >= 2 && |Talkers(w)| >= 2 <==> exists a, b :: a != b && WroteTwo(w, a) && WroteTwo(w, b)
  {
    forall a ensures a in Talkers(w) <==> WroteTwo(w, a) {
      CountTwo(w, a);
      if WroteTwo(w, a) {
        var i, j :| 0 <= i < j < |w| && w[i].author == a && w[j].author == a;
        assert w[i] in w;
      }
    }
    TwoOf(Talkers(w));
    SubsetSize(Talkers(w), Authors(w));
    hide WroteTwo, CountOf, Authors;
  }

  lemma TurnsMore(rest: seq<Message>, m: Message)
    requires rest != []
    ensures |Turns(rest + [m])| == |Turns(rest)| + if rest[|rest| - 1].author != m.author then 1 else 0
  {
    var all, n := rest + [m], |rest|;
    assert forall i: nat | i < n :: Turn(rest, i) <==> Turn(all, i);
    assert n !in Turns(rest);
    assert Turn(all, n) <==> rest[n - 1].author != m.author;
    hide Turn;
    if Turn(all, n) { assert Turns(all) == Turns(rest) + {n}; } else { assert Turns(all) == Turns(rest); }
  }

  lemma {:induction false} TurnsAre(w: seq<Message>)
    ensures Alternations(w) == |Turns(w)|
  {
    if |w| < 2 {
      assert Turns(w) == {};
    } else {
      var n := |w| - 1;
      var rest, m := w[..n], w[n];
      assert w == rest + [m];
      hide Turns;
      TurnsAre(rest);
      TurnsMore(rest, m);
    }
  }

  lemma InvolvedAre(w: seq<Message>, reactions: seq<Reaction>, live: set<string>)
    requires Authors(w) <= live
    ensures Engaged(w, reactions, live) == Involved(w, reactions, live)
  {
    forall k ensures k in Engaged(w, reactions, live) <==> k in Involved(w, reactions, live) {
      if k in Engaged(w, reactions, live) && k !in Authors(w) {
        var r :| r in reactions && r.reactor in live && r.target in Ids(w) && r.reactor == k;
        var m :| m in w && m.id == r.target;
      }
    }
  }

  lemma CohortIs(w: seq<Message>, participants: seq<Participant>)
    requires Authors(w) <= LiveOf(participants).Keys
    ensures var cohort := Cohort(w, LiveOf(participants));
            && Strict(KeysOf(cohort))
            && (forall p :: p in cohort <==> LastLive(participants, p) && exists m :: m in w && m.author == p.pubkey)
  {
    var live, authors := LiveOf(participants), Ascending(Authors(w));
    var cohort := Cohort(w, live);
    AscendingSorted(Authors(w));
    forall i | 0 <= i < |authors| ensures cohort[i].pubkey == authors[i] && LastLive(participants, cohort[i]) {
      assert authors[i] in authors;
      LiveIsLast(participants, authors[i]);
    }
    assert KeysOf(cohort) == authors;
    hide LiveOf, StrLt, LastLive;
    forall p ensures p in cohort <==> LastLive(participants, p) && p.pubkey in Authors(w) {
      LastLiveIs(participants, p);
      if p in cohort {
        var i :| 0 <= i < |cohort| && cohort[i] == p;
        assert authors[i] in authors;
      }
      if LastLive(participants, p) && p.pubkey in Authors(w) {
        var i :| 0 <= i < |authors| && authors[i] == p.pubkey;
        assert cohort[i] == p;
      }
    }
  }

  lemma StrictMore(keys: seq<string>, k: string)
    requires Strict(keys) && forall i | 0 <= i < |keys| :: StrLt(keys[i], k)
    ensures Strict(keys + [k])
  {
    hide StrLt;
  }

  lemma {:induction false} BusyInOrder(cohort: seq<Participant>)
    requires Strict(KeysOf(cohort))
    ensures Strict(BusyKeys(cohort))
  {
    if cohort != [] {
      var n := |cohort| - 1;
      var rest, k := cohort[..n], cohort[n].pubkey;
      assert KeysOf(rest) == KeysOf(cohort)[..n] && KeysOf(cohort)[n] == k;
      hide StrLt;
      assert Strict(KeysOf(rest));
      BusyInOrder(rest);
      var before := BusyKeys(rest);
      forall i | 0 <= i < |before| ensures StrLt(before[i], k) {
        assert before[i] in before;
        BusyAre(rest, before[i]);
        var p :| p in rest && p.pubkey == before[i];
        var j :| 0 <= j < n && rest[j] == p;
        assert KeysOf(cohort)[j] == p.pubkey;
      }
      hide Strict, KeysOf;
      if cohort[n].busy { StrictMore(before, k); }
    }
  }

  lemma LivelyIs(w: seq<Message>, engaged: nat, audience: nat)
    requires w != [] ==> w[0].createdAt <= w[|w| - 1].createdAt
    ensures Lively(w, engaged, audience) ==> w != []
    ensures Lively(w, engaged, audience) <==> Conversation(w, engaged, audience)
  {
    TalkersWroteTwo(w);
    TurnsAre(w);
    hide Talkers, Authors, Turns, Alternations, WroteTwo;
  }

  /** A conversation is detected exactly when the channel is a root and the substantive messages of live authors, in
      time order, have two authors with two messages each, enough of them (four where few of the audience take part,
      else six), three changes of author, and a span of 20 seconds or eight messages; and this is what is reported. */
  lemma DetectedExactly(parent: string, isRoot: bool, messages: seq<Message>, reactions: seq<Reaction>,
                        participants: seq<Participant>) returns (w: seq<Message>)
    ensures Counted(messages, LiveKeys(participants), w)
    ensures var live, r := LiveKeys(participants), Detected(parent, isRoot, messages, reactions, participants);
            var engaged := |Involved(w, reactions, live)|;
            && (r.Some? <==> isRoot && Conversation(w, engaged, |live|))
            && (r.Some? ==> Reports(r.value, parent, w, engaged, participants))
  {
    var live := LiveOf(participants);
    w := Relevant(messages, live.Keys);
    LiveKeysAre(participants);
    RelevantIsCounted(messages, live.Keys);
    AuthorsAreLive(messages, live.Keys);
    SpanIsOrdered(messages, live.Keys);
    EngagedBounds(w, reactions, live);
    InvolvedAre(w, reactions, live.Keys);
    assert |live| == |live.Keys|;
    CohortSize(w, live);
    LivelyIs(w, |Engaged(w, reactions, live.Keys)|, |live|);
    hide Lively, Conversation, Reports, LiveOf, Relevant, Involved, LiveKeys, Counted, Engaged, Authors, EvidenceOf;
    if Detected(parent, isRoot, messages, reactions, participants).Some? {
      EvidenceReports(parent, w, |Engaged(w, reactions, live.Keys)|, participants);
    }
  }

  lemma EvidenceReports(parent: string, w: seq<Message>, engaged: nat, participants: seq<Participant>)
    requires w != [] && Authors(w) <= LiveOf(participants).Keys
    requires |Authors(w)| <= engaged <= |LiveOf(participants)|
    ensures Reports(EvidenceOf(parent, w, engaged, LiveOf(participants)), parent, w, engaged, participants)
  {
    var live := LiveOf(participants);
    var cohort := Cohort(w, live);
    LiveKeysAre(participants);
    assert |live| == |live.Keys|;
    CohortSize(w, live);
    CohortIs(w, participants);
    TurnsAre(w);
    BusyInOrder(cohort);
    BusyAll(cohort);
    hide StrLt, LiveOf, Authors, Cohort, LastLive, Turns, Alternations, BusyKeys, LiveKeys, Strict, KeysOf;
  }

  lemma BusyAll(cohort: seq<Participant>)
    ensures forall k :: k in BusyKeys(cohort) <==> exists p :: p in cohort && p.busy && p.pubkey == k
  {
    forall k ensures k in BusyKeys(cohort) <==> exists p :: p in cohort && p.busy && p.pubkey == k {
      BusyAre(cohort, k);
    }
  }
}
