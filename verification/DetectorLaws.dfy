/** What a detection depends on, what it always contains, and what one more reaction can do to it. */
module DetectorLaws {
  import opened Order
  import opened Nudge
  import opened NudgeDetector

  // ---------------------------------------------------------------------------- order is irrelevant

  ghost predicate KeysIdentify(ps: seq<Participant>) {
    forall p, q | p in ps && q in ps && p.pubkey == q.pubkey :: p == q
  }

  ghost predicate IdsIdentify(ms: seq<Message>) { forall m, n | m in ms && n in ms && m.id == n.id :: m == n }

  lemma {:induction false} LiveExactly(ps: seq<Participant>, k: string)
    ensures k in LiveOf(ps) <==> exists p | p in ps :: p.live && p.pubkey == k
    ensures k in LiveOf(ps) ==> LiveOf(ps)[k] in ps && LiveOf(ps)[k].live && LiveOf(ps)[k].pubkey == k
  {
    if ps != [] {
      var n := |ps| - 1;
      LiveExactly(ps[..n], k);
      assert ps == ps[..n] + [ps[n]];
    }
  }

  lemma SameLive(a: seq<Participant>, b: seq<Participant>)
    requires KeysIdentify(a) && forall p :: p in a <==> p in b
    ensures LiveOf(a) == LiveOf(b)
  {
    forall k ensures (k in LiveOf(a) <==> k in LiveOf(b)) && (k in LiveOf(a) ==> LiveOf(a)[k] == LiveOf(b)[k]) {
      LiveExactly(a, k);
      LiveExactly(b, k);
    }
  }

  lemma {:induction false} KeptCount(ms: seq<Message>, live: set<string>, m: Message)
    ensures multiset(Kept(ms, live))[m] == if m.substantive && m.author in live then multiset(ms)[m] else 0
  {
    if ms != [] {
      KeptCount(ms[1..], live, m);
      assert ms == [ms[0]] + ms[1..];
    }
  }

  lemma SameRelevant(a: seq<Message>, b: seq<Message>, live: set<string>)
    requires IdsIdentify(a) && multiset(a) == multiset(b)
    ensures Relevant(a, live) == Relevant(b, live)
  {
    forall m ensures multiset(Kept(a, live))[m] == multiset(Kept(b, live))[m] {
      KeptCount(a, live, m);
      KeptCount(b, live, m);
    }
    assert multiset(Kept(a, live)) == multiset(Kept(b, live));
    var x, y := Relevant(a, live), Relevant(b, live);
    MessageOrder();
    SortSorted(Kept(a, live), MessageLe);
    SortSorted(Kept(b, live), MessageLe);
    assert multiset(x) == multiset(y);
    MultisetMembers(Kept(a, live), x);
    KeptAreLive(a, live);
    StrLeIsTotal();
    hide Sort, Kept, Relevant, StrLt;
    assert forall m, n | m in x && n in x && MessageLe(m, n) && MessageLe(n, m) :: m == n;
    SortedUnique(x, y, MessageLe);
  }

  /** Messages, reactions and participants may come in any order. */
  lemma OrderIsIrrelevant(parent: string, isRoot: bool, m1: seq<Message>, m2: seq<Message>, r1: seq<Reaction>,
                          r2: seq<Reaction>, p1: seq<Participant>, p2: seq<Participant>)
    requires IdsIdentify(m1) && KeysIdentify(p1)
    requires multiset(m1) == multiset(m2) && (forall r :: r in r1 <==> r in r2) && (forall p :: p in p1 <==> p in p2)
    ensures Detected(parent, isRoot, m1, r1, p1) == Detected(parent, isRoot, m2, r2, p2)
  {
    SameLive(p1, p2);
    var live := LiveOf(p1);
    SameRelevant(m1, m2, live.Keys);
    hide LiveOf, Relevant;
    var relevant := Relevant(m1, live.Keys);
    assert Engaged(relevant, r1, live.Keys) == Engaged(relevant, r2, live.Keys);
    hide Engaged, Lively, EvidenceOf;
  }

  // --------------------------------------------------------------------------- what evidence contains

  lemma {:induction false} AlternationsFew(ms: seq<Message>)
    requires ms != []
    ensures Alternations(ms) < |ms|
  {
    if |ms| > 1 { AlternationsFew(ms[..|ms| - 1]); }
  }

  lemma {:induction false} BusyAre(cohort: seq<Participant>, k: string)
    ensures k in BusyKeys(cohort) <==> exists p | p in cohort :: p.busy && p.pubkey == k
    ensures |BusyKeys(cohort)| <= |cohort|
  {
    if cohort != [] {
      var n := |cohort| - 1;
      BusyAre(cohort[..n], k);
      assert cohort == cohort[..n] + [cohort[n]];
    }
  }

  lemma EngagedBounds(relevant: seq<Message>, reactions: seq<Reaction>, live: map<string, Participant>)
    requires Authors(relevant) <= live.Keys
    ensures |Authors(relevant)| <= |Engaged(relevant, reactions, live.Keys)| <= |live|
  {
    SubsetSize(Authors(relevant), Engaged(relevant, reactions, live.Keys));
    SubsetSize(Engaged(relevant, reactions, live.Keys), live.Keys);
    assert |live| == |live.Keys|;
  }

  /** A detection has at least two in its cohort, no more than engaged, no more than the audience; its busy keys are
      exactly the cohort's busy members; authors alternate at least three times and fewer times than there are
      messages. */
  lemma EvidenceIsBounded(parent: string, isRoot: bool, messages: seq<Message>, reactions: seq<Reaction>,
                          participants: seq<Participant>)
    requires Detected(parent, isRoot, messages, reactions, participants).Some?
    ensures var e := Detected(parent, isRoot, messages, reactions, participants).value;
            && 2 <= |e.cohort| <= e.engagedCount <= e.audienceCount
            && |e.busyPubkeys| <= |e.cohort|
            && (forall k :: k in e.busyPubkeys <==> exists p | p in e.cohort :: p.busy && p.pubkey == k)
            && 3 <= e.alternations < e.messageCount
            && e.messageCount >= 4
            && e.startedAt <= e.endedAt
  {
    var live := LiveOf(participants);
    var relevant := Relevant(messages, live.Keys);
    AuthorsAreLive(messages, live.Keys);
    SpanIsOrdered(messages, live.Keys);
    EngagedBounds(relevant, reactions, live);
    var cohort := Cohort(relevant, live);
    hide LiveOf, Relevant, Engaged, Talkers, BusyKeys, Cohort, Alternations;
    CohortSize(relevant, live);
    AlternationsFew(relevant);
    forall k ensures k in BusyKeys(cohort) <==> exists p | p in cohort :: p.busy && p.pubkey == k {
      BusyAre(cohort, k);
    }
    BusyAre(cohort, "");
  }

  // -------------------------------------------------------------------------------- one more reaction

  lemma EngagedGrows(relevant: seq<Message>, reactions: seq<Reaction>, more: seq<Reaction>, live: set<string>)
    requires forall r | r in reactions :: r in more
    ensures |Engaged(relevant, reactions, live)| <= |Engaged(relevant, more, live)|
  {
    SubsetSize(Engaged(relevant, reactions, live), Engaged(relevant, more, live));
  }

  /** How many engaged there are with these reactions, and the audience. */
  function EngagedCount(messages: seq<Message>, reactions: seq<Reaction>, participants: seq<Participant>): nat {
    var live := LiveOf(participants);
    |Engaged(Relevant(messages, live.Keys), reactions, live.Keys)|
  }

  /** The detection as it depends on how many are engaged. */
  ghost function Decided(parent: string, isRoot: bool, relevant: seq<Message>, engaged: nat,
                         live: map<string, Participant>): Option<Evidence>
    requires Authors(relevant) <= live.Keys
  {
    if !isRoot || !Lively(relevant, engaged, |live|) then None else Some(EvidenceOf(parent, relevant, engaged, live))
  }

  lemma DetectedIs(parent: string, isRoot: bool, messages: seq<Message>, reactions: seq<Reaction>,
                   participants: seq<Participant>)
    ensures var live := LiveOf(participants);
            var relevant := Relevant(messages, live.Keys);
            && Authors(relevant) <= live.Keys
            && Detected(parent, isRoot, messages, reactions, participants)
               == Decided(parent, isRoot, relevant, EngagedCount(messages, reactions, participants), live)
  {
    var live := LiveOf(participants);
    AuthorsAreLive(messages, live.Keys);
    EngagedBounds(Relevant(messages, live.Keys), reactions, live);
    hide LiveOf, Relevant, Engaged, Authors, Lively, EvidenceOf;
  }

  lemma MoreEngaged(parent: string, isRoot: bool, relevant: seq<Message>, few: nat, many: nat,
                    live: map<string, Participant>)
    requires Authors(relevant) <= live.Keys && |Authors(relevant)| <= few <= many <= |live|
    ensures var before, after := Decided(parent, isRoot, relevant, few, live),
                                 Decided(parent, isRoot, relevant, many, live);
            && (after.Some? ==> before.Some?)
            && (after.Some? ==> after.value == before.value.(engagedCount := after.value.engagedCount))
            && (after.Some? ==> before.value.engagedCount <= after.value.engagedCount)
            && (before.Some? ==> (after.None?
                                  <==> before.value.messageCount < 6 && !Narrow(many, before.value.audienceCount)))
  {
    CohortSize(relevant, live);
    hide Talkers, BusyKeys, Cohort, Alternations, Authors;
  }

  /** More reactions never create a detection. They retract one exactly when they lift the engaged above the narrow
      share while there are fewer than six messages. */
  lemma ReactionsOnlyRetract(parent: string, isRoot: bool, messages: seq<Message>, reactions: seq<Reaction>,
                             more: seq<Reaction>, participants: seq<Participant>)
    requires forall r | r in reactions :: r in more
    ensures var before, after := Detected(parent, isRoot, messages, reactions, participants),
                                 Detected(parent, isRoot, messages, more, participants);
            && (after.Some? ==> before.Some?)
            && (after.Some? ==> after.value == before.value.(engagedCount := after.value.engagedCount))
            && (after.Some? ==> before.value.engagedCount <= after.value.engagedCount)
            && (before.Some? ==> (after.None? <==>
                  before.value.messageCount < 6
                  && !Narrow(EngagedCount(messages, more, participants), before.value.audienceCount)))
  {
    var live := LiveOf(participants);
    var relevant := Relevant(messages, live.Keys);
    AuthorsAreLive(messages, live.Keys);
    EngagedBounds(relevant, reactions, live);
    EngagedBounds(relevant, more, live);
    EngagedGrows(relevant, reactions, more, live.Keys);
    hide LiveOf, Relevant, Engaged, Authors, Decided;
    DetectedIs(parent, isRoot, messages, reactions, participants);
    DetectedIs(parent, isRoot, messages, more, participants);
    MoreEngaged(parent, isRoot, relevant, EngagedCount(messages, reactions, participants),
                EngagedCount(messages, more, participants), live);
  }
}
