/** `detect_root_conversation` (`src/channel_nudge.rs`): a lively conversation among live participants of a root
    channel. */
module NudgeDetector {
  import opened Order
  import opened Nudge

  datatype Message = Message(id: string, author: string, createdAt: nat, substantive: bool)

  datatype Reaction = Reaction(reactor: string, target: string)

  // ------------------------------------------------------------------------- specification

  /** Live participants by key; of several with one key the last. */
  function LiveOf(participants: seq<Participant>): map<string, Participant> {
    if participants == [] then map[]
    else
      var n := |participants| - 1;
      var before, p := LiveOf(participants[..n]), participants[n];
      if p.live then before[p.pubkey := p] else before
  }

  function Kept(messages: seq<Message>, live: set<string>): seq<Message> {
    if messages == [] then []
    else
      (if messages[0].substantive && messages[0].author in live then [messages[0]] else []) + Kept(messages[1..], live)
  }

  predicate MessageLe(a: Message, b: Message) {
    a.createdAt < b.createdAt || (a.createdAt == b.createdAt && StrLe(a.id, b.id))
  }

  function Relevant(messages: seq<Message>, live: set<string>): seq<Message> { Sort(Kept(messages, live), MessageLe) }

  function Authors(messages: seq<Message>): set<string> { set m | m in messages :: m.author }

  function CountOf(messages: seq<Message>, author: string): nat {
    if messages == [] then 0
    else CountOf(messages[..|messages| - 1], author) + (if messages[|messages| - 1].author == author then 1 else 0)
  }

  function Talkers(messages: seq<Message>): set<string> { set a | a in Authors(messages) && CountOf(messages, a) >= 2 }

  function Alternations(messages: seq<Message>): nat {
    if |messages| < 2 then 0
    else
      var n := |messages| - 1;
      Alternations(messages[..n]) + (if messages[n - 1].author != messages[n].author then 1 else 0)
  }

  function Ids(messages: seq<Message>): set<string> { set m | m in messages :: m.id }

  /** Authors, and live participants that reacted to a relevant message. */
  function Engaged(relevant: seq<Message>, reactions: seq<Reaction>, live: set<string>): set<string> {
    Authors(relevant) + (set r | r in reactions && r.reactor in live && r.target in Ids(relevant) :: r.reactor)
  }

  function Cohort(relevant: seq<Message>, live: map<string, Participant>): seq<Participant>
    requires Authors(relevant) <= live.Keys
  {
    var authors := Ascending(Authors(relevant));
    seq(|authors|, i requires 0 <= i < |authors| => assert authors[i] in authors; live[authors[i]])
  }

  function BusyKeys(cohort: seq<Participant>): seq<string> {
    if cohort == [] then []
    else
      var n := |cohort| - 1;
      BusyKeys(cohort[..n]) + (if cohort[n].busy then [cohort[n].pubkey] else [])
  }

  /** Few of the audience take part. */
  predicate Narrow(engaged: nat, audience: nat) { audience >= engaged + 3 && engaged * 2 <= audience }

  predicate Lively(relevant: seq<Message>, engaged: nat, audience: nat) {
    && |Authors(relevant)| >= 2 && |Talkers(relevant)| >= 2
    && |relevant| >= (if Narrow(engaged, audience) then 4 else 6)
    && Alternations(relevant) >= 3
    && (relevant[|relevant| - 1].createdAt >= relevant[0].createdAt + 20 || |relevant| >= 8)
  }

  function Max(a: nat, b: nat): nat { if a < b then b else a }

  function EvidenceOf(parent: string, relevant: seq<Message>, engaged: nat, live: map<string, Participant>): Evidence
    requires relevant != [] && Authors(relevant) <= live.Keys
  {
    var cohort := Cohort(relevant, live);
    Evidence(parent, cohort, BusyKeys(cohort), Max(|live|, |cohort|), Max(engaged, |cohort|), |relevant|,
             Alternations(relevant), relevant[0].createdAt, relevant[|relevant| - 1].createdAt,
             relevant[|relevant| - 1].id)
  }

  function Detected(parent: string, isRoot: bool, messages: seq<Message>, reactions: seq<Reaction>,
                    participants: seq<Participant>): Option<Evidence> {
    var live := LiveOf(participants);
    var relevant := Relevant(messages, live.Keys);
    AuthorsAreLive(messages, live.Keys);
    var cohort := |Authors(relevant)|;
    var engaged := Max(|Engaged(relevant, reactions, live.Keys)|, cohort);
    if !isRoot || !Lively(relevant, engaged, Max(|live|, cohort)) then None
    else Some(EvidenceOf(parent, relevant, engaged, live))
  }

  lemma {:induction false} KeptAreLive(messages: seq<Message>, live: set<string>)
    ensures forall m | m in Kept(messages, live) :: m in messages && m.substantive && m.author in live
  {
    if messages != [] { KeptAreLive(messages[1..], live); }
  }

  lemma AuthorsAreLive(messages: seq<Message>, live: set<string>)
    ensures Authors(Relevant(messages, live)) <= live
  {
    KeptAreLive(messages, live);
    MultisetMembers(Kept(messages, live), Relevant(messages, live));
  }

  // ------------------------------------------------------------------------------- the code

  method LiveMap(participants: seq<Participant>) returns (live: map<string, Participant>)
    ensures live == LiveOf(participants)
  {
    live := map[];
    var i := 0;
    while i < |participants|
      invariant 0 <= i <= |participants| && live == LiveOf(participants[..i])
    {
      assert participants[..i + 1][..i] == participants[..i];
      if participants[i].live { live := live[participants[i].pubkey := participants[i]]; }
      i := i + 1;
    }
    assert participants[..i] == participants;
  }

  /** The counts of just the authors there are. */
  ghost predicate Counts(counts: map<string, nat>, messages: seq<Message>) {
    counts.Keys == Authors(messages) && forall a | a in counts :: counts[a] == CountOf(messages, a) >= 1
  }

  lemma {:induction false} CountNone(messages: seq<Message>, a: string)
    ensures CountOf(messages, a) == 0 <==> a !in Authors(messages)
  {
    if messages != [] {
      var n := |messages| - 1;
      CountNone(messages[..n], a);
      AuthorsMore(messages, n);
      assert messages[..n + 1] == messages;
    }
  }

  lemma AuthorsMore(messages: seq<Message>, i: nat)
    requires i < |messages|
    ensures Authors(messages[..i + 1]) == Authors(messages[..i]) + {messages[i].author}
  {
    assert messages[..i + 1] == messages[..i] + [messages[i]];
  }

  lemma CountsMore(counts: map<string, nat>, messages: seq<Message>, i: nat)
    requires i < |messages| && Counts(counts, messages[..i])
    ensures var a := messages[i].author;
            Counts(counts[a := (if a in counts then counts[a] else 0) + 1], messages[..i + 1])
  {
    AuthorsMore(messages, i);
    CountNone(messages[..i], messages[i].author);
    hide Authors;
    assert messages[..i + 1][..i] == messages[..i] && messages[..i + 1][i] == messages[i];
  }

  method CountByAuthor(messages: seq<Message>) returns (counts: map<string, nat>)
    ensures Counts(counts, messages)
  {
    counts := map[];
    var i := 0;
    assert Counts(counts, messages[..0]);
    hide Counts;
    while i < |messages|
      invariant 0 <= i <= |messages| && Counts(counts, messages[..i])
    {
      CountsMore(counts, messages, i);
      var a := messages[i].author;
      counts := counts[a := (if a in counts then counts[a] else 0) + 1];
      i := i + 1;
    }
    assert messages[..i] == messages;
  }

  method Engage(relevant: seq<Message>, reactions: seq<Reaction>, live: set<string>) returns (engaged: set<string>)
    ensures engaged == Engaged(relevant, reactions, live)
  {
    engaged := Authors(relevant);
    var ids := Ids(relevant);
    var i := 0;
    while i < |reactions|
      invariant 0 <= i <= |reactions| && ids == Ids(relevant)
      invariant engaged == Engaged(relevant, reactions[..i], live)
    {
      var r := reactions[i];
      assert reactions[..i + 1] == reactions[..i] + [r];
      EngagedMore(relevant, reactions[..i], r, live);
      if r.reactor in live && r.target in ids { engaged := engaged + {r.reactor}; }
      i := i + 1;
    }
    assert reactions[..i] == reactions;
  }

  lemma EngagedMore(relevant: seq<Message>, reactions: seq<Reaction>, r: Reaction, live: set<string>)
    ensures Engaged(relevant, [], live) == Authors(relevant)
    ensures Engaged(relevant, reactions + [r], live)
         == Engaged(relevant, reactions, live)
         + (if r.reactor in live && r.target in Ids(relevant) then {r.reactor} else {})
  {
    hide Authors, Ids;
  }

  method CountAlternations(messages: seq<Message>) returns (n: nat)
    ensures n == Alternations(messages)
  {
    n := 0;
    var i := 1;
    while i < |messages|
      invariant 1 <= i && (i <= |messages| || messages == [])
                && n == Alternations(messages[..if messages == [] then 0 else i])
    {
      assert messages[..i + 1][..i] == messages[..i];
      if messages[i - 1].author != messages[i].author { n := n + 1; }
      i := i + 1;
    }
    assert messages[..|messages|] == messages;
  }

  method BusyOf(cohort: seq<Participant>) returns (busy: seq<string>)
    ensures busy == BusyKeys(cohort)
  {
    busy := [];
    var i := 0;
    while i < |cohort|
      invariant 0 <= i <= |cohort| && busy == BusyKeys(cohort[..i])
    {
      assert cohort[..i + 1][..i] == cohort[..i];
      if cohort[i].busy { busy := busy + [cohort[i].pubkey]; }
      i := i + 1;
    }
    assert cohort[..i] == cohort;
  }

  method DetectRootConversation(parent: string, isRoot: bool, messages: seq<Message>, reactions: seq<Reaction>,
                                participants: seq<Participant>) returns (r: Option<Evidence>)
    ensures r == Detected(parent, isRoot, messages, reactions, participants)
  {
    hide LiveOf, Relevant, Engaged, Talkers, Alternations, BusyKeys, CountOf, Authors, Cohort;
    if !isRoot { return None; }
    var live := LiveMap(participants);
    var relevant := Relevant(messages, live.Keys);
    AuthorsAreLive(messages, live.Keys);
    var counts := CountByAuthor(relevant);
    var talkers := set a | a in counts && counts[a] >= 2;
    TalkersAre(relevant, talkers, counts);
    if |counts.Keys| < 2 || |talkers| < 2 { return None; }
    var cohort := Cohort(relevant, live);
    CohortSize(relevant, live);
    var engaged := Engage(relevant, reactions, live.Keys);
    var audienceCount := Max(|live|, |cohort|);
    var engagedCount := Max(|engaged|, |cohort|);
    var minimum := if Narrow(engagedCount, audienceCount) then 4 else 6;
    if |relevant| < minimum { return None; }
    var alternations := CountAlternations(relevant);
    if alternations < 3 { return None; }
    var startedAt, endedAt := relevant[0].createdAt, relevant[|relevant| - 1].createdAt;
    SpanIsOrdered(messages, live.Keys);
    if endedAt - startedAt < 20 && |relevant| < 8 { return None; }
    var busy := BusyOf(cohort);
    return Some(Evidence(parent, cohort, busy, audienceCount, engagedCount, |relevant|, alternations, startedAt,
                         endedAt, relevant[|relevant| - 1].id));
  }

  lemma TalkersAre(relevant: seq<Message>, talkers: set<string>, counts: map<string, nat>)
    requires counts.Keys == Authors(relevant) && forall a | a in counts :: counts[a] == CountOf(relevant, a)
    requires talkers == set a | a in counts && counts[a] >= 2
    ensures talkers == Talkers(relevant)
  {
    hide Authors, CountOf;
  }

  lemma CohortSize(relevant: seq<Message>, live: map<string, Participant>)
    requires Authors(relevant) <= live.Keys
    ensures |Cohort(relevant, live)| == |Authors(relevant)|
  {
  }

  lemma MessageOrder()
    ensures Total(MessageLe)
  {
    hide StrLt;
    StrLeIsTotal();
  }

  /** Time does not run backwards along the sorted messages, so the saturating difference is the difference. */
  lemma SpanIsOrdered(messages: seq<Message>, live: set<string>)
    ensures var s := Relevant(messages, live); s != [] ==> s[0].createdAt <= s[|s| - 1].createdAt
  {
    MessageOrder();
    SortSorted(Kept(messages, live), MessageLe);
  }
}
