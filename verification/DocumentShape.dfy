/** The tags of a document depend on which of a view's lists, options and strings are empty, on its times, member kinds
    and the unhosted and guide flags, never on what its strings say. */
module DocumentShape {
  import opened Order
  import opened Chars
  import opened Fabric
  import opened Xml
  import opened Document

  datatype Tag = Start(name: string, keys: seq<string>) | End(name: string)

  /** The tags among a reader's events, with attribute keys but not values. */
  function TagsOf(events: seq<Event>): seq<Tag> {
    if events == [] then [] else TagOf(events[0]) + TagsOf(events[1..])
  }

  function TagOf(e: Event): seq<Tag> {
    match e
    case Open(name, attrs) => [Start(name, Keys(attrs))]
    case Close(name) => [End(name)]
    case Char(_) => []
  }

  function Keys(attrs: seq<Attribute>): (r: seq<string>)
    ensures |r| == |attrs|
  {
    seq(|attrs|, i requires 0 <= i < |attrs| => attrs[i].key)
  }

  function NodeTags(n: Node): seq<Tag>
    decreases n, 1
  {
    match n
    case Escaped(_) => []
    case Literal(_) => []
    case Elem(name, attrs, kids) => [Start(name, Keys(attrs))] + NodesTags(kids) + [End(name)]
    case Empty(name, attrs) => [Start(name, Keys(attrs)), End(name)]
  }

  function NodesTags(ns: seq<Node>): seq<Tag>
    decreases ns, 0
  {
    if ns == [] then [] else NodeTags(ns[0]) + NodesTags(ns[1..])
  }

  lemma {:induction false} TagsAppend(a: seq<Event>, b: seq<Event>)
    ensures TagsOf(a + b) == TagsOf(a) + TagsOf(b)
  {
    hide TagOf;
    if a == [] {
      assert a + b == b;
    } else {
      var rest := a[1..];
      assert (a + b)[0] == a[0] && (a + b)[1..] == rest + b;
      assert TagsOf(a + b) == TagOf(a[0]) + TagsOf(rest + b) && TagsOf(a) == TagOf(a[0]) + TagsOf(rest);
      hide TagsOf;
      TagsAppend(rest, b);
    }
  }

  lemma TagsOfOne(e: Event)
    ensures TagsOf([e]) == TagOf(e)
  {
    assert [e][1..] == [];
  }

  lemma {:induction false} NoTags(s: string)
    ensures TagsOf(Characters(s)) == []
  {
    if s != "" {
      NoTags(s[1..]);
      assert Characters(s)[1..] == Characters(s[1..]);
    }
  }

  lemma {:induction false} TagsOfNode(n: Node)
    ensures TagsOf(Events(n)) == NodeTags(n)
    decreases n, 1
  {
    match n {
      case Escaped(s) => NoTags(s);
      case Literal(s) => NoTags(s);
      case Elem(name, attrs, kids) =>
        TagsOfNodes(kids);
        TagsAppend([Open(name, attrs)], EventsAll(kids));
        TagsAppend([Open(name, attrs)] + EventsAll(kids), [Close(name)]);
        TagsOfOne(Open(name, attrs));
        TagsOfOne(Event.Close(name));
      case Empty(name, attrs) =>
        TagsAppend([Open(name, attrs)], [Event.Close(name)]);
        TagsOfOne(Open(name, attrs));
        TagsOfOne(Event.Close(name));
    }
  }

  lemma {:induction false} TagsOfNodes(ns: seq<Node>)
    ensures TagsOf(EventsAll(ns)) == NodesTags(ns)
    decreases ns, 0
  {
    if ns != [] {
      TagsOfNode(ns[0]);
      TagsOfNodes(ns[1..]);
      TagsAppend(Events(ns[0]), EventsAll(ns[1..]));
    }
  }

  // ------------------------------------------------------------------- equal tags

  ghost predicate Same(a: seq<Node>, b: seq<Node>) { NodesTags(a) == NodesTags(b) }

  ghost predicate SameKeys(a: seq<Attribute>, b: seq<Attribute>) { Keys(a) == Keys(b) }

  lemma {:induction false} NodesTagsAppend(a: seq<Node>, b: seq<Node>)
    ensures NodesTags(a + b) == NodesTags(a) + NodesTags(b)
    decreases |a|
  {
    hide NodeTags;
    if a == [] {
      assert a + b == b;
    } else {
      NodesTagsAppend(a[1..], b);
      assert (a + b)[1..] == a[1..] + b;
    }
  }

  lemma SameJoin(a: seq<Node>, a': seq<Node>, b: seq<Node>, b': seq<Node>)
    requires Same(a, a') && Same(b, b')
    ensures Same(a + b, a' + b')
  {
    NodesTagsAppend(a, b);
    NodesTagsAppend(a', b');
  }

  lemma TextHasNoTags(ns: seq<Node>)
    requires forall i | 0 <= i < |ns| :: ns[i].Escaped? || ns[i].Literal?
    ensures NodesTags(ns) == []
  {
    if ns != [] { TextHasNoTags(ns[1..]); }
  }

  /** A line break, an element, nothing else. */
  lemma SameElem(l: Node, l': Node, name: string, attrs: seq<Attribute>, attrs': seq<Attribute>, kids: seq<Node>,
                 kids': seq<Node>)
    requires l.Literal? && l'.Literal? && SameKeys(attrs, attrs') && Same(kids, kids')
    ensures Same([l, Elem(name, attrs, kids)], [l', Elem(name, attrs', kids')])
    ensures Same([l, Empty(name, attrs)], [l', Empty(name, attrs')])
    ensures NodesTags([l, Empty(name, attrs)]) == [Start(name, Keys(attrs)), End(name)]
  {
    TwoTags(l, Elem(name, attrs, kids));
    TwoTags(l', Elem(name, attrs', kids'));
    TwoTags(l, Empty(name, attrs));
    TwoTags(l', Empty(name, attrs'));
  }

  lemma TwoTags(l: Node, n: Node)
    requires l.Literal?
    ensures NodesTags([l, n]) == NodeTags(n)
  {
    assert [l, n][1..] == [n] && [n][1..] == [];
    assert NodesTags([n]) == NodeTags(n) + NodesTags([]);
  }

  lemma OptKeys(key: string, value: string)
    ensures SameKeys(Opt(key, value), Opt(key, Mark(value)))
  {
  }

  lemma JoinKeys(a: seq<Attribute>, a': seq<Attribute>, b: seq<Attribute>, b': seq<Attribute>)
    requires SameKeys(a, a') && SameKeys(b, b')
    ensures SameKeys(a + b, a' + b')
  {
    assert Keys(a + b) == Keys(a) + Keys(b) && Keys(a' + b') == Keys(a') + Keys(b');
  }

  function MapAll<T, U>(f: T -> U, s: seq<T>): (r: seq<U>)
    ensures |r| == |s|
  {
    seq(|s|, i requires 0 <= i < |s| => f(s[i]))
  }

  lemma {:induction false} EachSame<T>(f: T -> seq<Node>, f': T -> seq<Node>, blank: T -> T, rows: seq<T>)
    requires forall i | 0 <= i < |rows| :: Same(f(rows[i]), f'(blank(rows[i])))
    ensures Same(Each(f, rows), Each(f', MapAll(blank, rows)))
  {
    hide Same;
    if rows == [] {
      assert MapAll(blank, rows) == [];
      assert Same([], []) by { assert NodesTags([]) == []; SameNothing(); }
    } else {
      assert MapAll(blank, rows)[1..] == MapAll(blank, rows[1..]);
      EachSame(f, f', blank, rows[1..]);
      SameJoin(f(rows[0]), f'(blank(rows[0])), Each(f, rows[1..]), Each(f', MapAll(blank, rows[1..])));
    }
  }

  lemma SameNothing()
    ensures Same([], [])
  {
  }

  // ------------------------------------------------------------------- blanked views

  /** A string reduced to whether it is empty. */
  function Mark(s: string): string { if s == "" then "" else "x" }
  function NoText(s: string): string { "" }
  function Sign(n: nat): nat { if n == 0 then 0 else 1 }

  function BlankSelf(r: SelfRow): SelfRow {
    SelfRow("", "", Mark(r.workspace), Mark(r.branch), false, r.unhosted, Mark(r.title), Mark(r.hint))
  }

  function BlankAgent(a: AgentRow): AgentRow { AgentRow("", Mark(a.about)) }
  function BlankHost(h: HostRow): HostRow { HostRow("", MapAll(NoText, h.roots), MapAll(BlankAgent, h.agents)) }

  function BlankMember(m: MemberRow): MemberRow {
    MemberRow(m.kind, "", Mark(m.host), Mark(m.workspace), Mark(m.branch),
              if m.state.Some? then Some(Working) else None, Mark(m.status), Mark(m.since))
  }

  function BlankPresence(p: PresenceRow): PresenceRow {
    PresenceRow("", Mark(p.host), Mark(p.workspace), Mark(p.branch), Working, Mark(p.status), "",
                if p.nativeFailure.Some? then Some(NativeFailureRow("", "", "")) else None)
  }

  /** A message keeps only its time, whether it has recipients, and whether it has an attachment directory. */
  function BlankMessage(m: MessageRow): MessageRow {
    MessageRow("", "", "", MapAll(NoText, m.recipients), m.createdAt, "", Mark(m.attachmentDir), false, false)
  }

  function BlankChannel(c: ChannelBlock): ChannelBlock
    decreases c, 1
  {
    ChannelBlock("", Mark(c.about), if c.agentCount.Some? then Some(0) else None,
                 if c.lastActive.Some? then Some("") else None,
                 MapAll(BlankMember, c.members), MapAll(BlankPresence, c.presence), MapAll(NoText, c.departures),
                 BlankChannels(c.children), MapAll(BlankMessage, c.messages), Sign(c.omitted))
  }

  function BlankChannels(cs: seq<ChannelBlock>): (r: seq<ChannelBlock>)
    ensures |r| == |cs|
    decreases cs, 0
  {
    if cs == [] then [] else [BlankChannel(cs[0])] + BlankChannels(cs[1..])
  }

  function BlankWorkspace(w: WorkspaceView): WorkspaceView {
    WorkspaceView(if w.root.Some? then Some(BlankChannel(w.root.value)) else None, BlankChannels(w.channels))
  }

  function BlankMention(r: ImportantRow): ImportantRow { ImportantRow("", "") }
  function BlankReaction(r: ReactionRow): ReactionRow { ReactionRow([], "", "", "") }

  function Blank(v: FabricView): FabricView {
    FabricView(v.now,
               if v.selfRow.Some? then Some(BlankSelf(v.selfRow.value)) else None,
               if v.hosts.Some? then Some(MapAll(BlankHost, v.hosts.value)) else None,
               if v.workspaces.Some? then Some(MapAll(BlankWorkspace, v.workspaces.value)) else None,
               MapAll(BlankMention, v.important), MapAll(BlankReaction, v.reactions), Sign(v.reactionsOmitted),
               MapAll(NoText, v.warnings), MapAll(NoText, v.notices), v.coordinationGuideReminder)
  }

  // --------------------------------------------------------------- section by section

  lemma OneKey(key: string, v: string, v': string)
    ensures SameKeys([Attribute(key, v)], [Attribute(key, v')])
  {
  }

  lemma OneText(n: Node, n': Node)
    requires !n.Elem? && !n.Empty? && !n'.Elem? && !n'.Empty?
    ensures Same([n], [n'])
  {
    TextHasNoTags([n]);
    TextHasNoTags([n']);
  }

  lemma SelfSame(r: SelfRow)
    ensures SameKeys(SelfAttrs(r), SelfAttrs(BlankSelf(r)))
    ensures Same(SelfNodes(Some(r)), SelfNodes(Some(BlankSelf(r))))
  {
    var b := BlankSelf(r);
    SelfKeys(r, b);
    SameElem(Line(2), Line(2), "self", SelfAttrs(r), SelfAttrs(b), [], []);
    OneText(Escaped(r.hint), Escaped(b.hint));
    SameElem(Line(2), Line(2), "notice", [], [], [Escaped(r.hint)], [Escaped(b.hint)]);
    SameNothing();
    hide Same, SelfAttrs, SameKeys, Line;
    var h := if r.hint == "" then [] else [Line(2), Elem("notice", [], [Escaped(r.hint)])];
    var h' := if b.hint == "" then [] else [Line(2), Elem("notice", [], [Escaped(b.hint)])];
    SameJoin([Line(2), Empty("self", SelfAttrs(r))], [Line(2), Empty("self", SelfAttrs(b))], h, h');
  }

  lemma SelfKeys(r: SelfRow, b: SelfRow)
    requires b == BlankSelf(r)
    ensures SameKeys(SelfAttrs(r), SelfAttrs(b))
  {
    OptKeys("workspace", r.workspace);
    OptKeys("branch", r.branch);
    OptKeys("title", r.title);
    var head := (x: SelfRow) => [Attribute("name", Handle(x.name)), Attribute("host", x.host),
                                 Attribute("headless", if x.headless then "on" else "off")]
                                + (if x.unhosted then [Attribute("unhosted", "true")] else []);
    assert SameKeys(head(r), head(b));
    hide SameKeys, Opt, Handle;
    JoinThree(head(r), head(b), "workspace", r.workspace, "branch", r.branch, "title", r.title);
    assert SelfAttrs(r) == head(r) + Opt("workspace", r.workspace) + Opt("branch", r.branch) + Opt("title", r.title);
    assert SelfAttrs(b) == head(b) + Opt("workspace", b.workspace) + Opt("branch", b.branch) + Opt("title", b.title);
  }

  lemma JoinThree(a: seq<Attribute>, a': seq<Attribute>, k1: string, v1: string, k2: string, v2: string, k3: string,
                  v3: string)
    requires SameKeys(a, a')
    ensures SameKeys(a + Opt(k1, v1) + Opt(k2, v2) + Opt(k3, v3),
                     a' + Opt(k1, Mark(v1)) + Opt(k2, Mark(v2)) + Opt(k3, Mark(v3)))
  {
    OptKeys(k1, v1);
    OptKeys(k2, v2);
    OptKeys(k3, v3);
    hide SameKeys, Opt, Mark;
    JoinKeys(a, a', Opt(k1, v1), Opt(k1, Mark(v1)));
    JoinKeys(a + Opt(k1, v1), a' + Opt(k1, Mark(v1)), Opt(k2, v2), Opt(k2, Mark(v2)));
    JoinKeys(a + Opt(k1, v1) + Opt(k2, v2), a' + Opt(k1, Mark(v1)) + Opt(k2, Mark(v2)), Opt(k3, v3), Opt(k3, Mark(v3)));
  }

  lemma HostSame(h: HostRow)
    ensures Same(HostNodes(h), HostNodes(BlankHost(h)))
  {
    var b := BlankHost(h);
    forall i | 0 <= i < |h.roots| ensures Same(RootNodes(h.roots[i]), RootNodes(NoText(h.roots[i]))) {
      TextHasNoTags(RootNodes(h.roots[i]));
      TextHasNoTags(RootNodes(NoText(h.roots[i])));
    }
    forall i | 0 <= i < |h.agents| ensures Same(AgentNodes(h.agents[i]), AgentNodes(BlankAgent(h.agents[i]))) {
      var a := h.agents[i];
      OneKey("ref", a.reference, "");
      OptKeys("about", a.about);
      JoinKeys([Attribute("ref", a.reference)], [Attribute("ref", "")], Opt("about", a.about),
               Opt("about", Mark(a.about)));
      SameElem(Line(8), Line(8), "agent", [Attribute("ref", a.reference)] + Opt("about", a.about),
               [Attribute("ref", "")] + Opt("about", Mark(a.about)), [], []);
    }
    OneKey("name", h.name, "");
    OneText(Line(6), Line(6));
    OneText(Line(4), Line(4));
    OneText(Literal("\n      Workspaces:"), Literal("\n      Workspaces:"));
    SameNothing();
    hide Same, SameKeys, Line, RootNodes, AgentNodes;
    EachSame(RootNodes, RootNodes, NoText, h.roots);
    EachSame(AgentNodes, AgentNodes, BlankAgent, h.agents);
    hide Each, MapAll;
    HostKids(h, b);
  }

  lemma HostKids(h: HostRow, b: HostRow)
    requires b == BlankHost(h)
    requires Same(Each(RootNodes, h.roots), Each(RootNodes, b.roots))
    requires Same(Each(AgentNodes, h.agents), Each(AgentNodes, b.agents))
    requires SameKeys([Attribute("name", h.name)], [Attribute("name", b.name)]) && Same([], [])
    requires Same([Line(6)], [Line(6)]) && Same([Line(4)], [Line(4)])
    requires Same([Literal("\n      Workspaces:")], [Literal("\n      Workspaces:")])
    ensures Same(HostNodes(h), HostNodes(b))
  {
    hide Same, SameKeys, RootNodes, AgentNodes, Each;
    var w := Literal("\n      Workspaces:");
    SameJoin([w], [w], Each(RootNodes, h.roots), Each(RootNodes, b.roots));
    SameJoin(Each(AgentNodes, h.agents), Each(AgentNodes, b.agents), [Line(6)], [Line(6)]);
    NoKeysSame();
    SameElem(Line(6), Line(6), "agents", [], [], Each(AgentNodes, h.agents) + [Line(6)],
             Each(AgentNodes, b.agents) + [Line(6)]);
    assert |b.roots| == |h.roots| && |b.agents| == |h.agents|;
    var p := if h.roots == [] then [] else [w] + Each(RootNodes, h.roots);
    var p' := if b.roots == [] then [] else [w] + Each(RootNodes, b.roots);
    var q := if h.agents == [] then [] else [Line(6), Elem("agents", [], Each(AgentNodes, h.agents) + [Line(6)])];
    var q' := if b.agents == [] then [] else [Line(6), Elem("agents", [], Each(AgentNodes, b.agents) + [Line(6)])];
    SameJoin(p, p', q, q');
    SameJoin(p + q, p' + q', [Line(4)], [Line(4)]);
    SameElem(Line(4), Line(4), "host", [Attribute("name", h.name)], [Attribute("name", b.name)], p + q + [Line(4)],
             p' + q' + [Line(4)]);
  }

  lemma NoKeysSame()
    ensures SameKeys([], [])
  {
  }

  /** A list wrapped in one element, when not empty. */
  lemma WrappedSame(name: string, l: Node, kids: seq<Node>, kids': seq<Node>)
    requires l.Literal? && Same(kids, kids')
    ensures Same([l, Elem(name, [], kids + [l])], [l, Elem(name, [], kids' + [l])])
    ensures Same([], [])
  {
    OneText(l, l);
    NoKeysSame();
    SameJoin(kids, kids', [l], [l]);
    SameElem(l, l, name, [], [], kids + [l], kids' + [l]);
    SameNothing();
  }

  lemma HostsSame(hosts: seq<HostRow>)
    ensures Same(HostsNodes(Some(hosts)), HostsNodes(Some(MapAll(BlankHost, hosts))))
  {
    forall i | 0 <= i < |hosts| ensures Same(HostNodes(hosts[i]), HostNodes(BlankHost(hosts[i]))) {
      HostSame(hosts[i]);
    }
    EachSame(HostNodes, HostNodes, BlankHost, hosts);
    WrappedSame("hosts", Line(2), Each(HostNodes, hosts), Each(HostNodes, MapAll(BlankHost, hosts)));
  }

  lemma NamedOriginSame(name: string, h: string, w: string, b: string)
    ensures SameKeys([Attribute("name", name)] + Origin(h, w, b),
                     [Attribute("name", Handle(""))] + Origin(Mark(h), Mark(w), Mark(b)))
  {
    OneKey("name", name, Handle(""));
    JoinThree([Attribute("name", name)], [Attribute("name", Handle(""))], "host", h, "workspace", w, "branch", b);
    hide SameKeys, Opt, Mark, Handle;
    var o, o' := Origin(h, w, b), Origin(Mark(h), Mark(w), Mark(b));
    assert [Attribute("name", name)] + o
        == [Attribute("name", name)] + Opt("host", h) + Opt("workspace", w) + Opt("branch", b);
    assert [Attribute("name", Handle(""))] + o'
        == [Attribute("name", Handle(""))] + Opt("host", Mark(h)) + Opt("workspace", Mark(w)) + Opt("branch", Mark(b));
  }

  lemma MemberSame(m: MemberRow, indent: nat, indent': nat)
    ensures Same(MemberNodes(indent)(m), MemberNodes(indent')(BlankMember(m)))
  {
    var b := BlankMember(m);
    var a := [Attribute("name", Handle(m.name))] + Origin(m.host, m.workspace, m.branch);
    var a' := [Attribute("name", Handle(""))] + Origin(b.host, b.workspace, b.branch);
    NamedOriginSame(Handle(m.name), m.host, m.workspace, m.branch);
    var t := if m.state.Some? then m.state.value.AsStr() else "";
    JoinState(a, a', m.state.Some?, t, m.status, m.since);
    hide SameKeys, Origin, Handle, Mark, Same;
    SameNothing();
    SameElem(Line(indent), Line(indent'), if m.kind.Agent? then "agent" else "human", MemberAttrs(m), MemberAttrs(b),
             [], []);
  }

  lemma JoinState(a: seq<Attribute>, a': seq<Attribute>, present: bool, state: string, status: string, since: string)
    requires SameKeys(a, a')
    ensures SameKeys(a + (if present then [Attribute("state", state)] else []) + Opt("status", status)
                     + Opt("since", since),
                     a' + (if present then [Attribute("state", "working")] else []) + Opt("status", Mark(status))
                     + Opt("since", Mark(since)))
    ensures SameKeys(a + [Attribute("state", state)] + Opt("status", status) + [Attribute("since", since)],
                     a' + [Attribute("state", "working")] + Opt("status", Mark(status)) + [Attribute("since", "")])
  {
    OneKey("state", state, "working");
    OneKey("since", since, "");
    OptKeys("status", status);
    OptKeys("since", since);
    NoKeysSame();
    hide SameKeys, Opt, Mark;
    var s := if present then [Attribute("state", state)] else [];
    var s' := if present then [Attribute("state", "working")] else [];
    JoinKeys(a, a', s, s');
    JoinKeys(a + s, a' + s', Opt("status", status), Opt("status", Mark(status)));
    JoinKeys(a + s + Opt("status", status), a' + s' + Opt("status", Mark(status)), Opt("since", since),
             Opt("since", Mark(since)));
    var u, u' := [Attribute("state", state)], [Attribute("state", "working")];
    JoinKeys(a, a', u, u');
    JoinKeys(a + u, a' + u', Opt("status", status), Opt("status", Mark(status)));
    JoinKeys(a + u + Opt("status", status), a' + u' + Opt("status", Mark(status)), [Attribute("since", since)],
             [Attribute("since", "")]);
  }

  lemma PresenceSame(p: PresenceRow, indent: nat, indent': nat)
    ensures Same(PresenceNodes(indent)(p), PresenceNodes(indent')(BlankPresence(p)))
  {
    var b := BlankPresence(p);
    var a := [Attribute("name", Handle(p.name))] + Origin(p.host, p.workspace, p.branch);
    var a' := [Attribute("name", Handle(""))] + Origin(b.host, b.workspace, b.branch);
    NamedOriginSame(Handle(p.name), p.host, p.workspace, p.branch);
    JoinState(a, a', true, p.state.AsStr(), p.status, p.since);
    SameNothing();
    var f, f' := FailureNodes(p, indent), FailureNodes(b, indent');
    assert Same(f, f') by { FailureSame(p, indent, indent'); }
    hide SameKeys, Origin, Handle, Mark, Same;
    SameElem(Line(indent), Line(indent'), "agent", PresenceAttrs(p), PresenceAttrs(b), [], []);
    SameJoin([Line(indent), Empty("agent", PresenceAttrs(p))], [Line(indent'), Empty("agent", PresenceAttrs(b))], f,
             f');
  }

  ghost function FailureNodes(p: PresenceRow, indent: nat): seq<Node> {
    match p.nativeFailure
    case None => []
    case Some(f) =>
      [Line(indent), Empty("native-outcome", [Attribute("name", Handle(p.name)), Attribute("outcome", f.outcome),
                                              Attribute("text", f.message), Attribute("since", f.since)])]
  }

  lemma FailureSame(p: PresenceRow, indent: nat, indent': nat)
    ensures Same(FailureNodes(p, indent), FailureNodes(BlankPresence(p), indent'))
  {
    SameNothing();
    if p.nativeFailure.Some? {
      var f := p.nativeFailure.value;
      SameElem(Line(indent), Line(indent'), "native-outcome",
               [Attribute("name", Handle(p.name)), Attribute("outcome", f.outcome), Attribute("text", f.message),
                Attribute("since", f.since)],
               [Attribute("name", Handle("")), Attribute("outcome", ""), Attribute("text", ""), Attribute("since", "")],
               [], []);
    }
  }

  lemma MembersSame(c: ChannelBlock, indent: nat, indent': nat)
    ensures Same(MembersNodes(c, indent), MembersNodes(BlankChannel(c), indent'))
  {
    var b := BlankChannel(c);
    forall i | 0 <= i < |c.members|
      ensures Same(MemberNodes(indent + 2)(c.members[i]), MemberNodes(indent' + 2)(BlankMember(c.members[i])))
    {
      MemberSame(c.members[i], indent + 2, indent' + 2);
    }
    forall i | 0 <= i < |c.presence|
      ensures Same(PresenceNodes(indent + 2)(c.presence[i]), PresenceNodes(indent' + 2)(BlankPresence(c.presence[i])))
    {
      PresenceSame(c.presence[i], indent + 2, indent' + 2);
    }
    forall i | 0 <= i < |c.departures|
      ensures Same(DepartureNodes(indent + 2)(c.departures[i]), DepartureNodes(indent' + 2)(NoText(c.departures[i])))
    {
      TextHasNoTags(DepartureNodes(indent + 2)(c.departures[i]));
      TextHasNoTags(DepartureNodes(indent' + 2)(NoText(c.departures[i])));
    }
    OneText(Line(indent), Line(indent'));
    NoKeysSame();
    SameNothing();
    hide Same, SameKeys, Line, MemberNodes, PresenceNodes, DepartureNodes;
    EachSame(MemberNodes(indent + 2), MemberNodes(indent' + 2), BlankMember, c.members);
    EachSame(PresenceNodes(indent + 2), PresenceNodes(indent' + 2), BlankPresence, c.presence);
    EachSame(DepartureNodes(indent + 2), DepartureNodes(indent' + 2), NoText, c.departures);
    hide Each, MapAll;
    var m, m' := Each(MemberNodes(indent + 2), c.members), Each(MemberNodes(indent' + 2), b.members);
    var p, p' := Each(PresenceNodes(indent + 2), c.presence), Each(PresenceNodes(indent' + 2), b.presence);
    var d, d' := Each(DepartureNodes(indent + 2), c.departures), Each(DepartureNodes(indent' + 2), b.departures);
    SameJoin(m, m', p, p');
    SameJoin(m + p, m' + p', d, d');
    SameJoin(m + p + d, m' + p' + d', [Line(indent)], [Line(indent')]);
    SameLineElem(indent, indent', "members", m + p + d + [Line(indent)], m' + p' + d' + [Line(indent')]);
  }

  lemma SameLineElem(indent: nat, indent': nat, name: string, kids: seq<Node>, kids': seq<Node>)
    requires Same(kids, kids')
    ensures Same([Line(indent), Elem(name, [], kids)], [Line(indent'), Elem(name, [], kids')])
  {
    NoKeysSame();
    SameElem(Line(indent), Line(indent'), name, [], [], kids, kids');
  }

  ghost function FollowUp(m: MessageRow, indent: nat): seq<Node> {
    if m.mention && m.needsReplyNudge
    then [Line(indent), Literal("Follow up on "), Escaped(ShortId(m.id)),
          Literal(": reply for substantive "), Literal("context or react for an ACK.")]
    else []
  }

  lemma FollowUpSame(m: MessageRow, indent: nat)
    ensures Same(FollowUp(m, indent), [])
  {
    TextHasNoTags(FollowUp(m, indent));
    TextHasNoTags([]);
  }

  lemma MessageParts(m: MessageRow, indent: nat, now: nat)
    ensures MessageNodes(indent, now)(m)
         == [Line(indent), Elem("message", MessageAttrs(m, now), BodyNodes(m.body, m.id, indent + 2))]
         + FollowUp(m, indent)
  {
    hide MessageAttrs, BodyNodes, ShortId, Line;
  }

  lemma BodySame(m: MessageRow, indent: nat, indent': nat)
    ensures var b := BlankMessage(m); Same(BodyNodes(m.body, m.id, indent + 2), BodyNodes(b.body, b.id, indent' + 2))
  {
    var b := BlankMessage(m);
    TextHasNoTags(BodyNodes(m.body, m.id, indent + 2));
    TextHasNoTags(BodyNodes(b.body, b.id, indent' + 2));
  }

  lemma MessageSame(m: MessageRow, indent: nat, indent': nat, now: nat)
    ensures Same(MessageNodes(indent, now)(m), MessageNodes(indent', now)(BlankMessage(m)))
  {
    var b := BlankMessage(m);
    LineIsText(indent);
    LineIsText(indent');
    hide *;
    MessageKeys(m, b, now);
    BodySame(m, indent, indent');
    var body, body' := BodyNodes(m.body, m.id, indent + 2), BodyNodes(b.body, b.id, indent' + 2);
    SameElem(Line(indent), Line(indent'), "message", MessageAttrs(m, now), MessageAttrs(b, now), body, body');
    FollowUpSame(m, indent);
    FollowUpSame(b, indent');
    FollowUpsSame(m, b, indent, indent');
    MessageParts(m, indent, now);
    MessageParts(b, indent', now);
    SameJoin([Line(indent), Elem("message", MessageAttrs(m, now), body)],
             [Line(indent'), Elem("message", MessageAttrs(b, now), body')], FollowUp(m, indent), FollowUp(b, indent'));
  }

  lemma FollowUpsSame(m: MessageRow, b: MessageRow, indent: nat, indent': nat)
    requires Same(FollowUp(m, indent), []) && Same(FollowUp(b, indent'), [])
    ensures Same(FollowUp(m, indent), FollowUp(b, indent'))
  {
  }

  lemma MessageKeys(m: MessageRow, b: MessageRow, now: nat)
    requires b == BlankMessage(m)
    ensures SameKeys(MessageAttrs(m, now), MessageAttrs(b, now))
  {
    var h, h' := [Attribute("from", Handle(m.from)), Attribute("id", ShortId(m.id))],
                 [Attribute("from", Handle(b.from)), Attribute("id", ShortId(b.id))];
    assert SameKeys(h, h');
    var f := if m.recipients == [] then [] else [Attribute("for", Join(Handles(m.recipients), " "))];
    var f' := if b.recipients == [] then [] else [Attribute("for", Join(Handles(b.recipients), " "))];
    assert SameKeys(f, f');
    OptKeys("attachment-dir", m.attachmentDir);
    var t := [TimeAttr(m.createdAt, now)];
    assert SameKeys(t, t);
    hide SameKeys, Handle, ShortId, Join, Handles, TimeAttr, Opt, Mark;
    JoinKeys(h, h', f, f');
    JoinKeys(h + f, h' + f', Opt("attachment-dir", m.attachmentDir), Opt("attachment-dir", b.attachmentDir));
    JoinKeys(h + f + Opt("attachment-dir", m.attachmentDir), h' + f' + Opt("attachment-dir", b.attachmentDir), t, t);
  }

  lemma OmittedSame(c: ChannelBlock, indent: nat, indent': nat)
    ensures var n := (x: nat, at: nat) =>
                       [Line(at), Empty("omitted", [Attribute("count", Decimal(x)), Attribute("window", "last 4h")])];
            Same(n(c.omitted, indent), n(Sign(c.omitted), indent'))
  {
    SameNothing();
    var a, a' := [Attribute("count", Decimal(c.omitted)), Attribute("window", "last 4h")],
                 [Attribute("count", Decimal(Sign(c.omitted))), Attribute("window", "last 4h")];
    assert SameKeys(a, a');
    SameElem(Line(indent), Line(indent'), "omitted", a, a', [], []);
  }

  lemma MessagesSame(c: ChannelBlock, indent: nat, indent': nat, now: nat)
    ensures Same(MessagesNodes(c, indent, now), MessagesNodes(BlankChannel(c), indent', now))
  {
    var b := BlankChannel(c);
    var n := (x: nat, at: nat) =>
               [Line(at), Empty("omitted", [Attribute("count", Decimal(x)), Attribute("window", "last 4h")])];
    OmittedSame(c, indent + 2, indent' + 2);
    forall i | 0 <= i < |c.messages|
      ensures Same(MessageNodes(indent + 2, now)(c.messages[i]),
                   MessageNodes(indent' + 2, now)(BlankMessage(c.messages[i])))
    {
      MessageSame(c.messages[i], indent + 2, indent' + 2, now);
    }
    OneText(Line(indent), Line(indent'));
    SameNothing();
    hide Same, Line, MessageNodes, Decimal;
    EachSame(MessageNodes(indent + 2, now), MessageNodes(indent' + 2, now), BlankMessage, c.messages);
    hide Each, MapAll;
    var o := if c.omitted > 0 then n(c.omitted, indent + 2) else [];
    var o' := if b.omitted > 0 then n(b.omitted, indent' + 2) else [];
    var m, m' := Each(MessageNodes(indent + 2, now), c.messages), Each(MessageNodes(indent' + 2, now), b.messages);
    SameJoin(o, o', m, m');
    SameJoin(o + m, o' + m', [Line(indent)], [Line(indent')]);
    SameLineElem(indent, indent', "chatter", o + m + [Line(indent)], o' + m' + [Line(indent')]);
  }

  lemma ChannelKeys(c: ChannelBlock)
    ensures SameKeys(ChannelAttrs(c), ChannelAttrs(BlankChannel(c)))
  {
    var b := BlankChannel(c);
    OneKey("name", c.path, "");
    OptKeys("about", c.about);
    var n, n' := if c.agentCount.Some? then [Attribute("agents", Decimal(c.agentCount.value))] else [],
                 if b.agentCount.Some? then [Attribute("agents", Decimal(b.agentCount.value))] else [];
    var l, l' := if c.lastActive.Some? then [Attribute("last-active", c.lastActive.value)] else [],
                 if b.lastActive.Some? then [Attribute("last-active", b.lastActive.value)] else [];
    assert SameKeys(n, n') && SameKeys(l, l');
    hide SameKeys, Opt, Decimal, Mark;
    var h, h' := [Attribute("name", c.path)], [Attribute("name", "")];
    JoinKeys(h, h', Opt("about", c.about), Opt("about", b.about));
    JoinKeys(h + Opt("about", c.about), h' + Opt("about", b.about), n, n');
    JoinKeys(h + Opt("about", c.about) + n, h' + Opt("about", b.about) + n', l, l');
  }

  lemma {:induction false} ChannelSame(c: ChannelBlock, indent: nat, indent': nat, now: nat)
    ensures Same(ChannelNodes(c, indent, now), ChannelNodes(BlankChannel(c), indent', now))
    decreases c, 1
  {
    var b := BlankChannel(c);
    assert c.IsCompact() <==> b.IsCompact();
    var e, e' := EachChannel(c.children, indent + 2, now), EachChannel(b.children, indent' + 2, now);
    var m, m' := MembersNodes(c, indent + 2), MembersNodes(b, indent' + 2);
    var g, g' := MessagesNodes(c, indent + 2, now), MessagesNodes(b, indent' + 2, now);
    ChannelKeys(c);
    MembersSame(c, indent + 2, indent' + 2);
    MessagesSame(c, indent + 2, indent' + 2, now);
    ChannelsSame(c.children, indent + 2, indent' + 2, now);
    OneText(Line(indent), Line(indent'));
    hide Same, SameKeys, Line, ChannelAttrs, MembersNodes, MessagesNodes, EachChannel;
    SameJoin(m, m', g, g');
    SameJoin(m + g, m' + g', e, e');
    SameJoin(m + g + e, m' + g' + e', [Line(indent)], [Line(indent')]);
    SameAnyLine(indent, indent', "channel", ChannelAttrs(c), ChannelAttrs(b), m + g + e + [Line(indent)],
                m' + g' + e' + [Line(indent')]);
  }

  lemma SameAnyLine(indent: nat, indent': nat, name: string, attrs: seq<Attribute>, attrs': seq<Attribute>,
                    kids: seq<Node>, kids': seq<Node>)
    requires SameKeys(attrs, attrs') && Same(kids, kids')
    ensures Same([Line(indent), Elem(name, attrs, kids)], [Line(indent'), Elem(name, attrs', kids')])
    ensures Same([Line(indent), Empty(name, attrs)], [Line(indent'), Empty(name, attrs')])
  {
    SameElem(Line(indent), Line(indent'), name, attrs, attrs', kids, kids');
  }

  lemma {:induction false} ChannelsSame(cs: seq<ChannelBlock>, indent: nat, indent': nat, now: nat)
    ensures Same(EachChannel(cs, indent, now), EachChannel(BlankChannels(cs), indent', now))
    decreases cs, 0
  {
    SameNothing();
    hide Same;
    if cs != [] {
      ChannelSame(cs[0], indent, indent', now);
      ChannelsSame(cs[1..], indent, indent', now);
      assert BlankChannels(cs)[1..] == BlankChannels(cs[1..]);
      hide ChannelNodes, BlankChannel;
      SameJoin(ChannelNodes(cs[0], indent, now), ChannelNodes(BlankChannel(cs[0]), indent', now),
               EachChannel(cs[1..], indent, now), EachChannel(BlankChannels(cs[1..]), indent', now));
    }
  }

  lemma WorkspaceSame(w: WorkspaceView, now: nat)
    ensures Same(WorkspaceNodes(now)(w), WorkspaceNodes(now)(BlankWorkspace(w)))
    ensures HasChannel(w) <==> HasChannel(BlankWorkspace(w))
  {
    SameNothing();
    if w.root.Some? { ChannelSame(w.root.value, 4, 4, now); }
    ChannelsSame(w.channels, 4, 4, now);
    hide Same, ChannelNodes, EachChannel, BlankChannel;
    var b := BlankWorkspace(w);
    SameJoin(if w.root.Some? then ChannelNodes(w.root.value, 4, now) else [],
             if b.root.Some? then ChannelNodes(b.root.value, 4, now) else [],
             EachChannel(w.channels, 4, now), EachChannel(b.channels, 4, now));
  }

  lemma WorkspacesSame(ws: seq<WorkspaceView>, now: nat)
    ensures Same(ChannelsNodes(Some(ws), now), ChannelsNodes(Some(MapAll(BlankWorkspace, ws)), now))
  {
    hide WorkspaceNodes, HasChannel, BlankWorkspace;
    forall i | 0 <= i < |ws|
      ensures Same(WorkspaceNodes(now)(ws[i]), WorkspaceNodes(now)(BlankWorkspace(ws[i])))
      ensures HasChannel(ws[i]) <==> HasChannel(BlankWorkspace(ws[i]))
    {
      WorkspaceSame(ws[i], now);
    }
    EachSame(WorkspaceNodes(now), WorkspaceNodes(now), BlankWorkspace, ws);
    var b := MapAll(BlankWorkspace, ws);
    assert AnyChannel(ws) <==> AnyChannel(b) by {
      assert forall i | 0 <= i < |ws| :: HasChannel(ws[i]) <==> HasChannel(b[i]);
    }
    WrappedSame("channels", Line(2), Each(WorkspaceNodes(now), ws), Each(WorkspaceNodes(now), b));
  }

  lemma ImportantSame(rows: seq<ImportantRow>)
    ensures Same(ImportantNodes(rows), ImportantNodes(MapAll(BlankMention, rows)))
  {
    forall i | 0 <= i < |rows| ensures Same(MentionNodes(rows[i]), MentionNodes(BlankMention(rows[i]))) {
      SameNothing();
      SameElem(Line(4), Line(4), "mention", MentionNodes(rows[i])[1].attrs,
               MentionNodes(BlankMention(rows[i]))[1].attrs, [], []);
    }
    EachSame(MentionNodes, MentionNodes, BlankMention, rows);
    WrappedSame("important", Line(2), Each(MentionNodes, rows), Each(MentionNodes, MapAll(BlankMention, rows)));
  }

  lemma WarningsSame(rows: seq<string>)
    ensures Same(WarningsNodes(rows), WarningsNodes(MapAll(NoText, rows)))
    ensures Same(Each(NoticeNodes, rows), Each(NoticeNodes, MapAll(NoText, rows)))
  {
    forall i | 0 <= i < |rows| ensures Same(WarningNodes(rows[i]), WarningNodes(NoText(rows[i]))) {
      OneText(Escaped(rows[i]), Escaped(NoText(rows[i])));
      SameLineElem(4, 4, "warning", [Escaped(rows[i])], [Escaped(NoText(rows[i]))]);
    }
    EachSame(WarningNodes, WarningNodes, NoText, rows);
    WrappedSame("warnings", Line(2), Each(WarningNodes, rows), Each(WarningNodes, MapAll(NoText, rows)));
    forall i | 0 <= i < |rows| ensures Same(NoticeNodes(rows[i]), NoticeNodes(NoText(rows[i]))) {
      OneKey("workspace", rows[i], "");
      SameElem(Line(2), Line(2), "no-new-activity", [Attribute("workspace", rows[i])], [Attribute("workspace", "")],
               NoticeNodes(rows[i])[1].kids, NoticeNodes("")[1].kids);
    }
    EachSame(NoticeNodes, NoticeNodes, NoText, rows);
  }

  lemma ReactionsSame(rows: seq<ReactionRow>, omitted: nat)
    ensures Same(ReactionsNodes(rows, omitted), ReactionsNodes(MapAll(BlankReaction, rows), Sign(omitted)))
  {
    forall i | 0 <= i < |rows| ensures Same(ReactionNodes(rows[i]), ReactionNodes(BlankReaction(rows[i]))) {
      TextHasNoTags(ReactionNodes(rows[i]));
      TextHasNoTags(ReactionNodes(BlankReaction(rows[i])));
    }
    EachSame(ReactionNodes, ReactionNodes, BlankReaction, rows);
    SameNothing();
    OneKey("count", Decimal(omitted), Decimal(Sign(omitted)));
    SameElem(Line(4), Line(4), "omitted", [Attribute("count", Decimal(omitted))],
             [Attribute("count", Decimal(Sign(omitted)))], [], []);
    var r, r' := Each(ReactionNodes, rows), Each(ReactionNodes, MapAll(BlankReaction, rows));
    var o := if omitted > 0 then [Line(4), Empty("omitted", [Attribute("count", Decimal(omitted))])] else [];
    var o' := if Sign(omitted) > 0 then [Line(4), Empty("omitted", [Attribute("count", Decimal(Sign(omitted)))])]
              else [];
    hide Same, Each, ReactionNodes, Line, Decimal;
    SameJoin(r, r', o, o');
    LineIsText(2);
    OneText(Line(2), Line(2));
    SameJoin(r + o, r' + o', [Line(2)], [Line(2)]);
    SameLineElem(2, 2, "reactions", r + o + [Line(2)], r' + o' + [Line(2)]);
  }

  lemma LineIsText(indent: nat)
    ensures Line(indent).Literal?
  {
  }

  lemma SectionsSame(v: FabricView)
    ensures Same(Sections(v), Sections(Blank(v)))
  {
    var b := Blank(v);
    SameNothing();
    if v.selfRow.Some? { SelfSame(v.selfRow.value); }
    if v.hosts.Some? { HostsSame(v.hosts.value); }
    if v.workspaces.Some? { WorkspacesSame(v.workspaces.value, v.now); }
    ImportantSame(v.important);
    ReactionsSame(v.reactions, v.reactionsOmitted);
    WarningsSame(v.warnings);
    WarningsSame(v.notices);
    var s, s' := SelfNodes(v.selfRow), SelfNodes(b.selfRow);
    var h, h' := HostsNodes(v.hosts), HostsNodes(b.hosts);
    var c, c' := ChannelsNodes(v.workspaces, v.now), ChannelsNodes(b.workspaces, b.now);
    var i, i' := ImportantNodes(v.important), ImportantNodes(b.important);
    var r, r' := ReactionsNodes(v.reactions, v.reactionsOmitted), ReactionsNodes(b.reactions, b.reactionsOmitted);
    var w, w' := WarningsNodes(v.warnings), WarningsNodes(b.warnings);
    var n, n' := Each(NoticeNodes, v.notices), Each(NoticeNodes, b.notices);
    var g := GuideNodes(v.coordinationGuideReminder);
    assert Same(s, s') && Same(h, h') && Same(c, c') && Same(g, g);
    hide Same, SelfNodes, HostsNodes, ChannelsNodes, ImportantNodes, ReactionsNodes, WarningsNodes, Each, GuideNodes;
    SameJoin(s, s', h, h');
    SameJoin(s + h, s' + h', c, c');
    SameJoin(s + h + c, s' + h' + c', i, i');
    SameJoin(s + h + c + i, s' + h' + c' + i', r, r');
    SameJoin(s + h + c + i + r, s' + h' + c' + i' + r', w, w');
    SameJoin(s + h + c + i + r + w, s' + h' + c' + i' + r' + w', n, n');
    SameJoin(s + h + c + i + r + w + n, s' + h' + c' + i' + r' + w' + n', g, g);
  }

  /** The tags a reader finds in a view's document are those of the view with every string blanked; what `Blank` keeps
      besides is the times, the member kinds and the unhosted and guide flags. */
  lemma TagsIgnoreText(v: FabricView)
    ensures TagsOf(Events(Doc(v))) == TagsOf(Events(Doc(Blank(v))))
  {
    SectionsSame(v);
    OneText(Literal("\n"), Literal("\n"));
    SameJoin(Sections(v), Sections(Blank(v)), [Literal("\n")], [Literal("\n")]);
    TagsOfNode(Doc(v));
    TagsOfNode(Doc(Blank(v)));
    hide Sections;
  }
}
