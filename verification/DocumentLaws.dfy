/** Every view's document is well formed, and its tags do not depend on what its strings say. */
module DocumentLaws {
  import opened Order
  import opened Chars
  import opened Fabric
  import opened Xml
  import opened Document

  // -------------------------------------------------------------------- well-formedness

  ghost predicate KeysIn(attrs: seq<Attribute>, keys: set<string>) {
    forall i | 0 <= i < |attrs| :: attrs[i].key in keys
  }

  /** Attributes with distinct keys from `keys`. */
  ghost predicate Distinct(attrs: seq<Attribute>, keys: set<string>) { GoodAttrs(attrs) && KeysIn(attrs, keys) }

  lemma JoinDistinct(a: seq<Attribute>, ka: set<string>, b: seq<Attribute>, kb: set<string>)
    requires Distinct(a, ka) && Distinct(b, kb) && ka !! kb
    ensures Distinct(a + b, ka + kb)
  {
  }

  lemma OptDistinct(key: string, value: string)
    requires IsName(key)
    ensures Distinct(Opt(key, value), {key}) && Distinct([Attribute(key, value)], {key})
  {
  }

  lemma SelfHeadGood(row: SelfRow, head: seq<Attribute>)
    requires head == [Attribute("name", Handle(row.name)), Attribute("host", row.host),
                      Attribute("headless", if row.headless then "on" else "off")]
                     + (if row.unhosted then [Attribute("unhosted", "true")] else [])
    ensures Distinct(head, {"name", "host", "headless", "unhosted"})
  {
  }

  lemma SelfAttrsGood(row: SelfRow)
    ensures GoodAttrs(SelfAttrs(row))
  {
    var head := [Attribute("name", Handle(row.name)), Attribute("host", row.host),
                 Attribute("headless", if row.headless then "on" else "off")]
                + (if row.unhosted then [Attribute("unhosted", "true")] else []);
    SelfHeadGood(row, head);
    hide Distinct, Opt;
    ThreeMore(head, {"name", "host", "headless", "unhosted"}, "workspace", row.workspace, "branch", row.branch,
              "title", row.title);
  }

  lemma ThreeMore(a: seq<Attribute>, ka: set<string>, k1: string, v1: string, k2: string, v2: string, k3: string,
                  v3: string)
    requires Distinct(a, ka) && IsName(k1) && IsName(k2) && IsName(k3)
    requires k1 !in ka && k2 !in ka && k3 !in ka && k1 != k2 && k1 != k3 && k2 != k3
    ensures Distinct(a + Opt(k1, v1) + Opt(k2, v2) + Opt(k3, v3), ka + {k1, k2, k3})
    ensures GoodAttrs(a + Opt(k1, v1) + Opt(k2, v2) + Opt(k3, v3))
  {
    hide Opt, IsName, Distinct;
    JoinMore(a, ka, k1, v1);
    JoinMore(a + Opt(k1, v1), ka + {k1}, k2, v2);
    JoinMore(a + Opt(k1, v1) + Opt(k2, v2), ka + {k1} + {k2}, k3, v3);
    DistinctIsGood(a + Opt(k1, v1) + Opt(k2, v2) + Opt(k3, v3), ka + {k1} + {k2} + {k3});
    assert ka + {k1} + {k2} + {k3} == ka + {k1, k2, k3};
  }

  lemma DistinctIsGood(attrs: seq<Attribute>, keys: set<string>)
    requires Distinct(attrs, keys)
    ensures GoodAttrs(attrs)
  {
  }

  lemma JoinMore(a: seq<Attribute>, ka: set<string>, key: string, value: string)
    requires Distinct(a, ka) && IsName(key) && key !in ka
    ensures Distinct(a + Opt(key, value), ka + {key}) && Distinct(a + [Attribute(key, value)], ka + {key})
  {
    OptDistinct(key, value);
    JoinDistinct(a, ka, Opt(key, value), {key});
    JoinDistinct(a, ka, [Attribute(key, value)], {key});
  }

  lemma NamedOriginGood(name: string, host: string, workspace: string, branch: string)
    ensures Distinct([Attribute("name", name)] + Origin(host, workspace, branch),
                     {"name", "host", "workspace", "branch"})
  {
    var a := [Attribute("name", name)];
    ThreeMore(a, {"name"}, "host", host, "workspace", workspace, "branch", branch);
    hide Opt, Distinct;
    assert a + Opt("host", host) + Opt("workspace", workspace) + Opt("branch", branch)
        == a + Origin(host, workspace, branch);
    assert {"name"} + {"host", "workspace", "branch"} == {"name", "host", "workspace", "branch"};
  }

  lemma MemberAttrsGood(m: MemberRow)
    ensures GoodAttrs(MemberAttrs(m))
  {
    var keys := {"name", "host", "workspace", "branch"};
    NamedOriginGood(Handle(m.name), m.host, m.workspace, m.branch);
    var a := [Attribute("name", Handle(m.name))] + Origin(m.host, m.workspace, m.branch);
    var state := if m.state.Some? then m.state.value.AsStr() else "";
    hide Distinct, Origin, Handle;
    ThreeMore(a, keys, "state", state, "status", m.status, "since", m.since);
    assert Opt("state", state) == if m.state.Some? then [Attribute("state", m.state.value.AsStr())] else [];
  }

  lemma PresenceAttrsGood(p: PresenceRow)
    ensures GoodAttrs(PresenceAttrs(p))
  {
    var keys := {"name", "host", "workspace", "branch"};
    NamedOriginGood(Handle(p.name), p.host, p.workspace, p.branch);
    var a := [Attribute("name", Handle(p.name))] + Origin(p.host, p.workspace, p.branch);
    hide Distinct, Origin, Handle, Opt;
    JoinMore(a, keys, "state", p.state.AsStr());
    JoinMore(a + [Attribute("state", p.state.AsStr())], keys + {"state"}, "status", p.status);
    JoinMore(a + [Attribute("state", p.state.AsStr())] + Opt("status", p.status), keys + {"state"} + {"status"},
             "since", p.since);
    DistinctIsGood(PresenceAttrs(p), keys + {"state"} + {"status"} + {"since"});
  }

  lemma MessageAttrsGood(m: MessageRow, now: nat)
    ensures GoodAttrs(MessageAttrs(m, now))
  {
    var who := if m.recipients == [] then [] else [Attribute("for", Join(Handles(m.recipients), " "))];
    var a := [Attribute("from", Handle(m.from)), Attribute("id", ShortId(m.id))] + who;
    assert Distinct(a, {"from", "id", "for"});
    var time := TimeAttr(m.createdAt, now);
    assert time.key == "age" || time.key == "time";
    hide Distinct, Opt, TimeAttr;
    JoinMore(a, {"from", "id", "for"}, "attachment-dir", m.attachmentDir);
    JoinMore(a + Opt("attachment-dir", m.attachmentDir), {"from", "id", "for"} + {"attachment-dir"}, time.key,
             time.value);
    DistinctIsGood(MessageAttrs(m, now), {"from", "id", "for"} + {"attachment-dir"} + {time.key});
  }

  lemma JoinIf(a: seq<Attribute>, ka: set<string>, present: bool, key: string, value: string)
    requires Distinct(a, ka) && IsName(key) && key !in ka
    ensures Distinct(a + (if present then [Attribute(key, value)] else []), ka + {key})
  {
    JoinMore(a, ka, key, value);
    assert a + [] == a;
  }

  lemma ChannelAttrNames()
    ensures IsName("name") && IsName("about") && IsName("agents") && IsName("last-active")
  {
  }

  lemma ChannelAttrsGood(c: ChannelBlock)
    ensures GoodAttrs(ChannelAttrs(c))
  {
    ChannelAttrNames();
    OptDistinct("name", c.path);
    hide Distinct, Opt, IsName, Decimal;
    var a := [Attribute("name", c.path)];
    JoinMore(a, {"name"}, "about", c.about);
    var b := a + Opt("about", c.about);
    var count := if c.agentCount.Some? then Decimal(c.agentCount.value) else "";
    JoinIf(b, {"name"} + {"about"}, c.agentCount.Some?, "agents", count);
    var d := b + (if c.agentCount.Some? then [Attribute("agents", count)] else []);
    var active := if c.lastActive.Some? then c.lastActive.value else "";
    JoinIf(d, {"name"} + {"about"} + {"agents"}, c.lastActive.Some?, "last-active", active);
    DistinctIsGood(ChannelAttrs(c), {"name"} + {"about"} + {"agents"} + {"last-active"});
  }

  lemma PairGood(k1: string, v1: string, k2: string, v2: string)
    requires IsName(k1) && IsName(k2) && k1 != k2
    ensures GoodAttrs([Attribute(k1, v1), Attribute(k2, v2)]) && GoodAttrs([Attribute(k1, v1)]) && GoodAttrs([])
  {
  }

  lemma GoodElem(name: string, attrs: seq<Attribute>, kids: seq<Node>)
    requires IsName(name) && GoodAttrs(attrs) && AllGood(kids)
    ensures Good(Elem(name, attrs, kids)) && Good(Empty(name, attrs))
  {
  }

  lemma JoinGood(a: seq<Node>, b: seq<Node>)
    requires AllGood(a) && AllGood(b)
    ensures AllGood(a + b)
  {
  }

  lemma ListGood(n: Node)
    requires Good(n)
    ensures AllGood([n]) && AllGood([])
  {
  }

  lemma LineGood(indent: nat)
    ensures Good(Line(indent))
  {
  }

  lemma EscapedGood(s: string)
    ensures Good(Escaped(s))
  {
  }

  lemma HeaderNames()
    ensures IsName("self") && IsName("notice") && IsName("hosts") && IsName("host") && IsName("agents")
            && IsName("agent")
    ensures IsName("name") && IsName("ref") && IsName("about")
  {
  }

  lemma ChannelNames()
    ensures IsName("channels") && IsName("channel") && IsName("members") && IsName("agent") && IsName("human")
    ensures IsName("native-outcome") && IsName("outcome") && IsName("text") && IsName("since") && IsName("name")
  {
  }

  lemma ActivityNames()
    ensures IsName("chatter") && IsName("message") && IsName("omitted") && IsName("count") && IsName("window")
    ensures IsName("important") && IsName("mention") && IsName("channel") && IsName("message_id")
  {
  }

  lemma FooterNames()
    ensures IsName("mosaico") && IsName("reactions") && IsName("warnings") && IsName("warning") && IsName("notice")
    ensures IsName("no-new-activity") && IsName("workspace")
  {
  }

  lemma {:induction false} EachGood<T>(f: T -> seq<Node>, rows: seq<T>)
    requires forall i | 0 <= i < |rows| :: AllGood(f(rows[i]))
    ensures AllGood(Each(f, rows))
  {
    hide Good;
    if rows != [] {
      EachGood(f, rows[1..]);
      assert AllGood(f(rows[0]));
    }
  }

  lemma SelfGood(row: Option<SelfRow>)
    ensures AllGood(SelfNodes(row))
  {
    LineGood(2);
    HeaderNames();
    PairGood("name", "", "ref", "");
    if row.Some? {
      SelfAttrsGood(row.value);
      EscapedGood(row.value.hint);
      hide Good, GoodAttrs, IsName, SelfAttrs, Line;
      GoodElem("self", SelfAttrs(row.value), []);
      GoodElem("notice", [], [Escaped(row.value.hint)]);
    }
  }

  lemma HostPartsGood(host: HostRow)
    ensures AllGood(Each(RootNodes, host.roots)) && AllGood(Each(AgentNodes, host.agents))
  {
    HeaderNames();
    LineGood(8);
    assert Good(Literal("\n      * "));
    hide Line, IsName, Plain;
    forall i | 0 <= i < |host.roots| ensures AllGood(RootNodes(host.roots[i])) { }
    EachGood(RootNodes, host.roots);
    forall i | 0 <= i < |host.agents| ensures AllGood(AgentNodes(host.agents[i])) {
      var agent := host.agents[i];
      assert "ref" != "about";
      PairGood("ref", agent.reference, "about", agent.about);
      assert AgentNodes(agent)[1].attrs == [Attribute("ref", agent.reference)]
          || AgentNodes(agent)[1].attrs == [Attribute("ref", agent.reference), Attribute("about", agent.about)];
    }
    EachGood(AgentNodes, host.agents);
  }

  lemma HostGood(host: HostRow)
    ensures AllGood(HostNodes(host))
  {
    LineGood(4);
    LineGood(6);
    HeaderNames();
    HostPartsGood(host);
    assert Good(Literal("\n      Workspaces:"));
    PairGood("name", host.name, "ref", "");
    hide RootNodes, AgentNodes, Line, Each, Good, GoodAttrs, IsName;
    GoodElem("agents", [], Each(AgentNodes, host.agents) + [Line(6)]);
    var kids := HostNodes(host)[1].kids;
    assert AllGood(kids);
    GoodElem("host", [Attribute("name", host.name)], kids);
  }

  lemma HostsGood(hosts: Option<seq<HostRow>>)
    ensures AllGood(HostsNodes(hosts))
  {
    LineGood(2);
    HeaderNames();
    PairGood("name", "", "ref", "");
    if hosts.Some? {
      forall i | 0 <= i < |hosts.value| ensures AllGood(HostNodes(hosts.value[i])) { HostGood(hosts.value[i]); }
      EachGood(HostNodes, hosts.value);
      hide HostNodes, Line, Each, Good, GoodAttrs, IsName;
      GoodElem("hosts", [], Each(HostNodes, hosts.value) + [Line(2)]);
    }
  }

  lemma PresenceGood(p: PresenceRow, indent: nat)
    ensures AllGood(PresenceNodes(indent)(p))
  {
    LineGood(indent);
    ChannelNames();
    PresenceAttrsGood(p);
    if p.nativeFailure.Some? {
      var f := p.nativeFailure.value;
      var attrs := [Attribute("name", Handle(p.name)), Attribute("outcome", f.outcome),
                    Attribute("text", f.message), Attribute("since", f.since)];
      assert GoodAttrs(attrs) by { hide IsName; }
      GoodElem("native-outcome", attrs, []);
    }
    hide Line, PresenceAttrs, Good, GoodAttrs, IsName;
    GoodElem("agent", PresenceAttrs(p), []);
  }

  lemma MemberGood(m: MemberRow, indent: nat)
    ensures AllGood(MemberNodes(indent)(m))
  {
    LineGood(indent);
    ChannelNames();
    MemberAttrsGood(m);
    hide Line, MemberAttrs, Good, GoodAttrs, IsName;
    GoodElem(if m.kind.Agent? then "agent" else "human", MemberAttrs(m), []);
  }

  lemma DepartureGood(name: string, indent: nat)
    ensures AllGood(DepartureNodes(indent)(name))
  {
    LineGood(indent);
    assert Good(Literal("@")) && Good(Literal(" left."));
    hide Line, Plain;
  }

  lemma MemberListsGood(c: ChannelBlock, indent: nat)
    ensures AllGood(Each(MemberNodes(indent), c.members)) && AllGood(Each(PresenceNodes(indent), c.presence))
    ensures AllGood(Each(DepartureNodes(indent), c.departures))
  {
    hide MemberNodes, PresenceNodes, DepartureNodes, Good, Each;
    forall i | 0 <= i < |c.members| ensures AllGood(MemberNodes(indent)(c.members[i])) {
      MemberGood(c.members[i], indent);
    }
    EachGood(MemberNodes(indent), c.members);
    forall i | 0 <= i < |c.presence| ensures AllGood(PresenceNodes(indent)(c.presence[i])) {
      PresenceGood(c.presence[i], indent);
    }
    EachGood(PresenceNodes(indent), c.presence);
    forall i | 0 <= i < |c.departures| ensures AllGood(DepartureNodes(indent)(c.departures[i])) {
      DepartureGood(c.departures[i], indent);
    }
    EachGood(DepartureNodes(indent), c.departures);
  }

  lemma MembersGood(c: ChannelBlock, indent: nat)
    ensures AllGood(MembersNodes(c, indent))
  {
    hide Line, MemberNodes, PresenceNodes, DepartureNodes, Good, GoodAttrs, IsName, Each;
    LineGood(indent);
    ChannelNames();
    PairGood("name", "", "text", "");
    MemberListsGood(c, indent + 2);
    GoodElem("members", [], Each(MemberNodes(indent + 2), c.members) + Each(PresenceNodes(indent + 2), c.presence)
                            + Each(DepartureNodes(indent + 2), c.departures) + [Line(indent)]);
  }

  lemma TruncatedTexts()
    ensures Good(Literal("[message truncated; run ")) && Good(Literal("`]"))
    ensures Good(Literal("`mosaico channel read --id "))
  {
  }

  lemma FollowUpTexts()
    ensures Good(Literal("Follow up on ")) && Good(Literal(": reply for substantive "))
    ensures Good(Literal("context or react for an ACK."))
  {
  }

  lemma MessageGood(m: MessageRow, indent: nat, now: nat)
    ensures AllGood(MessageNodes(indent, now)(m))
  {
    LineGood(indent);
    LineGood(indent + 2);
    TruncatedTexts();
    FollowUpTexts();
    ActivityNames();
    MessageAttrsGood(m, now);
    EscapedGood(ShortId(m.id));
    EscapedGood(TruncateWords(m.body, CHAT_RENDER_WORD_LIMIT).0);
    hide Line, MessageAttrs, GoodAttrs, TruncateWords, ShortId, Good, IsName;
    assert AllGood(BodyNodes(m.body, m.id, indent + 2));
    GoodElem("message", MessageAttrs(m, now), BodyNodes(m.body, m.id, indent + 2));
  }

  function OmittedHead(omitted: nat, indent: nat): seq<Node> {
    if omitted > 0
    then [Line(indent), Empty("omitted", [Attribute("count", Decimal(omitted)), Attribute("window", "last 4h")])]
    else []
  }

  lemma OmittedGood(omitted: nat, indent: nat)
    ensures AllGood(OmittedHead(omitted, indent))
  {
    LineGood(indent);
    ActivityNames();
    assert "count" != "window";
    PairGood("count", Decimal(omitted), "window", "last 4h");
    hide Line, Decimal, Good, GoodAttrs, IsName;
    GoodElem("omitted", [Attribute("count", Decimal(omitted)), Attribute("window", "last 4h")], []);
  }

  lemma MessagesParts(c: ChannelBlock, indent: nat, now: nat)
    ensures var parts := OmittedHead(c.omitted, indent + 2) + Each(MessageNodes(indent + 2, now), c.messages)
                         + [Line(indent)];
            MessagesNodes(c, indent, now) == []
            || MessagesNodes(c, indent, now) == [Line(indent)] + [Elem("chatter", [], parts)]
    ensures AllGood([]) && GoodAttrs([])
  {
    hide Line, Each, MessageNodes, Decimal;
  }

  lemma MessagesGood(c: ChannelBlock, indent: nat, now: nat)
    ensures AllGood(MessagesNodes(c, indent, now))
  {
    hide *;
    LineGood(indent);
    ActivityNames();
    OmittedGood(c.omitted, indent + 2);
    forall i | 0 <= i < |c.messages| ensures AllGood(MessageNodes(indent + 2, now)(c.messages[i])) {
      MessageGood(c.messages[i], indent + 2, now);
    }
    EachGood(MessageNodes(indent + 2, now), c.messages);
    var head, body := OmittedHead(c.omitted, indent + 2), Each(MessageNodes(indent + 2, now), c.messages);
    ListGood(Line(indent));
    JoinGood(head, body);
    JoinGood(head + body, [Line(indent)]);
    GoodElem("chatter", [], head + body + [Line(indent)]);
    ListGood(Elem("chatter", [], head + body + [Line(indent)]));
    JoinGood([Line(indent)], [Elem("chatter", [], head + body + [Line(indent)])]);
    MessagesParts(c, indent, now);
  }

  lemma {:induction false} ChannelGood(c: ChannelBlock, indent: nat, now: nat)
    ensures AllGood(ChannelNodes(c, indent, now))
    decreases c, 1
  {
    hide Line, ChannelAttrs, MembersNodes, MessagesNodes, GoodAttrs, EachChannel, Good, IsName;
    LineGood(indent);
    ChannelNames();
    ChannelAttrsGood(c);
    MembersGood(c, indent + 2);
    MessagesGood(c, indent + 2, now);
    ChannelsGood(c.children, indent + 2, now);
    GoodElem("channel", ChannelAttrs(c), []);
    GoodElem("channel", ChannelAttrs(c), MembersNodes(c, indent + 2) + MessagesNodes(c, indent + 2, now)
                                         + EachChannel(c.children, indent + 2, now) + [Line(indent)]);
  }

  lemma {:induction false} ChannelsGood(cs: seq<ChannelBlock>, indent: nat, now: nat)
    ensures AllGood(EachChannel(cs, indent, now))
    decreases cs, 0
  {
    hide Good;
    if cs != [] {
      ChannelGood(cs[0], indent, now);
      ChannelsGood(cs[1..], indent, now);
      hide ChannelNodes;
    }
  }

  lemma WorkspaceGood(w: WorkspaceView, now: nat)
    ensures AllGood(WorkspaceNodes(now)(w))
  {
    hide Good, ChannelNodes, EachChannel;
    if w.root.Some? { ChannelGood(w.root.value, 4, now); }
    ChannelsGood(w.channels, 4, now);
  }

  lemma WorkspacesGood(workspaces: Option<seq<WorkspaceView>>, now: nat)
    ensures AllGood(ChannelsNodes(workspaces, now))
  {
    LineGood(2);
    ChannelNames();
    PairGood("name", "", "text", "");
    hide Line, AnyChannel, Good, GoodAttrs, IsName, WorkspaceNodes;
    if workspaces.Some? {
      forall i | 0 <= i < |workspaces.value| ensures AllGood(WorkspaceNodes(now)(workspaces.value[i])) {
        WorkspaceGood(workspaces.value[i], now);
      }
      EachGood(WorkspaceNodes(now), workspaces.value);
      hide Each;
      GoodElem("channels", [], Each(WorkspaceNodes(now), workspaces.value) + [Line(2)]);
    }
  }

  lemma ImportantGood(rows: seq<ImportantRow>)
    ensures AllGood(ImportantNodes(rows))
  {
    LineGood(2);
    LineGood(4);
    ActivityNames();
    assert "channel" != "message_id";
    PairGood("channel", "", "message_id", "");
    hide Line, ShortId, Good, GoodAttrs, IsName;
    forall i | 0 <= i < |rows| ensures AllGood(MentionNodes(rows[i])) {
      PairGood("channel", rows[i].channelRef, "message_id", ShortId(rows[i].messageId));
      GoodElem("mention", MentionNodes(rows[i])[1].attrs, []);
    }
    EachGood(MentionNodes, rows);
    hide Each, MentionNodes;
    GoodElem("important", [], Each(MentionNodes, rows) + [Line(2)]);
  }

  lemma ReactionTexts()
    ensures Good(Literal(" ")) && Good(Literal(" on your message \"")) && Good(Literal("\" (")) && Good(Literal(")"))
  {
  }

  lemma ReactionsGood(rows: seq<ReactionRow>, omitted: nat)
    ensures AllGood(ReactionsNodes(rows, omitted))
  {
    LineGood(2);
    LineGood(4);
    ActivityNames();
    FooterNames();
    ReactionTexts();
    PairGood("count", Decimal(omitted), "message_id", "");
    hide Line, Decimal, Join, AtEach, GoodAttrs, IsName, Plain;
    forall i | 0 <= i < |rows| ensures AllGood(ReactionNodes(rows[i])) { }
    EachGood(ReactionNodes, rows);
    hide Each, ReactionNodes, Good;
    GoodElem("omitted", [Attribute("count", Decimal(omitted))], []);
    var tail := if omitted > 0 then [Line(4), Empty("omitted", [Attribute("count", Decimal(omitted))])] else [];
    GoodElem("reactions", [], Each(ReactionNodes, rows) + tail + [Line(2)]);
  }

  lemma WarningsGood(rows: seq<string>)
    ensures AllGood(WarningsNodes(rows))
  {
    LineGood(2);
    LineGood(4);
    FooterNames();
    PairGood("workspace", "", "notice", "");
    hide Line, GoodAttrs, IsName, Good;
    forall i | 0 <= i < |rows| ensures AllGood(WarningNodes(rows[i])) {
      EscapedGood(rows[i]);
      GoodElem("warning", [], [Escaped(rows[i])]);
    }
    EachGood(WarningNodes, rows);
    hide Each, WarningNodes;
    GoodElem("warnings", [], Each(WarningNodes, rows) + [Line(2)]);
  }

  lemma NothingNewTexts()
    ensures Good(Literal("\n    Nothing new since your last "))
  {
  }

  lemma SurfacesTexts()
    ensures Good(Literal("check. The fabric surfaces only ")) && Good(Literal("unchanged, not gone.\n  "))
  {
  }

  lemma UnchangedTexts()
    ensures Good(Literal("what changed \U{2014} your channels, ")) && Good(Literal("members, and messages are "))
  {
  }

  lemma NoticesGood(rows: seq<string>, guide: bool)
    ensures AllGood(Each(NoticeNodes, rows)) && AllGood(GuideNodes(guide))
  {
    LineGood(2);
    FooterNames();
    PairGood("workspace", "", "notice", "");
    EscapedGood(COORDINATION_GUIDE_REMINDER);
    NothingNewTexts();
    SurfacesTexts();
    UnchangedTexts();
    hide Line, GoodAttrs, IsName, Good;
    forall i | 0 <= i < |rows| ensures AllGood(NoticeNodes(rows[i])) {
      PairGood("workspace", rows[i], "notice", "");
      GoodElem("no-new-activity", NoticeNodes(rows[i])[1].attrs, NoticeNodes(rows[i])[1].kids);
    }
    EachGood(NoticeNodes, rows);
    GoodElem("notice", [], [Escaped(COORDINATION_GUIDE_REMINDER)]);
  }

  lemma SectionsGood(v: FabricView)
    ensures AllGood(Sections(v))
  {
    hide SelfNodes, HostsNodes, ChannelsNodes, ImportantNodes, WarningsNodes, ReactionsNodes, Each, GuideNodes,
      Good, GoodAttrs, IsName;
    SelfGood(v.selfRow);
    HostsGood(v.hosts);
    WorkspacesGood(v.workspaces, v.now);
    ImportantGood(v.important);
    WarningsGood(v.warnings);
    NoticesGood(v.notices, v.coordinationGuideReminder);
    ReactionsGood(v.reactions, v.reactionsOmitted);
  }

  /** Every view's document is good, so (`DocumentReadsBack`) its text is one well-formed element. */
  lemma DocGood(v: FabricView)
    ensures Good(Doc(v)) && Reads(Write(Doc(v)), Events(Doc(v)))
  {
    SectionsGood(v);
    FooterNames();
    PairGood("workspace", "", "notice", "");
    assert Good(Literal("\n"));
    hide Sections, Good, GoodAttrs, IsName;
    GoodElem("mosaico", [], Sections(v) + [Literal("\n")]);
    DocumentReadsBack(Doc(v));
  }
}
