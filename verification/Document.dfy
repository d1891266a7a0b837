/** The document tree that `src/fabric_context/render.rs`, `render/activity.rs` and `write_message` of
    `src/agent_xml.rs` print for a view. */
module Document {
  import opened Order
  import opened Chars
  import opened Fabric
  import opened Xml

  const CHAT_RENDER_WORD_LIMIT := 100

  // ----------------------------------------------------------------------- building blocks

  /** The nodes of each row in turn. */
  function Each<T>(f: T -> seq<Node>, rows: seq<T>): seq<Node> {
    if rows == [] then [] else f(rows[0]) + Each(f, rows[1..])
  }

  function Opt(key: string, value: string): seq<Attribute> { if value == "" then [] else [Attribute(key, value)] }

  function Line(indent: nat): Node { Literal("\n" + Spaces(indent)) }

  function Handle(name: string): string { "@" + TrimStart(name, '@') }

  function ShortId(id: string): string { if |id| <= 6 then id else id[..6] }

  function TruncateWords(text: string, limit: nat): (string, bool) {
    var words := Words(text);
    if |words| <= limit then (Trim(text), false) else (Join(words[..limit], " ") + "...", true)
  }

  // ------------------------------------------------------------------------------- sections

  function SelfAttrs(row: SelfRow): seq<Attribute> {
    [Attribute("name", Handle(row.name)), Attribute("host", row.host),
     Attribute("headless", if row.headless then "on" else "off")]
    + (if row.unhosted then [Attribute("unhosted", "true")] else [])
    + Opt("workspace", row.workspace) + Opt("branch", row.branch) + Opt("title", row.title)
  }

  function SelfNodes(row: Option<SelfRow>): seq<Node> {
    if row.None? then []
    else
      [Line(2), Empty("self", SelfAttrs(row.value))]
      + (if row.value.hint == "" then [] else [Line(2), Elem("notice", [], [Escaped(row.value.hint)])])
  }

  function AgentNodes(agent: AgentRow): seq<Node> {
    [Line(8), Empty("agent", [Attribute("ref", agent.reference)] + Opt("about", agent.about))]
  }

  function RootNodes(root: string): seq<Node> { [Literal("\n      * "), Escaped(root)] }

  function HostNodes(host: HostRow): seq<Node> {
    [Line(4),
     Elem("host", [Attribute("name", host.name)],
          (if host.roots == [] then [] else [Literal("\n      Workspaces:")] + Each(RootNodes, host.roots))
          + (if host.agents == [] then []
             else [Line(6), Elem("agents", [], Each(AgentNodes, host.agents) + [Line(6)])])
          + [Line(4)])]
  }

  function HostsNodes(hosts: Option<seq<HostRow>>): seq<Node> {
    if hosts.None? || hosts.value == [] then []
    else [Line(2), Elem("hosts", [], Each(HostNodes, hosts.value) + [Line(2)])]
  }

  function Origin(host: string, workspace: string, branch: string): seq<Attribute> {
    Opt("host", host) + Opt("workspace", workspace) + Opt("branch", branch)
  }

  function MemberAttrs(m: MemberRow): seq<Attribute> {
    [Attribute("name", Handle(m.name))] + Origin(m.host, m.workspace, m.branch)
    + (if m.state.Some? then [Attribute("state", m.state.value.AsStr())] else [])
    + Opt("status", m.status) + Opt("since", m.since)
  }

  function MemberNodes(indent: nat): MemberRow -> seq<Node> {
    (m: MemberRow) => [Line(indent), Empty(if m.kind.Agent? then "agent" else "human", MemberAttrs(m))]
  }

  function PresenceAttrs(p: PresenceRow): seq<Attribute> {
    [Attribute("name", Handle(p.name))] + Origin(p.host, p.workspace, p.branch)
    + [Attribute("state", p.state.AsStr())] + Opt("status", p.status) + [Attribute("since", p.since)]
  }

  function PresenceNodes(indent: nat): PresenceRow -> seq<Node> {
    (p: PresenceRow) =>
      [Line(indent), Empty("agent", PresenceAttrs(p))]
      + match p.nativeFailure
        case None => []
        case Some(f) =>
          [Line(indent), Empty("native-outcome", [Attribute("name", Handle(p.name)), Attribute("outcome", f.outcome),
                                                  Attribute("text", f.message), Attribute("since", f.since)])]
  }

  function DepartureNodes(indent: nat): string -> seq<Node> {
    (name: string) => [Line(indent), Literal("@"), Escaped(TrimStart(name, '@')), Literal(" left.")]
  }

  function MembersNodes(c: ChannelBlock, indent: nat): seq<Node> {
    if c.members == [] && c.presence == [] && c.departures == [] then []
    else
      [Line(indent),
       Elem("members", [],
            Each(MemberNodes(indent + 2), c.members) + Each(PresenceNodes(indent + 2), c.presence)
            + Each(DepartureNodes(indent + 2), c.departures) + [Line(indent)])]
  }

  /** `write_time`: an age within the last hour, else the absolute time. */
  function TimeAttr(createdAt: nat, now: nat): Attribute {
    var elapsed := if now > createdAt then now - createdAt else 0;
    if elapsed <= 3600 then
      Attribute("age",
        if elapsed < 60 then Decimal(elapsed) + "s" else if elapsed < 3600 then Decimal(elapsed / 60) + "m" else "1h")
    else Attribute("time", Decimal(createdAt))
  }

  function Handles(names: seq<string>): seq<string> { seq(|names|, i requires 0 <= i < |names| => Handle(names[i])) }

  function MessageAttrs(m: MessageRow, now: nat): seq<Attribute> {
    [Attribute("from", Handle(m.from)), Attribute("id", ShortId(m.id))]
    + (if m.recipients == [] then [] else [Attribute("for", Join(Handles(m.recipients), " "))])
    + Opt("attachment-dir", m.attachmentDir) + [TimeAttr(m.createdAt, now)]
  }

  function BodyNodes(body: string, id: string, indent: nat): seq<Node> {
    var (shown, truncated) := TruncateWords(body, CHAT_RENDER_WORD_LIMIT);
    [Escaped(shown)]
    + (if truncated
       then [Line(indent), Literal("[message truncated; run "), Literal("`mosaico channel read --id "),
             Escaped(ShortId(id)), Literal("`]")]
       else [])
  }

  function MessageNodes(indent: nat, now: nat): MessageRow -> seq<Node> {
    (m: MessageRow) =>
      [Line(indent), Elem("message", MessageAttrs(m, now), BodyNodes(m.body, m.id, indent + 2))]
      + (if m.mention && m.needsReplyNudge
         then [Line(indent), Literal("Follow up on "), Escaped(ShortId(m.id)),
               Literal(": reply for substantive "), Literal("context or react for an ACK.")]
         else [])
  }

  function MessagesNodes(c: ChannelBlock, indent: nat, now: nat): seq<Node> {
    if c.messages == [] && c.omitted == 0 then []
    else
      [Line(indent),
       Elem("chatter", [],
            (if c.omitted > 0
             then [Line(indent + 2),
                   Empty("omitted", [Attribute("count", Decimal(c.omitted)), Attribute("window", "last 4h")])]
             else [])
            + Each(MessageNodes(indent + 2, now), c.messages) + [Line(indent)])]
  }

  function ChannelAttrs(c: ChannelBlock): seq<Attribute> {
    [Attribute("name", c.path)] + Opt("about", c.about)
    + (if c.agentCount.Some? then [Attribute("agents", Decimal(c.agentCount.value))] else [])
    + (if c.lastActive.Some? then [Attribute("last-active", c.lastActive.value)] else [])
  }

  function ChannelNodes(c: ChannelBlock, indent: nat, now: nat): seq<Node>
    decreases c, 1
  {
    [Line(indent),
     if c.IsCompact() then Empty("channel", ChannelAttrs(c))
     else Elem("channel", ChannelAttrs(c),
               MembersNodes(c, indent + 2) + MessagesNodes(c, indent + 2, now)
               + EachChannel(c.children, indent + 2, now) + [Line(indent)])]
  }

  function EachChannel(cs: seq<ChannelBlock>, indent: nat, now: nat): seq<Node>
    decreases cs, 0
  {
    if cs == [] then [] else ChannelNodes(cs[0], indent, now) + EachChannel(cs[1..], indent, now)
  }

  function WorkspaceNodes(now: nat): WorkspaceView -> seq<Node> {
    (w: WorkspaceView) =>
      (if w.root.Some? then ChannelNodes(w.root.value, 4, now) else []) + EachChannel(w.channels, 4, now)
  }

  predicate HasChannel(w: WorkspaceView) { w.root.Some? || w.channels != [] }

  predicate AnyChannel(ws: seq<WorkspaceView>) { exists i | 0 <= i < |ws| :: HasChannel(ws[i]) }

  function ChannelsNodes(workspaces: Option<seq<WorkspaceView>>, now: nat): seq<Node> {
    if workspaces.None? || !AnyChannel(workspaces.value) then []
    else [Line(2), Elem("channels", [], Each(WorkspaceNodes(now), workspaces.value) + [Line(2)])]
  }

  function MentionNodes(row: ImportantRow): seq<Node> {
    [Line(4), Empty("mention", [Attribute("channel", row.channelRef), Attribute("message_id", ShortId(row.messageId))])]
  }

  function ImportantNodes(rows: seq<ImportantRow>): seq<Node> {
    if rows == [] then [] else [Line(2), Elem("important", [], Each(MentionNodes, rows) + [Line(2)])]
  }

  function AtEach(names: seq<string>): seq<string> { seq(|names|, i requires 0 <= i < |names| => "@" + names[i]) }

  function ReactionNodes(row: ReactionRow): seq<Node> {
    [Line(4), Escaped(Join(AtEach(row.reactors), " ")), Literal(" "), Escaped(row.emoji),
     Literal(" on your message \""), Escaped(row.targetSnippet), Literal("\" ("), Escaped(row.age), Literal(")")]
  }

  function ReactionsNodes(rows: seq<ReactionRow>, omitted: nat): seq<Node> {
    if rows == [] && omitted == 0 then []
    else
      [Line(2),
       Elem("reactions", [],
            Each(ReactionNodes, rows)
            + (if omitted > 0 then [Line(4), Empty("omitted", [Attribute("count", Decimal(omitted))])] else [])
            + [Line(2)])]
  }

  function WarningNodes(text: string): seq<Node> { [Line(4), Elem("warning", [], [Escaped(text)])] }

  function WarningsNodes(rows: seq<string>): seq<Node> {
    if rows == [] then [] else [Line(2), Elem("warnings", [], Each(WarningNodes, rows) + [Line(2)])]
  }

  function NoticeNodes(workspace: string): seq<Node> {
    [Line(2),
     Elem("no-new-activity", [Attribute("workspace", workspace)],
          [Literal("\n    Nothing new since your last "), Literal("check. The fabric surfaces only "),
           Literal("what changed \U{2014} your channels, "), Literal("members, and messages are "),
           Literal("unchanged, not gone.\n  ")])]
  }

  function GuideNodes(shown: bool): seq<Node> {
    if shown then [Line(2), Elem("notice", [], [Escaped(COORDINATION_GUIDE_REMINDER)])] else []
  }

  function Sections(v: FabricView): seq<Node> {
    SelfNodes(v.selfRow) + HostsNodes(v.hosts) + ChannelsNodes(v.workspaces, v.now) + ImportantNodes(v.important)
    + ReactionsNodes(v.reactions, v.reactionsOmitted) + WarningsNodes(v.warnings) + Each(NoticeNodes, v.notices)
    + GuideNodes(v.coordinationGuideReminder)
  }

  /** The whole document. */
  function Doc(v: FabricView): Node { Elem("mosaico", [], Sections(v) + [Literal("\n")]) }
}
