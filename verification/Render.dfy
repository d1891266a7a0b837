/** The printer of `src/fabric_context/render.rs`, `render/activity.rs` and `src/agent_xml.rs`: every function
    appends to one shared buffer, piece by piece as `write!` does. */
module Render {
  import opened Order
  import opened Chars
  import opened Fabric
  import opened Xml
  import opened Document
  import opened DocumentLaws

  import DocumentReader
  import DocumentSections

  /** The `String` the functions append to. */
  class Buffer {
    var text: string

    constructor (text: string)
      ensures this.text == text
    {
      this.text := text;
    }

    method PushStr(s: string)
      modifies this
      ensures text == old(text) + s
    {
      text := text + s;
    }

    /** A new line, indented. */
    method PushLine(indent: nat)
      modifies this
      ensures text == PutNode(old(text), Line(indent))
    {
      PushStr("\n" + Spaces(indent));
    }

    method PushText(s: string)
      modifies this
      ensures text == PutNode(old(text), Escaped(s))
    {
      PushStr(Text(s));
    }

    method PushLiteral(s: string)
      modifies this
      ensures text == PutNode(old(text), Literal(s))
    {
      PushStr(s);
    }

    method PushAttr(key: string, value: string)
      modifies this
      ensures text == PutAttrs(old(text), [Attribute(key, value)])
    {
      OneAttr(text, Attribute(key, value));
      PushStr(" " + key + "=\"" + Attr(value) + "\"");
    }

    /** A value written without an escape, because it needs none. */
    method PushPlainAttr(key: string, value: string)
      requires Attr(value) == value
      modifies this
      ensures text == PutAttrs(old(text), [Attribute(key, value)])
    {
      OneAttr(text, Attribute(key, value));
      PushStr(" " + key + "=\"" + value + "\"");
    }

    /** A name written with one leading '@'. */
    method PushHandle(key: string, name: string)
      modifies this
      ensures text == PutAttrs(old(text), [Attribute(key, Handle(name))])
    {
      OneAttr(text, Attribute(key, Handle(name)));
      EscapesByChar('@', TrimStart(name, '@'));
      PushStr(" " + key + "=\"" + ("@" + Attr(TrimStart(name, '@'))) + "\"");
    }

    /** An attribute written only when its value is not empty. */
    method PushOpt(key: string, value: string)
      modifies this
      ensures text == PutAttrs(old(text), Opt(key, value))
    {
      if value != "" { PushAttr(key, value); }
    }
  }

  lemma OneAttr(out: string, a: Attribute)
    ensures PutAttrs(out, [a]) == out + WriteAttr(a)
  {
    assert [a][1..] == [];
  }

  lemma PutTwo(out: string, a: Node, b: Node)
    ensures PutNodes(out, [a, b]) == PutNode(PutNode(out, a), b)
    ensures PutNodes(out, [a]) == PutNode(out, a)
  {
    hide PutNode;
    assert [a, b][1..] == [b] && [b][1..] == [] && [a][1..] == [];
    assert PutNodes(PutNode(out, a), [b]) == PutNodes(PutNode(PutNode(out, a), b), []);
  }

  lemma {:induction false} EachSnoc<T>(out: string, f: T -> seq<Node>, rows: seq<T>, i: nat)
    requires i < |rows|
    ensures Each(f, rows[..i + 1]) == Each(f, rows[..i]) + f(rows[i])
    ensures PutNodes(out, Each(f, rows[..i + 1])) == PutNodes(PutNodes(out, Each(f, rows[..i])), f(rows[i]))
    decreases |rows|
  {
    hide PutNodes;
    if i == 0 {
      assert rows[..1] == [rows[0]] && rows[..0] == [] && rows[..1][1..] == [];
      assert Each(f, [rows[0]]) == f(rows[0]) + [] == f(rows[0]);
      assert [] + f(rows[0]) == f(rows[0]);
    } else {
      EachSnoc(out, f, rows[1..], i - 1);
      assert rows[..i + 1][1..] == rows[1..][..i] && rows[..i][1..] == rows[1..][..i - 1];
      assert Each(f, rows[..i + 1]) == f(rows[0]) + Each(f, rows[1..][..i]);
      assert f(rows[0]) + (Each(f, rows[1..][..i - 1]) + f(rows[i]))
             == f(rows[0]) + Each(f, rows[1..][..i - 1]) + f(rows[i]);
    }
    PutNodesAppend(out, Each(f, rows[..i]), f(rows[i]));
  }

  // ---------------------------------------------------------- values that need no escape

  ghost predicate Unescaped(s: string) { forall i | 0 <= i < |s| :: EntityOf(s[i]).None? }

  lemma {:induction false} AttrUnescaped(s: string)
    requires Unescaped(s)
    ensures Attr(s) == s
  {
    EscapesByChar('x', "");
    if s != "" {
      assert s == [s[0]] + s[1..];
      EscapesByChar(s[0], s[1..]);
      AttrUnescaped(s[1..]);
    }
  }

  lemma StateUnescaped(state: SessionState)
    ensures Attr(state.AsStr()) == state.AsStr()
  {
    AttrUnescaped(state.AsStr());
  }

  lemma DecimalUnescaped(n: nat, unit: string)
    requires unit == "" || unit == "s" || unit == "m"
    ensures Attr(Decimal(n) + unit) == Decimal(n) + unit
  {
    AttrUnescaped(Decimal(n) + unit);
  }

  lemma FlagUnescaped(b: bool)
    ensures Attr(if b then "on" else "off") == if b then "on" else "off"
  {
    AttrUnescaped(if b then "on" else "off");
  }

  lemma TrueUnescaped()
    ensures Attr("true") == "true"
  {
    AttrUnescaped("true");
  }

  lemma HourUnescaped()
    ensures Attr("1h") == "1h"
  {
    AttrUnescaped("1h");
  }

  lemma WindowUnescaped()
    ensures Attr("last 4h") == "last 4h"
  {
    AttrUnescaped("last 4h");
  }

  // ------------------------------------------------------------------------ the printer

  method RenderOrigin(out: Buffer, host: string, workspace: string, branch: string)
    modifies out
    ensures out.text == PutAttrs(old(out.text), Origin(host, workspace, branch))
  {
    PutAttrsAppend(out.text, Opt("host", host), Opt("workspace", workspace));
    PutAttrsAppend(out.text, Opt("host", host) + Opt("workspace", workspace), Opt("branch", branch));
    hide PutAttrs, Opt;
    out.PushOpt("host", host);
    out.PushOpt("workspace", workspace);
    out.PushOpt("branch", branch);
  }

  method RenderSelf(out: Buffer, row: Option<SelfRow>)
    modifies out
    ensures out.text == PutNodes(old(out.text), SelfNodes(row))
  {
    if row.None? { return; }
    var r := row.value;
    ghost var start := out.text;
    ghost var tag := Empty("self", SelfAttrs(r));
    hide PutAttrs, Opt, SelfAttrs, Handle, Attr;
    out.PushLine(2);
    RenderSelfTag(out, r);
    assert out.text == PutNode(PutNode(start, Line(2)), tag);
    PutTwo(start, Line(2), tag);
    if r.hint != "" {
      ghost var notice := Elem("notice", [], [Escaped(r.hint)]);
      PutNodesAppend(start, [Line(2), tag], [Line(2), notice]);
      PutTwo(PutNodes(start, [Line(2), tag]), Line(2), notice);
      out.PushLine(2);
      RenderLeaf(out, "notice", r.hint);
    } else {
      assert SelfNodes(row) == [Line(2), tag];
    }
  }

  /** An element holding one string. */
  method RenderLeaf(out: Buffer, name: string, s: string)
    modifies out
    ensures out.text == PutNode(old(out.text), Elem(name, [], [Escaped(s)]))
  {
    out.PushStr("<" + name);
    out.PushStr(">");
    PutTwo(out.text, Escaped(s), Escaped(s));
    out.PushText(s);
    out.PushStr("</" + name + ">");
  }

  method RenderSelfTag(out: Buffer, r: SelfRow)
    modifies out
    ensures out.text == PutNode(old(out.text), Empty("self", SelfAttrs(r)))
  {
    out.PushStr("<" + "self");
    ghost var start := out.text;
    ghost var head := SelfHead(r);
    hide PutAttrs, Opt, SelfHead;
    RenderSelfHead(out, r);
    PutAttrsAppend(start, head, Opt("workspace", r.workspace));
    PutAttrsAppend(start, head + Opt("workspace", r.workspace), Opt("branch", r.branch));
    PutAttrsAppend(start, head + Opt("workspace", r.workspace) + Opt("branch", r.branch), Opt("title", r.title));
    SelfAttrsParts(r);
    out.PushOpt("workspace", r.workspace);
    out.PushOpt("branch", r.branch);
    out.PushOpt("title", r.title);
    out.PushStr(" />");
  }

  ghost function SelfHead(r: SelfRow): seq<Attribute> {
    [Attribute("name", Handle(r.name))] + [Attribute("host", r.host)]
    + [Attribute("headless", if r.headless then "on" else "off")]
    + if r.unhosted then [Attribute("unhosted", "true")] else []
  }

  lemma SelfAttrsParts(r: SelfRow)
    ensures SelfAttrs(r) == SelfHead(r) + Opt("workspace", r.workspace) + Opt("branch", r.branch)
            + Opt("title", r.title)
  {
    hide Opt, Handle;
  }

  method RenderSelfHead(out: Buffer, r: SelfRow)
    modifies out
    ensures out.text == PutAttrs(old(out.text), SelfHead(r))
  {
    FlagUnescaped(r.headless);
    TrueUnescaped();
    ghost var start := out.text;
    hide PutAttrs, Handle, Attr;
    ghost var a, b := [Attribute("name", Handle(r.name))], [Attribute("host", r.host)];
    ghost var c := [Attribute("headless", if r.headless then "on" else "off")];
    PutAttrsAppend(start, a, b);
    PutAttrsAppend(start, a + b, c);
    PutAttrsAppend(start, a + b + c, if r.unhosted then [Attribute("unhosted", "true")] else []);
    out.PushHandle("name", r.name);
    out.PushAttr("host", r.host);
    out.PushPlainAttr("headless", if r.headless then "on" else "off");
    if r.unhosted { out.PushPlainAttr("unhosted", "true"); } else { NoAttrs(out.text); }
  }

  lemma NoAttrs(out: string)
    ensures PutAttrs(out, []) == out && PutNodes(out, []) == out
  {
  }

  method RenderAgent(out: Buffer, agent: AgentRow)
    modifies out
    ensures out.text == PutNodes(old(out.text), AgentNodes(agent))
  {
    ghost var start := out.text;
    ghost var a, b := [Attribute("ref", agent.reference)], Opt("about", agent.about);
    PutTwo(start, Line(8), Empty("agent", a + b));
    hide PutAttrs, PutNodes, Opt;
    out.PushLine(8);
    out.PushStr("<" + "agent");
    PutAttrsAppend(out.text, a, b);
    out.PushAttr("ref", agent.reference);
    out.PushOpt("about", agent.about);
    out.PushStr(" />");
  }

  method RenderHost(out: Buffer, host: HostRow)
    modifies out
    ensures out.text == PutNodes(old(out.text), HostNodes(host))
  {
    ghost var start := out.text;
    ghost var node := HostNodes(host)[1];
    PutTwo(start, Line(4), node);
    out.PushLine(4);
    out.PushStr("<" + "host");
    hide PutNodes, PutAttrs, AgentNodes, RootNodes, Each;
    out.PushAttr("name", host.name);
    out.PushStr(">");
    ghost var inside := out.text;
    ghost var roots := if host.roots == [] then [] else [Literal("\n      Workspaces:")] + Each(RootNodes, host.roots);
    ghost var agents := if host.agents == [] then []
                        else [Line(6), Elem("agents", [], Each(AgentNodes, host.agents) + [Line(6)])];
    PutNodesAppend(inside, roots, agents);
    PutNodesAppend(inside, roots + agents, [Line(4)]);
    NoAttrs(out.text);
    RenderRoots(out, host.roots);
    NoAttrs(out.text);
    RenderAgents(out, host.agents);
    PutTwo(out.text, Line(4), Line(4));
    out.PushLine(4);
    out.PushStr("</" + "host" + ">");
  }

  method RenderRoots(out: Buffer, roots: seq<string>)
    modifies out
    ensures out.text == PutNodes(old(out.text),
                                 if roots == [] then [] else [Literal("\n      Workspaces:")] + Each(RootNodes, roots))
  {
    if roots == [] { return; }
    ghost var start := out.text;
    PutNodesAppend(start, [Literal("\n      Workspaces:")], Each(RootNodes, roots));
    PutTwo(start, Literal("\n      Workspaces:"), Line(0));
    hide PutNodes;
    out.PushLiteral("\n      Workspaces:");
    ghost var from := out.text;
    NoAttrs(from);
    assert roots[..0] == [];
    for i := 0 to |roots|
      invariant out.text == PutNodes(from, Each(RootNodes, roots[..i]))
    {
      EachSnoc(from, RootNodes, roots, i);
      PutTwo(out.text, Literal("\n      * "), Escaped(roots[i]));
      out.PushLiteral("\n      * ");
      out.PushText(roots[i]);
    }
    assert roots[..|roots|] == roots;
  }

  /** The wrapped list every section below ends with: the new line of the end tag, and the end tag. */
  method CloseSection(out: Buffer, ghost start: string, name: string, ghost kids: seq<Node>, indent: nat)
    requires out.text == PutNodes(PutNode(start, Line(indent)) + ("<" + name) + ">", kids)
    modifies out
    ensures out.text == PutNodes(start, [Line(indent), Elem(name, [], kids + [Line(indent)])])
  {
    PutTwo(start, Line(indent), Elem(name, [], kids + [Line(indent)]));
    NoAttrs(PutNode(start, Line(indent)) + ("<" + name));
    PutNodesAppend(PutNode(start, Line(indent)) + ("<" + name) + ">", kids, [Line(indent)]);
    PutTwo(out.text, Line(indent), Line(indent));
    out.PushLine(indent);
    out.PushStr("</" + name + ">");
  }

  method OpenSection(out: Buffer, name: string, indent: nat)
    modifies out
    ensures out.text == PutNode(old(out.text), Line(indent)) + ("<" + name) + ">"
  {
    out.PushLine(indent);
    out.PushStr("<" + name);
    out.PushStr(">");
  }

  method RenderAgents(out: Buffer, agents: seq<AgentRow>)
    modifies out
    ensures out.text == PutNodes(old(out.text), if agents == [] then []
                                                else
                                                  [Line(6), Elem("agents", [], Each(AgentNodes, agents) + [Line(6)])])
  {
    NoAttrs(out.text);
    if agents == [] { return; }
    ghost var start := out.text;
    OpenSection(out, "agents", 6);
    ghost var from := out.text;
    hide PutNodes, PutNode, AgentNodes;
    NoAttrs(from);
    assert agents[..0] == [];
    for i := 0 to |agents|
      invariant out.text == PutNodes(from, Each(AgentNodes, agents[..i]))
    {
      EachSnoc(from, AgentNodes, agents, i);
      RenderAgent(out, agents[i]);
    }
    assert agents[..|agents|] == agents;
    CloseSection(out, start, "agents", Each(AgentNodes, agents), 6);
  }

  method RenderHosts(out: Buffer, hosts: Option<seq<HostRow>>)
    modifies out
    ensures out.text == PutNodes(old(out.text), HostsNodes(hosts))
  {
    NoAttrs(out.text);
    if hosts.None? || hosts.value == [] { return; }
    ghost var start := out.text;
    OpenSection(out, "hosts", 2);
    ghost var from := out.text;
    var rows := hosts.value;
    hide PutNodes, HostNodes, PutNode;
    NoAttrs(from);
    assert rows[..0] == [];
    for i := 0 to |rows|
      invariant out.text == PutNodes(from, Each(HostNodes, rows[..i]))
    {
      EachSnoc(from, HostNodes, rows, i);
      RenderHost(out, rows[i]);
    }
    assert rows[..|rows|] == rows;
    CloseSection(out, start, "hosts", Each(HostNodes, rows), 2);
  }

  method RenderMember(out: Buffer, m: MemberRow, indent: nat)
    modifies out
    ensures out.text == PutNodes(old(out.text), MemberNodes(indent)(m))
  {
    ghost var start := out.text;
    var tag := if m.kind.Agent? then "agent" else "human";
    PutTwo(start, Line(indent), Empty(tag, MemberAttrs(m)));
    if m.state.Some? { StateUnescaped(m.state.value); }
    out.PushLine(indent);
    out.PushStr("<" + tag);
    ghost var from := out.text;
    ghost var a, b := [Attribute("name", Handle(m.name))], Origin(m.host, m.workspace, m.branch);
    ghost var c := if m.state.Some? then [Attribute("state", m.state.value.AsStr())] else [];
    hide PutAttrs, PutNodes, Opt, Handle, Origin, Attr;
    AttrsAppend5(from, a, b, c, Opt("status", m.status), Opt("since", m.since));
    out.PushHandle("name", m.name);
    RenderOrigin(out, m.host, m.workspace, m.branch);
    if m.state.Some? { out.PushPlainAttr("state", m.state.value.AsStr()); } else { NoAttrs(out.text); }
    out.PushOpt("status", m.status);
    out.PushOpt("since", m.since);
    out.PushStr(" />");
  }

  lemma AttrsAppend5(out: string, a: seq<Attribute>, b: seq<Attribute>, c: seq<Attribute>, d: seq<Attribute>,
                     e: seq<Attribute>)
    ensures PutAttrs(out, a + b + c + d + e) == PutAttrs(PutAttrs(PutAttrs(PutAttrs(PutAttrs(out, a), b), c), d), e)
  {
    hide PutAttrs;
    PutAttrsAppend(out, a, b);
    PutAttrsAppend(out, a + b, c);
    PutAttrsAppend(out, a + b + c, d);
    PutAttrsAppend(out, a + b + c + d, e);
  }

  method RenderFailure(out: Buffer, name: string, f: NativeFailureRow, indent: nat)
    modifies out
    ensures out.text == PutNodes(old(out.text),
      [Line(indent), Empty("native-outcome", [Attribute("name", Handle(name)), Attribute("outcome", f.outcome),
                                              Attribute("text", f.message), Attribute("since", f.since)])])
  {
    ghost var a, b := [Attribute("name", Handle(name))], [Attribute("outcome", f.outcome)];
    ghost var c, d := [Attribute("text", f.message)], [Attribute("since", f.since)];
    PutTwo(out.text, Line(indent), Empty("native-outcome", a + b + c + d));
    out.PushLine(indent);
    out.PushStr("<" + "native-outcome");
    hide PutAttrs, PutNodes, Handle, Attr;
    AttrsAppend5(out.text, a, b, c, d, []);
    assert a + b + c + d + [] == a + b + c + d;
    assert a + b + c + d == [Attribute("name", Handle(name)), Attribute("outcome", f.outcome),
                             Attribute("text", f.message), Attribute("since", f.since)];
    out.PushHandle("name", name);
    out.PushAttr("outcome", f.outcome);
    out.PushAttr("text", f.message);
    out.PushAttr("since", f.since);
    NoAttrs(out.text);
    out.PushStr(" />");
  }

  method RenderPresenceTag(out: Buffer, p: PresenceRow, indent: nat)
    modifies out
    ensures out.text == PutNodes(old(out.text), [Line(indent), Empty("agent", PresenceAttrs(p))])
  {
    PutTwo(out.text, Line(indent), Empty("agent", PresenceAttrs(p)));
    StateUnescaped(p.state);
    out.PushLine(indent);
    out.PushStr("<" + "agent");
    hide PutAttrs, PutNodes, Opt, Handle, Origin, Attr;
    AttrsAppend5(out.text, [Attribute("name", Handle(p.name))], Origin(p.host, p.workspace, p.branch),
                 [Attribute("state", p.state.AsStr())], Opt("status", p.status), [Attribute("since", p.since)]);
    out.PushHandle("name", p.name);
    RenderOrigin(out, p.host, p.workspace, p.branch);
    out.PushPlainAttr("state", p.state.AsStr());
    out.PushOpt("status", p.status);
    out.PushAttr("since", p.since);
    out.PushStr(" />");
  }

  method RenderPresence(out: Buffer, p: PresenceRow, indent: nat)
    modifies out
    ensures out.text == PutNodes(old(out.text), PresenceNodes(indent)(p))
  {
    ghost var start := out.text;
    ghost var tag := [Line(indent), Empty("agent", PresenceAttrs(p))];
    hide PutNodes, PresenceAttrs;
    RenderPresenceTag(out, p, indent);
    if p.nativeFailure.Some? {
      ghost var f := p.nativeFailure.value;
      PutNodesAppend(start, tag,
                     [Line(indent),
                      Empty("native-outcome",
                            [Attribute("name", Handle(p.name)), Attribute("outcome", f.outcome),
                             Attribute("text", f.message), Attribute("since", f.since)])]);
      RenderFailure(out, p.name, p.nativeFailure.value, indent);
    } else {
      assert PresenceNodes(indent)(p) == tag;
    }
  }

  method RenderDeparture(out: Buffer, name: string, indent: nat)
    modifies out
    ensures out.text == PutNodes(old(out.text), DepartureNodes(indent)(name))
  {
    ghost var start := out.text;
    ghost var head, tail := [Line(indent), Literal("@")], [Escaped(TrimStart(name, '@')), Literal(" left.")];
    assert DepartureNodes(indent)(name) == head + tail;
    PutNodesAppend(start, head, tail);
    PutTwo(start, Line(indent), Literal("@"));
    PutTwo(PutNodes(start, head), Escaped(TrimStart(name, '@')), Literal(" left."));
    hide PutNodes;
    out.PushLine(indent);
    out.PushLiteral("@");
    out.PushText(TrimStart(name, '@'));
    out.PushLiteral(" left.");
  }

  method RenderMembers(out: Buffer, c: ChannelBlock, indent: nat)
    modifies out
    ensures out.text == PutNodes(old(out.text), MembersNodes(c, indent))
  {
    NoAttrs(out.text);
    if c.members == [] && c.presence == [] && c.departures == [] { return; }
    ghost var start := out.text;
    OpenSection(out, "members", indent);
    ghost var from := out.text;
    ghost var ms, ps := Each(MemberNodes(indent + 2), c.members), Each(PresenceNodes(indent + 2), c.presence);
    ghost var ds := Each(DepartureNodes(indent + 2), c.departures);
    PutNodesAppend(from, ms, ps);
    PutNodesAppend(from, ms + ps, ds);
    hide PutNodes, PutNode, MemberNodes, PresenceNodes, DepartureNodes;
    RenderMemberRows(out, c.members, indent + 2);
    RenderPresenceRows(out, c.presence, indent + 2);
    RenderDepartureRows(out, c.departures, indent + 2);
    CloseSection(out, start, "members", ms + ps + ds, indent);
  }

  method RenderMemberRows(out: Buffer, rows: seq<MemberRow>, indent: nat)
    modifies out
    ensures out.text == PutNodes(old(out.text), Each(MemberNodes(indent), rows))
  {
    ghost var from := out.text;
    hide PutNodes, MemberNodes;
    NoAttrs(from);
    assert rows[..0] == [];
    for i := 0 to |rows|
      invariant out.text == PutNodes(from, Each(MemberNodes(indent), rows[..i]))
    {
      EachSnoc(from, MemberNodes(indent), rows, i);
      RenderMember(out, rows[i], indent);
    }
    assert rows[..|rows|] == rows;
  }

  method RenderPresenceRows(out: Buffer, rows: seq<PresenceRow>, indent: nat)
    modifies out
    ensures out.text == PutNodes(old(out.text), Each(PresenceNodes(indent), rows))
  {
    ghost var from := out.text;
    hide PutNodes, PresenceNodes;
    NoAttrs(from);
    assert rows[..0] == [];
    for i := 0 to |rows|
      invariant out.text == PutNodes(from, Each(PresenceNodes(indent), rows[..i]))
    {
      EachSnoc(from, PresenceNodes(indent), rows, i);
      RenderPresence(out, rows[i], indent);
    }
    assert rows[..|rows|] == rows;
  }

  method RenderDepartureRows(out: Buffer, rows: seq<string>, indent: nat)
    modifies out
    ensures out.text == PutNodes(old(out.text), Each(DepartureNodes(indent), rows))
  {
    ghost var from := out.text;
    hide PutNodes, DepartureNodes;
    NoAttrs(from);
    assert rows[..0] == [];
    for i := 0 to |rows|
      invariant out.text == PutNodes(from, Each(DepartureNodes(indent), rows[..i]))
    {
      EachSnoc(from, DepartureNodes(indent), rows, i);
      RenderDeparture(out, rows[i], indent);
    }
    assert rows[..|rows|] == rows;
  }

  method WriteTime(out: Buffer, createdAt: nat, now: nat)
    modifies out
    ensures out.text == PutAttrs(old(out.text), [TimeAttr(createdAt, now)])
  {
    var elapsed := if now > createdAt then now - createdAt else 0;
    HourUnescaped();
    DecimalUnescaped(elapsed, "s");
    DecimalUnescaped(elapsed / 60, "m");
    DecimalUnescaped(createdAt, "");
    assert Decimal(createdAt) + "" == Decimal(createdAt);
    hide PutAttrs, Attr;
    if elapsed <= 3600 {
      var age := if elapsed < 60 then Decimal(elapsed) + "s"
                 else if elapsed < 3600 then Decimal(elapsed / 60) + "m"
                 else "1h";
      out.PushPlainAttr("age", age);
    } else {
      out.PushPlainAttr("time", Decimal(createdAt));
    }
  }

  method RenderMessageAttrs(out: Buffer, m: MessageRow, now: nat)
    modifies out
    ensures out.text == PutAttrs(old(out.text), MessageAttrs(m, now))
  {
    ghost var a, b := [Attribute("from", Handle(m.from))], [Attribute("id", ShortId(m.id))];
    ghost var c := if m.recipients == [] then [] else [Attribute("for", Join(Handles(m.recipients), " "))];
    hide PutAttrs, Opt, Handle, ShortId, Join, Handles, TimeAttr;
    AttrsAppend5(out.text, a, b, c, Opt("attachment-dir", m.attachmentDir), [TimeAttr(m.createdAt, now)]);
    assert MessageAttrs(m, now) == a + b + c + Opt("attachment-dir", m.attachmentDir) + [TimeAttr(m.createdAt, now)];
    out.PushHandle("from", m.from);
    out.PushAttr("id", ShortId(m.id));
    if m.recipients != [] { out.PushAttr("for", Join(Handles(m.recipients), " ")); } else { NoAttrs(out.text); }
    out.PushOpt("attachment-dir", m.attachmentDir);
    WriteTime(out, m.createdAt, now);
  }

  method RenderBody(out: Buffer, body: string, id: string, indent: nat)
    modifies out
    ensures out.text == PutNodes(old(out.text), BodyNodes(body, id, indent))
  {
    var (shown, truncated) := TruncateWords(body, CHAT_RENDER_WORD_LIMIT);
    ghost var start := out.text;
    hide TruncateWords, ShortId;
    out.PushText(shown);
    PutTwo(start, Escaped(shown), Line(0));
    if truncated {
      ghost var tail := [Line(indent), Literal("[message truncated; run "), Literal("`mosaico channel read --id "),
                         Escaped(ShortId(id)), Literal("`]")];
      PutNodesAppend(start, [Escaped(shown)], tail);
      PutFive(out.text, tail);
      out.PushLine(indent);
      out.PushLiteral("[message truncated; run ");
      out.PushLiteral("`mosaico channel read --id ");
      out.PushText(ShortId(id));
      out.PushLiteral("`]");
    } else {
      assert BodyNodes(body, id, indent) == [Escaped(shown)];
    }
  }

  lemma PutFour(out: string, ns: seq<Node>)
    requires |ns| == 4
    ensures PutNodes(out, ns) == PutNode(PutNode(PutNode(PutNode(out, ns[0]), ns[1]), ns[2]), ns[3])
  {
    hide PutNode, PutNodes;
    assert ns == [ns[0], ns[1]] + [ns[2], ns[3]];
    PutNodesAppend(out, [ns[0], ns[1]], [ns[2], ns[3]]);
    PutTwo(out, ns[0], ns[1]);
    PutTwo(PutNode(PutNode(out, ns[0]), ns[1]), ns[2], ns[3]);
  }

  lemma PutFive(out: string, ns: seq<Node>)
    requires |ns| == 5
    ensures PutNodes(out, ns) == PutNode(PutNode(PutNode(PutNode(PutNode(out, ns[0]), ns[1]), ns[2]), ns[3]), ns[4])
  {
    hide PutNode, PutNodes;
    assert ns == ns[..4] + [ns[4]];
    PutNodesAppend(out, ns[..4], [ns[4]]);
    PutFour(out, ns[..4]);
    PutTwo(PutNodes(out, ns[..4]), ns[4], ns[4]);
  }

  method WriteMessage(out: Buffer, m: MessageRow, indent: nat, now: nat)
    modifies out
    ensures out.text == PutNodes(old(out.text),
                                 [Line(indent),
                                  Elem("message", MessageAttrs(m, now), BodyNodes(m.body, m.id, indent + 2))])
  {
    PutTwo(out.text, Line(indent), Elem("message", MessageAttrs(m, now), BodyNodes(m.body, m.id, indent + 2)));
    out.PushLine(indent);
    out.PushStr("<" + "message");
    hide MessageAttrs, BodyNodes, PutAttrs, PutNodes;
    RenderMessageAttrs(out, m, now);
    out.PushStr(">");
    RenderBody(out, m.body, m.id, indent + 2);
    out.PushStr("</" + "message" + ">");
  }

  method RenderMessage(out: Buffer, m: MessageRow, indent: nat, now: nat)
    modifies out
    ensures out.text == PutNodes(old(out.text), MessageNodes(indent, now)(m))
  {
    ghost var start := out.text;
    ghost var node := [Line(indent), Elem("message", MessageAttrs(m, now), BodyNodes(m.body, m.id, indent + 2))];
    hide PutNodes, MessageAttrs, BodyNodes, ShortId, PutNode;
    WriteMessage(out, m, indent, now);
    if m.mention && m.needsReplyNudge {
      ghost var tail := [Line(indent), Literal("Follow up on "), Escaped(ShortId(m.id)),
                         Literal(": reply for substantive "), Literal("context or react for an ACK.")];
      PutNodesAppend(start, node, tail);
      PutFive(out.text, tail);
      out.PushLine(indent);
      out.PushLiteral("Follow up on ");
      out.PushText(ShortId(m.id));
      out.PushLiteral(": reply for substantive ");
      out.PushLiteral("context or react for an ACK.");
    } else {
      assert MessageNodes(indent, now)(m) == node;
    }
  }

  method RenderOmitted(out: Buffer, omitted: nat, indent: nat)
    modifies out
    ensures out.text == PutNodes(old(out.text), if omitted > 0
        then [Line(indent), Empty("omitted", [Attribute("count", Decimal(omitted)), Attribute("window", "last 4h")])]
        else [])
  {
    NoAttrs(out.text);
    if omitted > 0 {
      ghost var a, b := [Attribute("count", Decimal(omitted))], [Attribute("window", "last 4h")];
      PutTwo(out.text, Line(indent), Empty("omitted", a + b));
      out.PushLine(indent);
      out.PushStr("<" + "omitted");
      DecimalUnescaped(omitted, "");
      assert Decimal(omitted) + "" == Decimal(omitted);
      WindowUnescaped();
      hide PutAttrs, PutNodes, Attr, Decimal;
      PutAttrsAppend(out.text, a, b);
      assert a + b == [Attribute("count", Decimal(omitted)), Attribute("window", "last 4h")];
      out.PushPlainAttr("count", Decimal(omitted));
      out.PushPlainAttr("window", "last 4h");
      out.PushStr(" />");
    }
  }

  method RenderMessages(out: Buffer, c: ChannelBlock, indent: nat, now: nat)
    modifies out
    ensures out.text == PutNodes(old(out.text), MessagesNodes(c, indent, now))
  {
    NoAttrs(out.text);
    if c.messages == [] && c.omitted == 0 { return; }
    ghost var start := out.text;
    OpenSection(out, "chatter", indent);
    ghost var from := out.text;
    ghost var omitted := if c.omitted > 0
                         then [Line(indent + 2),
                               Empty("omitted",
                                     [Attribute("count", Decimal(c.omitted)), Attribute("window", "last 4h")])]
                         else [];
    hide PutNodes, PutNode, MessageNodes, Decimal;
    RenderOmitted(out, c.omitted, indent + 2);
    ghost var mid := out.text;
    PutNodesAppend(from, omitted, Each(MessageNodes(indent + 2, now), c.messages));
    NoAttrs(mid);
    assert c.messages[..0] == [];
    for i := 0 to |c.messages|
      invariant out.text == PutNodes(mid, Each(MessageNodes(indent + 2, now), c.messages[..i]))
    {
      EachSnoc(mid, MessageNodes(indent + 2, now), c.messages, i);
      RenderMessage(out, c.messages[i], indent + 2, now);
    }
    assert c.messages[..|c.messages|] == c.messages;
    CloseSection(out, start, "chatter", omitted + Each(MessageNodes(indent + 2, now), c.messages), indent);
  }

  method RenderChannelTag(out: Buffer, c: ChannelBlock)
    modifies out
    ensures out.text == PutAttrs(old(out.text), ChannelAttrs(c))
  {
    ghost var a, b := [Attribute("name", c.path)], Opt("about", c.about);
    ghost var n := if c.agentCount.Some? then [Attribute("agents", Decimal(c.agentCount.value))] else [];
    ghost var l := if c.lastActive.Some? then [Attribute("last-active", c.lastActive.value)] else [];
    if c.agentCount.Some? {
      DecimalUnescaped(c.agentCount.value, "");
      assert Decimal(c.agentCount.value) + "" == Decimal(c.agentCount.value);
    }
    hide PutAttrs, Opt, Decimal, Attr;
    PutAttrsAppend(out.text, a, b);
    PutAttrsAppend(out.text, a + b, n);
    PutAttrsAppend(out.text, a + b + n, l);
    out.PushAttr("name", c.path);
    out.PushOpt("about", c.about);
    if c.agentCount.Some? { out.PushPlainAttr("agents", Decimal(c.agentCount.value)); } else { NoAttrs(out.text); }
    if c.lastActive.Some? { out.PushAttr("last-active", c.lastActive.value); } else { NoAttrs(out.text); }
  }

  method RenderChannel(out: Buffer, c: ChannelBlock, indent: nat, now: nat)
    modifies out
    ensures out.text == PutNodes(old(out.text), ChannelNodes(c, indent, now))
    decreases c, 1
  {
    PutTwo(out.text, Line(indent), ChannelNodes(c, indent, now)[1]);
    out.PushLine(indent);
    out.PushStr("<" + "channel");
    hide PutAttrs, PutNodes, ChannelAttrs, MembersNodes, MessagesNodes, EachChannel;
    RenderChannelTag(out, c);
    if c.IsCompact() {
      out.PushStr(" />");
      return;
    }
    out.PushStr(">");
    ghost var from := out.text;
    ghost var m, g := MembersNodes(c, indent + 2), MessagesNodes(c, indent + 2, now);
    ghost var e := EachChannel(c.children, indent + 2, now);
    PutNodesAppend(from, m, g);
    PutNodesAppend(from, m + g, e);
    PutNodesAppend(from, m + g + e, [Line(indent)]);
    RenderMembers(out, c, indent + 2);
    RenderMessages(out, c, indent + 2, now);
    RenderChannelList(out, c.children, indent + 2, now);
    PutTwo(out.text, Line(indent), Line(indent));
    out.PushLine(indent);
    out.PushStr("</" + "channel" + ">");
  }

  /** The loop over children, and over the channels of a workspace. */
  method RenderChannelList(out: Buffer, cs: seq<ChannelBlock>, indent: nat, now: nat)
    modifies out
    ensures out.text == PutNodes(old(out.text), EachChannel(cs, indent, now))
    decreases cs, 0
  {
    ghost var from := out.text;
    hide PutNodes, ChannelNodes;
    NoAttrs(from);
    for i := 0 to |cs|
      invariant PutNodes(out.text, EachChannel(cs[i..], indent, now)) == PutNodes(from, EachChannel(cs, indent, now))
    {
      assert cs[i..][0] == cs[i] && cs[i..][1..] == cs[i + 1..];
      PutNodesAppend(out.text, ChannelNodes(cs[i], indent, now), EachChannel(cs[i + 1..], indent, now));
      RenderChannel(out, cs[i], indent, now);
    }
    NoAttrs(out.text);
    assert cs[|cs|..] == [];
  }

  method RenderWorkspace(out: Buffer, w: WorkspaceView, now: nat)
    modifies out
    ensures out.text == PutNodes(old(out.text), WorkspaceNodes(now)(w))
  {
    ghost var start := out.text;
    ghost var root := if w.root.Some? then ChannelNodes(w.root.value, 4, now) else [];
    hide PutNodes, ChannelNodes, EachChannel;
    NoAttrs(start);
    PutNodesAppend(start, root, EachChannel(w.channels, 4, now));
    if w.root.Some? { RenderChannel(out, w.root.value, 4, now); }
    RenderChannelList(out, w.channels, 4, now);
  }

  method RenderChannels(out: Buffer, workspaces: Option<seq<WorkspaceView>>, now: nat)
    modifies out
    ensures out.text == PutNodes(old(out.text), ChannelsNodes(workspaces, now))
  {
    NoAttrs(out.text);
    if workspaces.None? || !AnyChannel(workspaces.value) { return; }
    ghost var start := out.text;
    OpenSection(out, "channels", 2);
    ghost var from := out.text;
    var ws := workspaces.value;
    hide PutNodes, PutNode, WorkspaceNodes;
    NoAttrs(from);
    assert ws[..0] == [];
    for i := 0 to |ws|
      invariant out.text == PutNodes(from, Each(WorkspaceNodes(now), ws[..i]))
    {
      EachSnoc(from, WorkspaceNodes(now), ws, i);
      RenderWorkspace(out, ws[i], now);
    }
    assert ws[..|ws|] == ws;
    CloseSection(out, start, "channels", Each(WorkspaceNodes(now), ws), 2);
  }

  method RenderMention(out: Buffer, row: ImportantRow)
    modifies out
    ensures out.text == PutNodes(old(out.text), MentionNodes(row))
  {
    ghost var a, b := [Attribute("channel", row.channelRef)], [Attribute("message_id", ShortId(row.messageId))];
    PutTwo(out.text, Line(4), Empty("mention", a + b));
    out.PushLine(4);
    out.PushStr("<" + "mention");
    hide PutAttrs, PutNodes, ShortId;
    PutAttrsAppend(out.text, a, b);
    assert a + b == [Attribute("channel", row.channelRef), Attribute("message_id", ShortId(row.messageId))];
    out.PushAttr("channel", row.channelRef);
    out.PushAttr("message_id", ShortId(row.messageId));
    out.PushStr(" />");
  }

  method RenderImportant(out: Buffer, rows: seq<ImportantRow>)
    modifies out
    ensures out.text == PutNodes(old(out.text), ImportantNodes(rows))
  {
    NoAttrs(out.text);
    if rows == [] { return; }
    ghost var start := out.text;
    OpenSection(out, "important", 2);
    ghost var from := out.text;
    hide PutNodes, PutNode, MentionNodes;
    NoAttrs(from);
    assert rows[..0] == [];
    for i := 0 to |rows|
      invariant out.text == PutNodes(from, Each(MentionNodes, rows[..i]))
    {
      EachSnoc(from, MentionNodes, rows, i);
      RenderMention(out, rows[i]);
    }
    assert rows[..|rows|] == rows;
    CloseSection(out, start, "important", Each(MentionNodes, rows), 2);
  }

  /** The reactors of one row, each escaped, with their '@', separated by spaces. */
  function EscapedReactors(names: seq<string>): seq<string> {
    seq(|names|, i requires 0 <= i < |names| => "@" + Text(names[i]))
  }

  lemma {:induction false} ReactorsEscaped(names: seq<string>)
    ensures Join(EscapedReactors(names), " ") == Text(Join(AtEach(names), " "))
  {
    if names == [] {
      EscapesByChar('x', "");
    } else {
      EscapesByChar('@', names[0]);
      assert EscapedReactors(names)[1..] == EscapedReactors(names[1..]) && AtEach(names)[1..] == AtEach(names[1..]);
      ReactorsEscaped(names[1..]);
      if |names| > 1 {
        TextAppend("@" + names[0] + " ", Join(AtEach(names[1..]), " "));
        TextAppend("@" + names[0], " ");
        SpaceText();
      }
    }
  }

  lemma SpaceText()
    ensures Text(" ") == " "
  {
    TextOfChar(' ');
  }

  method RenderReaction(out: Buffer, row: ReactionRow)
    modifies out
    ensures out.text == PutNodes(old(out.text), ReactionNodes(row))
  {
    ghost var start := out.text;
    ghost var ns := ReactionNodes(row);
    ReactorsEscaped(row.reactors);
    hide PutNodes, Join, AtEach, Text;
    assert ns == ns[..5] + ns[5..];
    PutNodesAppend(start, ns[..5], ns[5..]);
    PutFive(start, ns[..5]);
    out.PushLine(4);
    out.PushStr(Join(EscapedReactors(row.reactors), " "));
    out.PushLiteral(" ");
    out.PushText(row.emoji);
    out.PushLiteral(" on your message \"");
    PutFour(out.text, ns[5..]);
    out.PushText(row.targetSnippet);
    out.PushLiteral("\" (");
    out.PushText(row.age);
    out.PushLiteral(")");
  }

  method RenderReactions(out: Buffer, rows: seq<ReactionRow>, omitted: nat)
    modifies out
    ensures out.text == PutNodes(old(out.text), ReactionsNodes(rows, omitted))
  {
    NoAttrs(out.text);
    if rows == [] && omitted == 0 { return; }
    ghost var start := out.text;
    OpenSection(out, "reactions", 2);
    ghost var from := out.text;
    ghost var rest := if omitted > 0 then [Line(4), Empty("omitted", [Attribute("count", Decimal(omitted))])] else [];
    PutNodesAppend(from, Each(ReactionNodes, rows), rest);
    hide PutNodes, PutNode, ReactionNodes;
    NoAttrs(from);
    assert rows[..0] == [];
    for i := 0 to |rows|
      invariant out.text == PutNodes(from, Each(ReactionNodes, rows[..i]))
    {
      EachSnoc(from, ReactionNodes, rows, i);
      RenderReaction(out, rows[i]);
    }
    assert rows[..|rows|] == rows;
    NoAttrs(out.text);
    if omitted > 0 { RenderOmittedCount(out, omitted); }
    CloseSection(out, start, "reactions", Each(ReactionNodes, rows) + rest, 2);
  }

  method RenderOmittedCount(out: Buffer, omitted: nat)
    modifies out
    ensures out.text == PutNodes(old(out.text), [Line(4), Empty("omitted", [Attribute("count", Decimal(omitted))])])
  {
    PutTwo(out.text, Line(4), Empty("omitted", [Attribute("count", Decimal(omitted))]));
    out.PushLine(4);
    out.PushStr("<" + "omitted");
    DecimalUnescaped(omitted, "");
    assert Decimal(omitted) + "" == Decimal(omitted);
    hide PutAttrs, PutNodes, Attr, Decimal;
    out.PushPlainAttr("count", Decimal(omitted));
    out.PushStr(" />");
  }

  method RenderWarning(out: Buffer, text: string)
    modifies out
    ensures out.text == PutNodes(old(out.text), WarningNodes(text))
  {
    PutTwo(out.text, Line(4), Elem("warning", [], [Escaped(text)]));
    hide PutNodes;
    out.PushLine(4);
    RenderLeaf(out, "warning", text);
  }

  method RenderWarnings(out: Buffer, rows: seq<string>)
    modifies out
    ensures out.text == PutNodes(old(out.text), WarningsNodes(rows))
  {
    NoAttrs(out.text);
    if rows == [] { return; }
    ghost var start := out.text;
    OpenSection(out, "warnings", 2);
    ghost var from := out.text;
    hide PutNodes, PutNode, WarningNodes;
    NoAttrs(from);
    assert rows[..0] == [];
    for i := 0 to |rows|
      invariant out.text == PutNodes(from, Each(WarningNodes, rows[..i]))
    {
      EachSnoc(from, WarningNodes, rows, i);
      RenderWarning(out, rows[i]);
    }
    assert rows[..|rows|] == rows;
    CloseSection(out, start, "warnings", Each(WarningNodes, rows), 2);
  }

  method RenderNotice(out: Buffer, workspace: string)
    modifies out
    ensures out.text == PutNodes(old(out.text), NoticeNodes(workspace))
  {
    ghost var kids := NoticeNodes(workspace)[1].kids;
    PutTwo(out.text, Line(2), Elem("no-new-activity", [Attribute("workspace", workspace)], kids));
    out.PushLine(2);
    out.PushStr("<" + "no-new-activity");
    hide PutAttrs, PutNodes;
    out.PushAttr("workspace", workspace);
    out.PushStr(">");
    PutFive(out.text, kids);
    out.PushLiteral("\n    Nothing new since your last ");
    out.PushLiteral("check. The fabric surfaces only ");
    out.PushLiteral("what changed \U{2014} your channels, ");
    out.PushLiteral("members, and messages are ");
    out.PushLiteral("unchanged, not gone.\n  ");
    out.PushStr("</" + "no-new-activity" + ">");
  }

  method RenderNotices(out: Buffer, rows: seq<string>)
    modifies out
    ensures out.text == PutNodes(old(out.text), Each(NoticeNodes, rows))
  {
    ghost var from := out.text;
    hide PutNodes, NoticeNodes;
    NoAttrs(from);
    assert rows[..0] == [];
    for i := 0 to |rows|
      invariant out.text == PutNodes(from, Each(NoticeNodes, rows[..i]))
    {
      EachSnoc(from, NoticeNodes, rows, i);
      RenderNotice(out, rows[i]);
    }
    assert rows[..|rows|] == rows;
  }

  method RenderGuide(out: Buffer, shown: bool)
    modifies out
    ensures out.text == PutNodes(old(out.text), GuideNodes(shown))
  {
    NoAttrs(out.text);
    if shown {
      PutTwo(out.text, Line(2), Elem("notice", [], [Escaped(COORDINATION_GUIDE_REMINDER)]));
      hide PutNodes;
      out.PushLine(2);
      RenderLeaf(out, "notice", COORDINATION_GUIDE_REMINDER);
    }
  }

  method RenderSections(out: Buffer, v: FabricView)
    modifies out
    ensures out.text == PutNodes(old(out.text), Sections(v))
  {
    ghost var t := out.text;
    ghost var a, b, c, d := SelfNodes(v.selfRow), HostsNodes(v.hosts), ChannelsNodes(v.workspaces, v.now),
                            ImportantNodes(v.important);
    ghost var e, f := ReactionsNodes(v.reactions, v.reactionsOmitted), WarningsNodes(v.warnings);
    ghost var g, h := Each(NoticeNodes, v.notices), GuideNodes(v.coordinationGuideReminder);
    hide PutNodes, SelfNodes, HostsNodes, ChannelsNodes, ImportantNodes, ReactionsNodes, WarningsNodes, Each,
         GuideNodes;
    PutNodesAppend(t, a, b);
    PutNodesAppend(t, a + b, c);
    PutNodesAppend(t, a + b + c, d);
    PutNodesAppend(t, a + b + c + d, e);
    PutNodesAppend(t, a + b + c + d + e, f);
    PutNodesAppend(t, a + b + c + d + e + f, g);
    PutNodesAppend(t, a + b + c + d + e + f + g, h);
    RenderSelf(out, v.selfRow);
    RenderHosts(out, v.hosts);
    RenderChannels(out, v.workspaces, v.now);
    RenderImportant(out, v.important);
    RenderReactions(out, v.reactions, v.reactionsOmitted);
    RenderWarnings(out, v.warnings);
    RenderNotices(out, v.notices);
    RenderGuide(out, v.coordinationGuideReminder);
  }

  /** `render_view`: the text is the document's, and an independent reader finds in it one well-formed element that
      shows exactly the view. */
  method RenderView(v: FabricView) returns (text: string)
    ensures text == Write(Doc(v))
    ensures Reads(text, Events(Doc(v))) && DocumentReader.Seen(Events(Doc(v))) == Some(DocumentReader.ViewShown(v))
  {
    DocumentSections.DocumentShowsView(v);
    hide DocumentReader.Seen, DocumentReader.ViewShown;
    var out := new Buffer("<mosaico>");
    ghost var start := out.text;
    hide PutNodes, Sections;
    PutNodesAppend(start, Sections(v), [Literal("\n")]);
    RenderSections(out, v);
    PutTwo(out.text, Literal("\n"), Literal("\n"));
    out.PushLiteral("\n");
    out.PushStr("</mosaico>");
    text := out.text;
    DocText(v);
    DocGood(v);
  }

  lemma DocText(v: FabricView)
    ensures PutNodes("<mosaico>", Sections(v) + [Literal("\n")]) + "</mosaico>" == Write(Doc(v))
  {
    hide Sections, PutNodes;
    PutIsWrite("", Doc(v));
    NoAttrs("" + ("<" + "mosaico"));
    assert "" + Write(Doc(v)) == Write(Doc(v));
    assert "" + ("<" + "mosaico") + ">" == "<mosaico>" && "</" + "mosaico" + ">" == "</mosaico>";
  }
}
