/** The sections of a document and the whole of it, read back. */
module DocumentSections {
  import opened Order
  import opened Chars
  import opened Fabric
  import opened Xml
  import opened Document
  import opened DocumentReader
  import opened DocumentTree
  import opened DocumentRows
  import opened DocumentContent

  // ------------------------------------------------------------------------------------ hosts

  function RootLines(root: string): seq<string> { LinesOf("* " + root) }

  lemma RootLine(e: Element, root: string)
    ensures OwnLines(PutAll(e, RootNodes(root))) == OwnLines(e) + RootLines(root)
  {
    PutTwo(e, Literal("\n      * "), Escaped(root));
    TextTwice(e, "\n      * ", root);
    assert "\n      * " + root == "\n" + Spaces(6) + ("* " + root);
    OwnLinesText(e, 6, "* " + root);
    hide OwnLines, LinesOf, AddText;
  }

  lemma WorkspacesLine(e: Element)
    ensures OwnLines(Put(e, Literal("\n      Workspaces:"))) == OwnLines(e) + ["Workspaces:"]
  {
    assert "\n      Workspaces:" == "\n" + Spaces(6) + "Workspaces:";
    OwnLinesText(e, 6, "Workspaces:");
    hide OwnLines, AddText, LinesOf, Spaces;
    OneLine();
  }

  lemma OneLine()
    ensures LinesOf("Workspaces:") == ["Workspaces:"]
  {
    var s := "Workspaces:";
    assert s[0] == 'W' && '\n' !in s;
    assert TrimStart(s, ' ') == s;
    hide LinesOf, TrimStart;
    NoBreakIn(s);
  }

  lemma {:induction false} NoBreak(s: string)
    requires '\n' !in s
    ensures LineEnd(s) == |s|
  {
    if s != "" {
      assert s[0] in s && forall c | c in s[1..] :: c in s;
      NoBreak(s[1..]);
    }
  }

  /** A text without line breaks is one line. */
  lemma NoBreakIn(s: string)
    requires '\n' !in s
    ensures LinesOf(s) == if TrimStart(s, ' ') == "" then [] else [TrimStart(s, ' ')]
  {
    NoBreak(s);
    assert s[..|s|] == s;
  }

  function RootsPart(h: HostRow): seq<Node> {
    if h.roots == [] then [] else [Literal("\n      Workspaces:")] + Each(RootNodes, h.roots)
  }

  function AgentsPart(h: HostRow): seq<Node> {
    if h.agents == [] then [] else [Line(6), Elem("agents", [], Each(AgentNodes, h.agents) + [Line(6)])]
  }

  lemma RootRows(e: Element, roots: seq<string>)
    ensures OwnLines(PutAll(e, Each(RootNodes, roots))) == OwnLines(e) + Flat(RootLines, roots)
  {
    hide PutAll, OwnLines, Flat, Each, RootNodes, RootLines;
    forall x: Element, i | 0 <= i < |roots|
      ensures OwnLines(PutAll(x, RootNodes(roots[i]))) == OwnLines(x) + RootLines(roots[i])
    {
      RootLine(x, roots[i]);
    }
    EachAdds(OwnLines, e, RootNodes, RootLines, roots);
  }

  lemma RootsLines(e: Element, h: HostRow)
    ensures OwnLines(PutAll(e, RootsPart(h)))
            == OwnLines(e) + if h.roots == [] then [] else ["Workspaces:"] + Flat(RootLines, h.roots)
  {
    hide OwnLines, Flat, Each, Put, PutAll;
    if h.roots == [] {
      NothingPut(e);
      assert OwnLines(e) + [] == OwnLines(e);
    } else {
      var head := Literal("\n      Workspaces:");
      var rows := Flat(RootLines, h.roots);
      WorkspacesLine(e);
      PutAppend(e, [head], Each(RootNodes, h.roots));
      PutOne(e, head);
      RootRows(Put(e, head), h.roots);
      assert OwnLines(e) + ["Workspaces:"] + rows == OwnLines(e) + (["Workspaces:"] + rows);
    }
  }

  lemma HostLines(h: HostRow)
    ensures OwnLines(Whole("host", [Attribute("name", h.name)], RootsPart(h) + AgentsPart(h) + [Line(4)]))
            == HostShown(h)[0].lines
  {
    var e0 := Leaf("host", [Attribute("name", h.name)]);
    var e1 := PutAll(e0, RootsPart(h));
    PutAppend(e0, RootsPart(h), AgentsPart(h));
    PutAppend(e0, RootsPart(h) + AgentsPart(h), [Line(4)]);
    EmptyLines("host", [Attribute("name", h.name)]);
    RootsLines(e0, h);
    if h.agents != [] { TagLine(e1, 6, AgentsPart(h)[1]); }
    EndLine(PutAll(e1, AgentsPart(h)), 4);
    SameRoots(h.roots);
  }

  lemma {:induction false} SameRoots(roots: seq<string>)
    ensures Flat(RootLines, roots) == Flat((root: string) => LinesOf("* " + root), roots)
  {
    hide LinesOf;
    if roots != [] { SameRoots(roots[1..]); }
  }

  lemma {:induction false} AgentsRead(agents: seq<AgentRow>)
    ensures OfNodes(AgentIn, Each(AgentNodes, agents)) == agents
  {
    if agents != [] {
      var a, rest := agents[0], agents[1..];
      AgentRead(a);
      OfTwo(AgentIn, Line(8), AgentNodes(a)[1]);
      hide AgentIn, Opt, OfNodes;
      AgentsRead(rest);
      OfNodesAppend(AgentIn, AgentNodes(a), Each(AgentNodes, rest));
      assert [a] + rest == agents;
    }
  }

  lemma {:induction false} RootsAreText(roots: seq<string>)
    ensures AllText(Each(RootNodes, roots))
  {
    if roots != [] { RootsAreText(roots[1..]); }
  }

  lemma AgentsFound(h: HostRow)
    ensures OfNodes(Inside("agents", AgentIn), AgentsPart(h)) == h.agents
  {
    if h.agents != [] {
      var rows := Each(AgentNodes, h.agents) + [Line(6)];
      AgentsRead(h.agents);
      OfNodesAppend(AgentIn, Each(AgentNodes, h.agents), [Line(6)]);
      OfTwo(AgentIn, Line(6), Line(6));
      SectionRead(Inside("agents", AgentIn), "agents", 6, rows);
      PutKeeps(Leaf("agents", []), rows);
      CollectWhole(AgentIn, "agents", [], rows);
      hide OfNodes, Collect, PutAll, Each, AgentIn;
    }
  }

  lemma HostAgents(h: HostRow)
    ensures Collect(Inside("agents", AgentIn),
                    Whole("host", [Attribute("name", h.name)], RootsPart(h) + AgentsPart(h) + [Line(4)]).kids)
                    == h.agents
  {
    var f, a, b := Inside("agents", AgentIn), RootsPart(h), AgentsPart(h);
    InsideIgnoresTail("agents", AgentIn);
    RootsAreText(h.roots);
    TextOnly(f, a);
    AgentsFound(h);
    hide *;
    CollectWhole(f, "host", [Attribute("name", h.name)], a + b + [Line(4)]);
    ThreeParts(f, a, b, [], 4);
    assert a + b + [] == a + b;
    NothingOf(f);
  }

  lemma NothingOf<T>(f: Element -> seq<T>)
    ensures OfNodes(f, []) == []
  {
  }

  lemma HostRead(h: HostRow)
    ensures OfNodes(HostIn, HostNodes(h)) == HostShown(h)
  {
    var attrs, kids := [Attribute("name", h.name)], RootsPart(h) + AgentsPart(h) + [Line(4)];
    assert HostNodes(h) == [Line(4), Elem("host", attrs, kids)];
    OfTwo(HostIn, Line(4), Elem("host", attrs, kids));
    PutKeeps(Leaf("host", attrs), kids);
    LookupOne("name", h.name, "name");
    HostLines(h);
    HostAgents(h);
    hide OfNodes, Collect, OwnLines, PutAll, RootsPart, AgentsPart, HostNodes, Lookup;
  }

  lemma HostsFound(hosts: Option<seq<HostRow>>)
    ensures OfNodes(Inside("hosts", HostIn), HostsNodes(hosts)) == Flat(HostShown, Rows(hosts))
  {
    var rows := Rows(hosts);
    if rows != [] {
      var kids := Each(HostNodes, rows) + [Line(2)];
      hide HostNodes, HostIn, HostShown, OfNodes;
      forall i | 0 <= i < |rows| ensures OfNodes(HostIn, HostNodes(rows[i])) == HostShown(rows[i]) {
        HostRead(rows[i]);
      }
      SectionOf(HostIn, "hosts", HostNodes, HostShown, rows);
    }
  }

  /** A section that is one row after the other. */
  lemma SectionOf<T(!new), U>(f: Element -> seq<T>, name: string, g: U -> seq<Node>, h: U -> seq<T>, rows: seq<U>)
    requires IgnoresTail(f) && forall i | 0 <= i < |rows| :: OfNodes(f, g(rows[i])) == h(rows[i])
    ensures OfNodes(Inside(name, f), [Line(2), Elem(name, [], Each(g, rows) + [Line(2)])]) == Flat(h, rows)
  {
    var kids := Each(g, rows) + [Line(2)];
    SectionRead(Inside(name, f), name, 2, kids);
    PutKeeps(Leaf(name, []), kids);
    CollectWhole(f, name, [], kids);
    OfEach(f, g, h, rows);
    OfNodesAppend(f, Each(g, rows), [Line(2)]);
    OfTwo(f, Line(2), Line(2));
    hide OfNodes, Collect, PutAll, Each, Flat;
  }

  // --------------------------------------------------------------------------------- channels

  lemma WorkspaceRead(w: WorkspaceView, now: nat)
    ensures OfNodes(ChannelIn, WorkspaceNodes(now)(w)) == WorkspaceShown(now)(w)
  {
    hide ChannelNodes, EachChannel, ChannelShown, ChannelsShown, ChannelIn;
    ChannelsRead(w.channels, 4, now);
    NothingOf(ChannelIn);
    if w.root.Some? {
      ChannelRead(w.root.value, 4, now);
      OfNodesAppend(ChannelIn, ChannelNodes(w.root.value, 4, now), EachChannel(w.channels, 4, now));
    } else {
      OfNodesAppend(ChannelIn, [], EachChannel(w.channels, 4, now));
    }
  }

  lemma {:induction false} NoChannels(ws: seq<WorkspaceView>, now: nat)
    requires !AnyChannel(ws)
    ensures Flat(WorkspaceShown(now), ws) == []
  {
    if ws != [] {
      assert !HasChannel(ws[0]);
      assert !AnyChannel(ws[1..]) by { assert forall i | 0 <= i < |ws| - 1 :: ws[1..][i] == ws[i + 1]; }
      NoChannels(ws[1..], now);
    }
  }

  lemma ChannelsFound(workspaces: Option<seq<WorkspaceView>>, now: nat)
    ensures OfNodes(ChannelsOf, ChannelsNodes(workspaces, now)) == Flat(WorkspaceShown(now), Rows(workspaces))
  {
    var ws := Rows(workspaces);
    if workspaces.None? || !AnyChannel(ws) {
      NoChannels(ws, now);
    } else {
      var kids := Each(WorkspaceNodes(now), ws) + [Line(2)];
      SectionRead(ChannelsOf, "channels", 2, kids);
      PutKeeps(Leaf("channels", []), kids);
      ChannelsCollect(Whole("channels", [], kids).kids);
      ChannelsIgnoreTails();
      hide WorkspaceNodes, WorkspaceShown, ChannelIn, ChannelsIn, Flat, OfNodes, Collect, PutAll, Each;
      CollectWhole(ChannelIn, "channels", [], kids);
      forall i | 0 <= i < |ws| ensures OfNodes(ChannelIn, WorkspaceNodes(now)(ws[i])) == WorkspaceShown(now)(ws[i]) {
        WorkspaceRead(ws[i], now);
      }
      OfEach(ChannelIn, WorkspaceNodes(now), WorkspaceShown(now), ws);
      OfNodesAppend(ChannelIn, Each(WorkspaceNodes(now), ws), [Line(2)]);
      OfTwo(ChannelIn, Line(2), Line(2));
    }
  }

  // ---------------------------------------------------------------------------- smaller sections

  function SelfTag(row: Option<SelfRow>): seq<Node> {
    if row.None? then [] else [Line(2), Empty("self", SelfAttrs(row.value))]
  }

  function HintPart(row: Option<SelfRow>): seq<Node> {
    if row.None? || row.value.hint == "" then [] else [Line(2), Elem("notice", [], [Escaped(row.value.hint)])]
  }

  lemma SelfFound(row: Option<SelfRow>)
    ensures SelfNodes(row) == SelfTag(row) + HintPart(row)
    ensures OfNodes(SelfIn, SelfTag(row)) == if row.Some? then [SelfShown(row.value)] else []
    ensures OfNodes(NoteIn, HintPart(row)) == if row.Some? then Shown(row.value.hint != "", row.value.hint) else []
  {
    if row.Some? {
      SelfRead(row.value);
      OfTwo(SelfIn, Line(2), Empty("self", SelfAttrs(row.value)));
      if row.value.hint != "" { NoteFound(row.value.hint); }
      hide OfNodes, SelfIn, NoteIn, SelfAttrs, SelfShown;
    }
  }

  lemma NoteFound(text: string)
    ensures OfNodes(NoteIn, [Line(2), Elem("notice", [], [Escaped(text)])]) == [text]
  {
    SectionRead(NoteIn, "notice", 2, [Escaped(text)]);
    WholeLeaf("notice", [], text);
  }

  lemma WholeLeaf(name: string, attrs: seq<Attribute>, text: string)
    ensures Whole(name, attrs, [Escaped(text)]) == Element(name, attrs, text, [], "")
  {
    PutOne(Leaf(name, attrs), Escaped(text));
    assert "" + text == text;
  }

  lemma ImportantFound(rows: seq<ImportantRow>)
    ensures OfNodes(Inside("important", MentionIn), ImportantNodes(rows)) == Flat(MentionShown, rows)
  {
    if rows != [] {
      forall i | 0 <= i < |rows| ensures OfNodes(MentionIn, MentionNodes(rows[i])) == MentionShown(rows[i]) {
        MentionRead(rows[i]);
        OfTwo(MentionIn, Line(4), MentionNodes(rows[i])[1]);
      }
      SectionOf(MentionIn, "important", MentionNodes, MentionShown, rows);
      hide OfNodes, MentionIn, MentionNodes, MentionShown;
    }
  }

  lemma WarningsFound(rows: seq<string>)
    ensures OfNodes(Inside("warnings", WarningIn), WarningsNodes(rows)) == rows
  {
    if rows != [] {
      var one := (text: string) => [text];
      forall i | 0 <= i < |rows| ensures OfNodes(WarningIn, WarningNodes(rows[i])) == one(rows[i]) {
        SectionLeaf(rows[i]);
      }
      SectionOf(WarningIn, "warnings", WarningNodes, one, rows);
      FlatSame(rows);
      hide OfNodes, WarningIn, WarningNodes;
    }
  }

  lemma SectionLeaf(text: string)
    ensures OfNodes(WarningIn, WarningNodes(text)) == [text]
  {
    OfTwo(WarningIn, Line(4), Elem("warning", [], [Escaped(text)]));
    WholeLeaf("warning", [], text);
  }

  lemma {:induction false} FlatSame(rows: seq<string>)
    ensures Flat((text: string) => [text], rows) == rows
  {
    if rows != [] {
      FlatSame(rows[1..]);
      assert rows == [rows[0]] + rows[1..];
    }
  }

  lemma QuietText(workspace: string)
    ensures OfNodes(QuietIn, NoticeNodes(workspace)) == [(workspace, NOTHING_NEW)]
  {
    var attrs, ns := [Attribute("workspace", workspace)], NoticeNodes(workspace)[1].kids;
    OfTwo(QuietIn, Line(2), Elem("no-new-activity", attrs, ns));
    FiveTexts(ns[0], ns[1], ns[2], ns[3], ns[4]);
    WholeText("no-new-activity", attrs, ns);
    LookupOne("workspace", workspace, "workspace");
    hide OfNodes, Lookup, TextOf;
  }

  lemma FiveTexts(a: Node, b: Node, c: Node, d: Node, e: Node)
    requires a.Literal? && b.Literal? && c.Literal? && d.Literal? && e.Literal?
    ensures AllText([a, b, c, d, e]) && TextOf([a, b, c, d, e]) == a.s + b.s + c.s + d.s + e.s
  {
    TextOfMore(e, []);
    assert [e] + [] == [e] && e.s + "" == e.s && TextOf([]) == "";
    hide *;
    FourMore(a, b, c, d, [e]);
    assert [a, b, c, d] + [e] == [a, b, c, d, e];
  }

  lemma NoticesFound(rows: seq<string>)
    ensures OfNodes(QuietIn, Each(NoticeNodes, rows)) == Flat((workspace: string) => [(workspace, NOTHING_NEW)], rows)
  {
    var quiet := (workspace: string) => [(workspace, NOTHING_NEW)];
    hide OfNodes, QuietIn, NoticeNodes, Flat, Each;
    forall i | 0 <= i < |rows| ensures OfNodes(QuietIn, NoticeNodes(rows[i])) == quiet(rows[i]) { QuietText(rows[i]); }
    OfEach(QuietIn, NoticeNodes, quiet, rows);
  }

  lemma GuideFound(shown: bool)
    ensures OfNodes(NoteIn, GuideNodes(shown)) == Shown(shown, COORDINATION_GUIDE_REMINDER)
  {
    if shown { NoteFound(COORDINATION_GUIDE_REMINDER); }
  }

  // -------------------------------------------------------------------------------- reactions

  lemma {:induction false} AtEachIs(names: seq<string>)
    ensures Join(AtEach(names), " ") == AtNames(names)
  {
    if names != [] {
      AtEachIs(names[1..]);
      assert AtEach(names)[0] == "@" + names[0] && AtEach(names)[1..] == AtEach(names[1..]);
    }
  }

  lemma ReactionAdds(e: Element, r: ReactionRow)
    ensures OwnLines(PutAll(e, ReactionNodes(r))) == OwnLines(e) + ReactionShown(r)
  {
    AtEachIs(r.reactors);
    var ns := ReactionNodes(r)[1..];
    assert ReactionNodes(r) == [Line(4)] + ns;
    ReactionText(r);
    TextLine(e, 4, ns);
    hide OwnLines, PutAll, LinesOf, TextOf, AtNames, Join;
  }

  lemma ReactionText(r: ReactionRow)
    ensures var ns := ReactionNodes(r)[1..];
            && AllText(ns)
            && TextOf(ns) == Join(AtEach(r.reactors), " ") + " " + r.emoji + " on your message \"" + r.targetSnippet
               + "\" ("
                             + r.age + ")"
  {
    var a, b, c, d := Escaped(Join(AtEach(r.reactors), " ")), Literal(" "), Escaped(r.emoji),
                      Literal(" on your message \"");
    var e, f, g, h := Escaped(r.targetSnippet), Literal("\" ("), Escaped(r.age), Literal(")");
    assert ReactionNodes(r)[1..] == [a, b, c, d] + [e, f, g, h];
    hide *;
    FourTexts(e, f, g, h);
    FourMore(a, b, c, d, [e, f, g, h]);
    Reassociated(a.s + b.s + c.s + d.s, e.s, f.s, g.s, h.s);
  }

  lemma Reassociated(x: string, e: string, f: string, g: string, h: string)
    ensures x + (e + f + g + h) == x + e + f + g + h
  {
  }

  function CountPart(omitted: nat): seq<Node> {
    if omitted > 0 then [Line(4), Empty("omitted", [Attribute("count", Decimal(omitted))])] else []
  }

  function ReactionKids(rows: seq<ReactionRow>, omitted: nat): seq<Node> {
    Each(ReactionNodes, rows) + CountPart(omitted) + [Line(2)]
  }

  lemma ReactionLines(rows: seq<ReactionRow>, omitted: nat)
    ensures OwnLines(Whole("reactions", [], ReactionKids(rows, omitted))) == Flat(ReactionShown, rows)
  {
    var e0, a, b := Leaf("reactions", []), Each(ReactionNodes, rows), CountPart(omitted);
    var e1 := PutAll(e0, a);
    PutAppend(e0, a, b);
    PutAppend(e0, a + b, [Line(2)]);
    EmptyLines("reactions", []);
    if omitted > 0 { TagLine(e1, 4, b[1]); }
    EndLine(PutAll(e1, b), 2);
    hide OwnLines, Flat, Each, ReactionNodes, ReactionShown, CountPart;
    forall x: Element, i | 0 <= i < |rows|
      ensures OwnLines(PutAll(x, ReactionNodes(rows[i]))) == OwnLines(x) + ReactionShown(rows[i])
    {
      ReactionAdds(x, rows[i]);
    }
    EachAdds(OwnLines, e0, ReactionNodes, ReactionShown, rows);
    assert [] + Flat(ReactionShown, rows) == Flat(ReactionShown, rows);
  }

  lemma {:induction false} ReactionsAreText(rows: seq<ReactionRow>)
    ensures AllText(Each(ReactionNodes, rows))
  {
    if rows != [] { ReactionsAreText(rows[1..]); }
  }

  lemma ReactionCount(rows: seq<ReactionRow>, omitted: nat)
    ensures OfNodes(CountIn, ReactionKids(rows, omitted)) == Shown(omitted > 0, omitted)
  {
    var a, b := Each(ReactionNodes, rows), CountPart(omitted);
    ReactionsAreText(rows);
    TextOnly(CountIn, a);
    if omitted > 0 {
      OmittedRead(omitted);
      OfTwo(CountIn, Line(4), b[1]);
    }
    hide Each, CountIn, Decimal;
    ThreeParts(CountIn, a, b, [], 2);
    NothingOf(CountIn);
    assert a + b + [] == a + b;
  }

  lemma ReactionsFound(rows: seq<ReactionRow>, omitted: nat)
    ensures OfNodes(LinesIn("reactions"), ReactionsNodes(rows, omitted)) == Flat(ReactionShown, rows)
    ensures OfNodes(Inside("reactions", CountIn), ReactionsNodes(rows, omitted)) == Shown(omitted > 0, omitted)
  {
    if rows != [] || omitted != 0 {
      var kids := ReactionKids(rows, omitted);
      assert ReactionsNodes(rows, omitted) == [Line(2), Elem("reactions", [], kids)];
      SectionRead(LinesIn("reactions"), "reactions", 2, kids);
      SectionRead(Inside("reactions", CountIn), "reactions", 2, kids);
      PutKeeps(Leaf("reactions", []), kids);
      CollectWhole(CountIn, "reactions", [], kids);
      ReactionLines(rows, omitted);
      ReactionCount(rows, omitted);
      hide OfNodes, Collect, OwnLines, PutAll, Flat, ReactionKids, ReactionsNodes, CountIn;
    }
  }

  // ------------------------------------------------------------------------------- the whole

  function Concat(parts: seq<seq<Node>>): seq<Node> {
    if parts == [] then [] else Concat(parts[..|parts| - 1]) + parts[|parts| - 1]
  }

  lemma ConcatMore(parts: seq<seq<Node>>, p: seq<Node>)
    ensures Concat(parts + [p]) == Concat(parts) + p
  {
    assert (parts + [p])[..|parts|] == parts;
  }

  /** What is found in the parts of one name. */
  function Picked<T>(f: Element -> seq<T>, x: string, parts: seq<seq<Node>>, names: seq<string>): seq<T>
    requires |parts| == |names|
  {
    if parts == [] then []
    else
      var n := |parts| - 1;
      Picked(f, x, parts[..n], names[..n]) + if names[n] == x then OfNodes(f, parts[n]) else []
  }

  ghost predicate Named(parts: seq<seq<Node>>, names: seq<string>) {
    |parts| == |names| && forall i | 0 <= i < |parts| :: Only(parts[i], names[i])
  }

  lemma {:induction false} PartsRead<T>(f: Element -> seq<T>, x: string, parts: seq<seq<Node>>, names: seq<string>)
    requires Named(parts, names) && forall e: Element | e.name != x :: f(e) == []
    ensures OfNodes(f, Concat(parts)) == Picked(f, x, parts, names)
  {
    hide Only;
    if parts != [] {
      var n := |parts| - 1;
      PartsRead(f, x, parts[..n], names[..n]);
      OfNodesAppend(f, Concat(parts[..n]), parts[n]);
      if names[n] != x { NothingIn(f, parts[n], names[n]); }
    }
  }

  /** Only parts `i` and `j` have the name. */
  lemma {:induction false} PickTwo<T>(f: Element -> seq<T>, x: string, parts: seq<seq<Node>>, names: seq<string>,
                                      i: nat, j: nat)
    requires |parts| == |names| && i <= j
    requires forall k | 0 <= k < |names| :: names[k] == x <==> k == i || k == j
    ensures Picked(f, x, parts, names)
            == (if i < |parts| then OfNodes(f, parts[i]) else [])
               + (if i < j < |parts| then OfNodes(f, parts[j]) else [])
    decreases |parts|
  {
    hide OfNodes;
    if parts != [] {
      var n := |parts| - 1;
      PickTwo(f, x, parts[..n], names[..n], i, j);
    }
  }

  lemma PickOne<T(!new)>(f: Element -> seq<T>, x: string, parts: seq<seq<Node>>, names: seq<string>, i: nat)
    requires Named(parts, names) && i < |parts| && (forall k | 0 <= k < |names| :: names[k] == x <==> k == i)
    requires IgnoresTail(f) && forall e: Element | e.name != x :: f(e) == []
    ensures Collect(f, Whole("mosaico", [], Concat(parts)).kids) == OfNodes(f, parts[i])
  {
    hide OfNodes, Picked, Concat, Collect, Whole, IgnoresTail, Only;
    CollectWhole(f, "mosaico", [], Concat(parts));
    PartsRead(f, x, parts, names);
    PickTwo(f, x, parts, names, i, i);
    assert OfNodes(f, parts[i]) + [] == OfNodes(f, parts[i]);
  }

  const NAMES := ["self", "notice", "hosts", "channels", "important", "reactions", "warnings", "no-new-activity",
                  "notice", ""]

  function Parts(v: FabricView): seq<seq<Node>> {
    [SelfTag(v.selfRow), HintPart(v.selfRow), HostsNodes(v.hosts), ChannelsNodes(v.workspaces, v.now),
     ImportantNodes(v.important), ReactionsNodes(v.reactions, v.reactionsOmitted), WarningsNodes(v.warnings),
     Each(NoticeNodes, v.notices), GuideNodes(v.coordinationGuideReminder), [Literal("\n")]]
  }

  lemma PartsAre(v: FabricView)
    ensures Concat(Parts(v)) == Sections(v) + [Literal("\n")]
  {
    SelfFound(v.selfRow);
    var p := Parts(v);
    hide SelfTag, HintPart, HostsNodes, ChannelsNodes, ImportantNodes, ReactionsNodes, WarningsNodes, Each, GuideNodes,
         SelfNodes, OfNodes, Concat;
    FiveParts(p[0], p[1], p[2], p[3], p[4]);
    FiveMore([p[0], p[1], p[2], p[3], p[4]], p[5], p[6], p[7], p[8], p[9]);
    assert [p[0], p[1], p[2], p[3], p[4]] + [p[5]] + [p[6]] + [p[7]] + [p[8]] + [p[9]] == p;
  }

  lemma FiveMore(p: seq<seq<Node>>, a: seq<Node>, b: seq<Node>, c: seq<Node>, d: seq<Node>, e: seq<Node>)
    ensures Concat(p + [a] + [b] + [c] + [d] + [e]) == Concat(p) + a + b + c + d + e
  {
    hide Concat;
    ConcatMore(p, a);
    ConcatMore(p + [a], b);
    ConcatMore(p + [a] + [b], c);
    ConcatMore(p + [a] + [b] + [c], d);
    ConcatMore(p + [a] + [b] + [c] + [d], e);
  }

  lemma FiveParts(a: seq<Node>, b: seq<Node>, c: seq<Node>, d: seq<Node>, e: seq<Node>)
    ensures Concat([a, b, c, d, e]) == a + b + c + d + e
  {
    assert Concat([]) == [];
    hide Concat;
    FiveMore([], a, b, c, d, e);
    assert [] + [a] + [b] + [c] + [d] + [e] == [a, b, c, d, e];
    assert [] + a == a;
  }

  lemma {:induction false} OnlyNotices(rows: seq<string>)
    ensures Only(Each(NoticeNodes, rows), "no-new-activity")
  {
    if rows != [] {
      OnlyNotices(rows[1..]);
      OnlyAppend(NoticeNodes(rows[0]), Each(NoticeNodes, rows[1..]), "no-new-activity");
    }
  }

  lemma PartsNamed(v: FabricView)
    ensures Named(Parts(v), NAMES)
  {
    var p := Parts(v);
    OnlyNotices(v.notices);
    SectionOnly(v);
    hide Only, SelfTag, HintPart, HostsNodes, ChannelsNodes, ImportantNodes, ReactionsNodes, WarningsNodes, Each,
         GuideNodes;
    assert Only(p[0], "self") && Only(p[1], "notice") && Only(p[2], "hosts") && Only(p[3], "channels");
    assert Only(p[4], "important") && Only(p[5], "reactions") && Only(p[6], "warnings");
    assert Only(p[7], "no-new-activity") && Only(p[8], "notice") && Only(p[9], "");
    hide Parts;
    NamedTen(p);
  }

  lemma NamedTen(p: seq<seq<Node>>)
    requires |p| == 10
    requires Only(p[0], "self") && Only(p[1], "notice") && Only(p[2], "hosts") && Only(p[3], "channels")
    requires Only(p[4], "important") && Only(p[5], "reactions") && Only(p[6], "warnings")
    requires Only(p[7], "no-new-activity") && Only(p[8], "notice") && Only(p[9], "")
    ensures Named(p, NAMES)
  {
    hide Only;
  }

  lemma SectionOnly(v: FabricView)
    ensures Only(SelfTag(v.selfRow), "self") && Only(HintPart(v.selfRow), "notice")
            && Only(HostsNodes(v.hosts), "hosts")
    ensures Only(ChannelsNodes(v.workspaces, v.now), "channels") && Only(ImportantNodes(v.important), "important")
    ensures Only(ReactionsNodes(v.reactions, v.reactionsOmitted), "reactions")
    ensures Only(WarningsNodes(v.warnings), "warnings") && Only(GuideNodes(v.coordinationGuideReminder), "notice")
    ensures Only([Literal("\n")], "")
  {
    hide SelfAttrs, Each, Decimal;
  }

  lemma NoticesPicked(parts: seq<seq<Node>>)
    requires Named(parts, NAMES)
    ensures Collect(NoteIn, Whole("mosaico", [], Concat(parts)).kids)
            == OfNodes(NoteIn, parts[1]) + OfNodes(NoteIn, parts[8])
  {
    NameAt("notice", 1, 8);
    assert IgnoresTail(NoteIn);
    hide OfNodes, Picked, Concat, Collect, Whole, IgnoresTail, Only;
    CollectWhole(NoteIn, "mosaico", [], Concat(parts));
    PartsRead(NoteIn, "notice", parts, NAMES);
    PickTwo(NoteIn, "notice", parts, NAMES, 1, 8);
  }

  lemma NameAt(x: string, i: nat, j: nat)
    requires i <= j < 10 && NAMES[i] == x && NAMES[j] == x && (i == j || x == "notice")
             && (x == "notice" ==> i == 1 && j == 8)
    ensures |NAMES| == 10 && forall k | 0 <= k < 10 :: NAMES[k] == x <==> k == i || k == j
  {
  }

  lemma RootIgnoresTails()
    ensures IgnoresTail(SelfIn) && IgnoresTail(ChannelsOf) && IgnoresTail(QuietIn)
  {
  }

  /** The decoders of the root's children, each in its own section. */
  lemma RootRead(v: FabricView, parts: seq<seq<Node>>)
    requires parts == Parts(v) && Named(parts, NAMES)
    ensures ViewOf(Whole("mosaico", [], Concat(parts))) == ViewShown(v)
  {
    var root := Whole("mosaico", [], Concat(parts));
    SelfFound(v.selfRow);
    HostsFound(v.hosts);
    ChannelsFound(v.workspaces, v.now);
    ImportantFound(v.important);
    ReactionsFound(v.reactions, v.reactionsOmitted);
    WarningsFound(v.warnings);
    NoticesFound(v.notices);
    GuideFound(v.coordinationGuideReminder);
    RootIgnoresTails();
    InsideIgnoresTail("hosts", HostIn);
    InsideIgnoresTail("important", MentionIn);
    InsideIgnoresTail("reactions", CountIn);
    InsideIgnoresTail("warnings", WarningIn);
    hide OfNodes, Collect, Whole, Concat, Only, SelfTag, HintPart, HostsNodes, ChannelsNodes, ImportantNodes,
         ReactionsNodes, WarningsNodes, Each, GuideNodes, Flat, HostIn, MentionIn, CountIn, WarningIn, OwnLines,
         ChannelsIn,
         IgnoresTail, SelfNodes, SelfShown, Shown, WorkspaceShown, HostShown, ReactionShown, MentionShown, Rows;
    NameAt("self", 0, 0);
    PickOne(SelfIn, "self", parts, NAMES, 0);
    NoticesPicked(parts);
    NameAt("hosts", 2, 2);
    PickOne(Inside("hosts", HostIn), "hosts", parts, NAMES, 2);
    NameAt("channels", 3, 3);
    PickOne(ChannelsOf, "channels", parts, NAMES, 3);
    NameAt("important", 4, 4);
    PickOne(Inside("important", MentionIn), "important", parts, NAMES, 4);
    NameAt("reactions", 5, 5);
    PickOne(LinesIn("reactions"), "reactions", parts, NAMES, 5);
    PickOne(Inside("reactions", CountIn), "reactions", parts, NAMES, 5);
    NameAt("warnings", 6, 6);
    PickOne(Inside("warnings", WarningIn), "warnings", parts, NAMES, 6);
    NameAt("no-new-activity", 7, 7);
    PickOne(QuietIn, "no-new-activity", parts, NAMES, 7);
  }

  /** What a reader sees in the document of a view is the view: every channel with its people, departures, messages and
      subchannels, the hosts, mentions, reactions, warnings and notices, in order, and nothing else under those tags. */
  lemma DocumentShowsView(v: FabricView)
    ensures Seen(Events(Doc(v))) == Some(ViewShown(v))
  {
    var kids := Sections(v) + [Literal("\n")];
    PartsAre(v);
    PartsNamed(v);
    RootOf("mosaico", [], kids);
    PutKeeps(Leaf("mosaico", []), kids);
    hide Sections, Concat, Named, ViewOf, ViewShown, Roots, PutAll, Parts;
    RootRead(v, Parts(v));
  }
}
