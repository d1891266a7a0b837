/** What is read out of a channel's members, messages and subchannels is what the channel holds. */
module DocumentContent {
  import opened Order
  import opened Chars
  import opened CharLaws
  import opened Fabric
  import opened Xml
  import opened Document
  import opened DocumentReader
  import opened DocumentTree
  import opened DocumentRows

  // --------------------------------------------------------------------------- rows one by one

  /** What is measured of an element grows by what each row adds. */
  lemma {:induction false} EachAdds<T, U>(measure: Element -> seq<T>, e: Element, g: U -> seq<Node>, h: U -> seq<T>,
                                          rows: seq<U>)
    requires forall x: Element, i | 0 <= i < |rows| :: measure(PutAll(x, g(rows[i]))) == measure(x) + h(rows[i])
    ensures measure(PutAll(e, Each(g, rows))) == measure(e) + Flat(h, rows)
    decreases |rows|
  {
    hide PutAll;
    if rows == [] {
      NothingPut(e);
      assert measure(e) + [] == measure(e);
    } else {
      var first, rest := g(rows[0]), rows[1..];
      PutAppend(e, first, Each(g, rest));
      EachAdds(measure, PutAll(e, first), g, h, rest);
      assert measure(e) + h(rows[0]) + Flat(h, rest) == measure(e) + (h(rows[0]) + Flat(h, rest));
    }
  }

  lemma NothingPut(e: Element)
    ensures PutAll(e, []) == e
  {
  }

  predicate IsText(n: Node) { n.Escaped? || n.Literal? }

  ghost predicate AllText(ns: seq<Node>) { forall i | 0 <= i < |ns| :: IsText(ns[i]) }

  function TextOf(ns: seq<Node>): string
    requires AllText(ns)
  {
    if ns == [] then "" else ns[0].s + TextOf(ns[1..])
  }

  lemma {:induction false} PutTexts(e: Element, ns: seq<Node>)
    requires AllText(ns)
    ensures PutAll(e, ns) == AddText(e, TextOf(ns))
    decreases |ns|
  {
    if ns == [] {
      TextTwice(e, "", "");
    } else {
      PutTexts(AddText(e, ns[0].s), ns[1..]);
      TextTwice(e, ns[0].s, TextOf(ns[1..]));
    }
  }

  lemma TextOfMore(n: Node, ns: seq<Node>)
    requires IsText(n) && AllText(ns)
    ensures AllText([n] + ns) && TextOf([n] + ns) == n.s + TextOf(ns)
  {
    assert ([n] + ns)[1..] == ns;
  }

  // ------------------------------------------------------------------------- lines inside a tag

  /** A tag on a line of its own adds no line of text. */
  lemma TagLine(e: Element, k: nat, n: Node)
    requires n.Elem? || n.Empty?
    ensures OwnLines(PutAll(e, [Line(k), n])) == OwnLines(e)
  {
    PutTwo(e, Line(k), n);
    assert "\n" + Spaces(k) + "" == "\n" + Spaces(k);
    var e1 := AddText(e, "\n" + Spaces(k));
    OwnLinesText(e, k, "");
    NoLines();
    assert OwnLines(e) + [] == OwnLines(e);
    if n.Elem? {
      PutKeeps(Leaf(n.name, n.attrs), n.kids);
      OwnLinesKid(e1, Whole(n.name, n.attrs, n.kids));
    } else {
      OwnLinesKid(e1, Leaf(n.name, n.attrs));
    }
  }

  lemma PutTwo(e: Element, a: Node, b: Node)
    ensures PutAll(e, [a, b]) == Put(Put(e, a), b)
  {
    hide Put;
    assert [a, b][1..] == [b];
    PutOne(Put(e, a), b);
  }

  /** A line of text. */
  lemma TextLine(e: Element, k: nat, ns: seq<Node>)
    requires AllText(ns)
    ensures OwnLines(PutAll(e, [Line(k)] + ns)) == OwnLines(e) + LinesOf(TextOf(ns))
  {
    TextOfMore(Line(k), ns);
    PutTexts(e, [Line(k)] + ns);
    OwnLinesText(e, k, TextOf(ns));
  }

  lemma EndLine(e: Element, k: nat)
    ensures OwnLines(PutAll(e, [Line(k)])) == OwnLines(e)
  {
    assert [Line(k)] + [] == [Line(k)];
    TextLine(e, k, []);
    NoLines();
    assert OwnLines(e) + [] == OwnLines(e);
  }

  lemma EmptyLines(name: string, attrs: seq<Attribute>)
    ensures OwnLines(Leaf(name, attrs)) == []
  {
    NoLines();
  }

  // ------------------------------------------------------------------------------ what is absent

  /** Elements of one name only, besides text. */
  ghost predicate Only(ns: seq<Node>, name: string) {
    forall i | 0 <= i < |ns| && (ns[i].Elem? || ns[i].Empty?) :: ns[i].name == name
  }

  lemma OnlyAppend(a: seq<Node>, b: seq<Node>, name: string)
    requires Only(a, name) && Only(b, name)
    ensures Only(a + b, name)
  {
  }

  /** A decoder for another name finds nothing. */
  lemma {:induction false} NothingIn<T>(f: Element -> seq<T>, ns: seq<Node>, name: string)
    requires Only(ns, name) && forall e: Element | e.name == name :: f(e) == []
    ensures OfNodes(f, ns) == []
  {
    if ns != [] {
      NothingIn(f, ns[1..], name);
      if ns[0].Elem? { PutKeeps(Leaf(ns[0].name, ns[0].attrs), ns[0].kids); }
    }
  }

  /** What a decoder finds in the three parts of a tag. */
  lemma ThreeParts<T>(f: Element -> seq<T>, a: seq<Node>, b: seq<Node>, d: seq<Node>, k: nat)
    ensures OfNodes(f, a + b + d + [Line(k)]) == OfNodes(f, a) + OfNodes(f, b) + OfNodes(f, d)
  {
    OfNodesAppend(f, a, b);
    OfNodesAppend(f, a + b, d);
    OfNodesAppend(f, a + b + d, [Line(k)]);
    OfTwo(f, Line(k), Line(k));
    hide OfNodes;
    assert OfNodes(f, a) + OfNodes(f, b) + OfNodes(f, d) + [] == OfNodes(f, a) + OfNodes(f, b) + OfNodes(f, d);
  }

  // --------------------------------------------------------------------------------- members

  lemma MemberEntries(members: seq<MemberRow>, k: nat)
    ensures OfNodes(EntryIn, Each(MemberNodes(k), members)) == Flat(MemberShown, members)
  {
    hide EntryIn, OfNodes, MemberNodes, MemberShown;
    forall i | 0 <= i < |members| ensures OfNodes(EntryIn, MemberNodes(k)(members[i])) == MemberShown(members[i]) {
      MemberEntry(members[i], k);
    }
    OfEach(EntryIn, MemberNodes(k), MemberShown, members);
  }

  lemma PresenceEntries(presence: seq<PresenceRow>, k: nat)
    ensures OfNodes(EntryIn, Each(PresenceNodes(k), presence)) == Flat(PresenceShown, presence)
  {
    hide EntryIn, OfNodes, PresenceNodes, PresenceShown;
    forall i | 0 <= i < |presence|
      ensures OfNodes(EntryIn, PresenceNodes(k)(presence[i])) == PresenceShown(presence[i])
    {
      PresenceEntry(presence[i], k);
    }
    OfEach(EntryIn, PresenceNodes(k), PresenceShown, presence);
  }

  lemma MembersRead(c: ChannelBlock, k: nat, end: nat)
    ensures var ns := Each(MemberNodes(k), c.members) + Each(PresenceNodes(k), c.presence)
                      + Each(DepartureNodes(k), c.departures) + [Line(end)];
            OfNodes(EntryIn, ns) == Flat(MemberShown, c.members) + Flat(PresenceShown, c.presence)
  {
    var a, b, d := Each(MemberNodes(k), c.members), Each(PresenceNodes(k), c.presence),
                   Each(DepartureNodes(k), c.departures);
    MemberEntries(c.members, k);
    PresenceEntries(c.presence, k);
    DeparturesAreText(c.departures, k);
    TextOnly(EntryIn, d);
    hide *;
    ThreeParts(EntryIn, a, b, d, end);
    var found := OfNodes(EntryIn, a) + OfNodes(EntryIn, b);
    assert found + [] == found;
  }

  lemma MemberEntry(m: MemberRow, k: nat)
    ensures OfNodes(EntryIn, MemberNodes(k)(m)) == MemberShown(m)
  {
    var tag := Empty(if m.kind.Agent? then "agent" else "human", MemberAttrs(m));
    MemberRead(m);
    OfTwo(EntryIn, Line(k), tag);
    hide EntryIn, MemberAttrs;
  }

  lemma PresenceEntry(p: PresenceRow, k: nat)
    ensures OfNodes(EntryIn, PresenceNodes(k)(p)) == PresenceShown(p)
  {
    var tag := [Line(k), Empty("agent", PresenceAttrs(p))];
    PresenceRead(p);
    OfTwo(EntryIn, Line(k), tag[1]);
    if p.nativeFailure.Some? {
      var f := p.nativeFailure.value;
      var attrs := [Attribute("name", Handle(p.name)), Attribute("outcome", f.outcome), Attribute("text", f.message),
                    Attribute("since", f.since)];
      OutcomeRead(p.name, f);
      OfTwo(EntryIn, Line(k), Empty("native-outcome", attrs));
      OfNodesAppend(EntryIn, tag, [Line(k), Empty("native-outcome", attrs)]);
    } else {
      assert tag + [] == tag;
    }
    hide EntryIn, PresenceAttrs;
  }

  lemma {:induction false} DeparturesAreText(names: seq<string>, k: nat)
    ensures AllText(Each(DepartureNodes(k), names))
  {
    if names != [] { DeparturesAreText(names[1..], k); }
  }

  lemma DepartureLines(e: Element, name: string, k: nat)
    ensures OwnLines(PutAll(e, DepartureNodes(k)(name))) == OwnLines(e) + DepartureShown(name)
  {
    var bare := TrimStart(name, '@');
    var ns := [Literal("@"), Escaped(bare), Literal(" left.")];
    assert DepartureNodes(k)(name) == [Line(k)] + ns;
    assert ns[1..] == [Escaped(bare), Literal(" left.")] && ns[1..][1..] == [Literal(" left.")]
           && ns[1..][1..][1..] == [];
    assert TextOf([Literal(" left.")]) == " left." + TextOf([]);
    assert TextOf(ns[1..]) == bare + " left.";
    assert TextOf(ns) == "@" + (bare + " left.") == "@" + bare + " left.";
    TextLine(e, k, ns);
    hide OwnLines, PutAll, LinesOf;
  }

  lemma PresenceLines(e: Element, p: PresenceRow, k: nat)
    ensures OwnLines(PutAll(e, PresenceNodes(k)(p))) == OwnLines(e) + []
  {
    var tag := Empty("agent", PresenceAttrs(p));
    TagLine(e, k, tag);
    assert OwnLines(e) + [] == OwnLines(e);
    if p.nativeFailure.Some? {
      var f := p.nativeFailure.value;
      var outcome := Empty("native-outcome", [Attribute("name", Handle(p.name)), Attribute("outcome", f.outcome),
                                              Attribute("text", f.message), Attribute("since", f.since)]);
      PutAppend(e, [Line(k), tag], [Line(k), outcome]);
      TagLine(PutAll(e, [Line(k), tag]), k, outcome);
      hide OwnLines, PutAll, PresenceAttrs;
    } else {
      assert [Line(k), tag] + [] == [Line(k), tag];
      hide OwnLines, PutAll, PresenceAttrs;
    }
  }

  function NoLine<U>(r: U): seq<string> { [] }

  lemma {:induction false} FlatNothing<U>(rows: seq<U>)
    ensures Flat(NoLine<U>, rows) == []
  {
    if rows != [] { FlatNothing(rows[1..]); }
  }

  lemma MembersLines(c: ChannelBlock, k: nat, end: nat)
    ensures var ns := Each(MemberNodes(k), c.members) + Each(PresenceNodes(k), c.presence)
                      + Each(DepartureNodes(k), c.departures) + [Line(end)];
            OwnLines(Whole("members", [], ns)) == Flat(DepartureShown, c.departures)
  {
    var a, b, d := Each(MemberNodes(k), c.members), Each(PresenceNodes(k), c.presence),
                   Each(DepartureNodes(k), c.departures);
    var e0 := Leaf("members", []);
    var e1, e2, e3 := PutAll(e0, a), PutAll(PutAll(e0, a), b), PutAll(PutAll(PutAll(e0, a), b), d);
    PutAppend(e0, a, b);
    PutAppend(e0, a + b, d);
    PutAppend(e0, a + b + d, [Line(end)]);
    EmptyLines("members", []);
    EndLine(e3, end);
    hide PutAll, OwnLines, Flat, Each, Line;
    forall x: Element, i | 0 <= i < |c.members|
      ensures OwnLines(PutAll(x, MemberNodes(k)(c.members[i]))) == OwnLines(x) + []
    {
      var m := c.members[i];
      TagLine(x, k, Empty(if m.kind.Agent? then "agent" else "human", MemberAttrs(m)));
      assert OwnLines(x) + [] == OwnLines(x);
    }
    EachAdds(OwnLines, e0, MemberNodes(k), NoLine<MemberRow>, c.members);
    forall x: Element, i | 0 <= i < |c.presence|
      ensures OwnLines(PutAll(x, PresenceNodes(k)(c.presence[i]))) == OwnLines(x) + []
    {
      PresenceLines(x, c.presence[i], k);
    }
    EachAdds(OwnLines, e1, PresenceNodes(k), NoLine<PresenceRow>, c.presence);
    forall x: Element, i | 0 <= i < |c.departures|
      ensures OwnLines(PutAll(x, DepartureNodes(k)(c.departures[i]))) == OwnLines(x) + DepartureShown(c.departures[i])
    {
      DepartureLines(x, c.departures[i], k);
    }
    EachAdds(OwnLines, e2, DepartureNodes(k), DepartureShown, c.departures);
    FlatNothing(c.members);
    FlatNothing(c.presence);
    hide MemberNodes, PresenceNodes, DepartureNodes, DepartureShown;
    assert [] + [] + [] + Flat(DepartureShown, c.departures) == Flat(DepartureShown, c.departures);
  }

  // --------------------------------------------------------------------------------- messages

  function Messages(e: Element): seq<SeenMessage> { Collect(MessageIn, e.kids) }

  lemma TailRead(e: Element, t: string)
    ensures |MessageIn(e)| == |MessageIn(e.(tail := t))|
    ensures e.name == "message" ==> MessageIn(e.(tail := t)) == [MessageIn(e)[0].(after := LinesOf(t))]
    ensures e.name != "message" ==> MessageIn(e.(tail := t)) == []
  {
  }

  lemma BlankTail(e: Element, k: nat)
    ensures MessageIn(e.(tail := e.tail + ("\n" + Spaces(k)))) == MessageIn(e)
  {
    var s := "\n" + Spaces(k);
    assert s + "" == s && e.(tail := e.tail) == e;
    LinesMore(e.tail, k, "");
    NoLines();
    TailRead(e, e.tail + s);
    TailRead(e, e.tail);
    hide *;
    assert LinesOf(e.tail) + [] == LinesOf(e.tail);
  }

  /** A line break after a message adds nothing to it. */
  lemma BreakAfter(e: Element, k: nat)
    ensures Messages(AddText(e, "\n" + Spaces(k))) == Messages(e)
  {
    if e.kids != [] {
      var n, s := |e.kids| - 1, "\n" + Spaces(k);
      var front, last := e.kids[..n], e.kids[n];
      assert e.kids == front + [last];
      assert AddText(e, s).kids == front + [last.(tail := last.tail + s)];
      BlankTail(last, k);
      hide Collect, MessageIn, AddText;
      CollectMore(MessageIn, front, last);
      CollectMore(MessageIn, front, last.(tail := last.tail + s));
    }
  }

  lemma MessagesKid(e: Element, kid: Element)
    ensures Messages(AddKid(e, kid)) == Messages(e) + MessageIn(kid)
  {
    CollectMore(MessageIn, e.kids, kid);
  }

  lemma BodyText(m: MessageRow, k: nat)
    ensures AllText(BodyNodes(m.body, m.id, k))
    ensures var words := Words(m.body);
            BodyOf(TextOf(BodyNodes(m.body, m.id, k)), Short(m.id))
            == (if |words| > 100 then Join(words[..100], " ") + "..." else Trim(m.body), |words| > 100)
  {
    var words, id := Words(m.body), Short(m.id);
    ShortIs(m.id);
    if |words| > 100 {
      var shown := Join(words[..100], " ") + "...";
      var ns := [Line(k), Literal("[message truncated; run "), Literal("`mosaico channel read --id "), Escaped(id),
                 Literal("`]")];
      assert BodyNodes(m.body, m.id, k) == [Escaped(shown)] + ns;
      NoteText(id, k);
      TextOfMore(Escaped(shown), ns);
      ShortenedWords(m.body);
      TruncatedBody(shown, k, id);
    } else {
      assert BodyNodes(m.body, m.id, k) == [Escaped(Trim(m.body))] + [];
      TextOfMore(Escaped(Trim(m.body)), []);
      assert Trim(m.body) + "" == Trim(m.body);
      WordsOfTrim(m.body);
      WholeBody(Trim(m.body), id);
    }
  }

  lemma FourMore(a: Node, b: Node, c: Node, d: Node, rest: seq<Node>)
    requires IsText(a) && IsText(b) && IsText(c) && IsText(d) && AllText(rest)
    ensures AllText([a, b, c, d] + rest) && TextOf([a, b, c, d] + rest) == a.s + b.s + c.s + d.s + TextOf(rest)
  {
    var t, r1 := TextOf(rest), [d] + rest;
    var r2 := [c] + r1;
    var r3 := [b] + r2;
    TextOfMore(d, rest);
    TextOfMore(c, r1);
    TextOfMore(b, r2);
    TextOfMore(a, r3);
    hide *;
    assert [a] + r3 == [a, b, c, d] + rest;
    Flattened(a.s, b.s, c.s, d.s, t);
  }

  lemma Flattened(a: string, b: string, c: string, d: string, t: string)
    ensures a + (b + (c + (d + t))) == a + b + c + d + t
  {
  }

  lemma FourTexts(a: Node, b: Node, c: Node, d: Node)
    requires IsText(a) && IsText(b) && IsText(c) && IsText(d)
    ensures AllText([a, b, c, d]) && TextOf([a, b, c, d]) == a.s + b.s + c.s + d.s
  {
    FourMore(a, b, c, d, []);
    assert [a, b, c, d] + [] == [a, b, c, d] && TextOf([]) == "";
    hide *;
    assert a.s + b.s + c.s + d.s + "" == a.s + b.s + c.s + d.s;
  }

  lemma NoteText(id: string, k: nat)
    ensures var ns := [Line(k), Literal("[message truncated; run "), Literal("`mosaico channel read --id "),
                       Escaped(id),
                       Literal("`]")];
            AllText(ns) && TextOf(ns) == "\n" + Spaces(k) + Note(id)
  {
    var a, b, c, d := Literal("[message truncated; run "), Literal("`mosaico channel read --id "), Escaped(id),
                      Literal("`]");
    assert a.s + b.s + c.s + d.s == Note(id);
    LineFirst(a, b, c, d, k);
  }

  lemma LineFirst(a: Node, b: Node, c: Node, d: Node, k: nat)
    requires IsText(a) && IsText(b) && IsText(c) && IsText(d)
    ensures AllText([Line(k), a, b, c, d])
            && TextOf([Line(k), a, b, c, d]) == "\n" + Spaces(k) + (a.s + b.s + c.s + d.s)
  {
    FourTexts(a, b, c, d);
    TextOfMore(Line(k), [a, b, c, d]);
    hide TextOf;
    assert [Line(k)] + [a, b, c, d] == [Line(k), a, b, c, d];
  }

  lemma WholeText(name: string, attrs: seq<Attribute>, ns: seq<Node>)
    requires AllText(ns)
    ensures Whole(name, attrs, ns) == Element(name, attrs, TextOf(ns), [], "")
  {
    PutTexts(Leaf(name, attrs), ns);
    assert "" + TextOf(ns) == TextOf(ns);
  }

  lemma MessageTag(m: MessageRow, now: nat, k: nat, t: string)
    requires t == "" || LinesOf(t) == LinesOf("Follow up on " + Short(m.id) + ": reply for substantive "
                                              + "context or react for an ACK.")
    requires t == "" <==> !(m.mention && m.needsReplyNudge)
    ensures var e := Whole("message", MessageAttrs(m, now), BodyNodes(m.body, m.id, k));
            MessageIn(e.(tail := t)) == MessageShown(now)(m)
  {
    var ns := BodyNodes(m.body, m.id, k);
    BodyText(m, k);
    WholeText("message", MessageAttrs(m, now), ns);
    var e := Element("message", MessageAttrs(m, now), TextOf(ns), [], t);
    MessageHead(m, now, e);
    NoLines();
    hide MessageAttrs, BodyNodes, TextOf, Get, LinesOf, BodyOf, Words, Join, Trim, WhenOf, WhenShown, AtNames, Flat;
  }

  lemma FollowUpText(id: string, k: nat)
    ensures var ns := [Line(k), Literal("Follow up on "), Escaped(id), Literal(": reply for substantive "),
                       Literal("context or react for an ACK.")];
            && AllText(ns)
            && TextOf(ns) == "\n" + Spaces(k) + ("Follow up on " + id + ": reply for substantive "
                                                 + "context or react for an ACK.")
  {
    LineFirst(Literal("Follow up on "), Escaped(id), Literal(": reply for substantive "),
              Literal("context or react for an ACK."), k);
    hide *;
  }

  lemma MessageElement(e: Element, m: MessageRow, now: nat, k: nat)
    ensures var attrs, kids := MessageAttrs(m, now), BodyNodes(m.body, m.id, k + 2);
            && PutAll(e, [Line(k), Elem("message", attrs, kids)])
               == AddKid(AddText(e, "\n" + Spaces(k)), Whole("message", attrs, kids))
            && Whole("message", attrs, kids).tail == ""
  {
    var attrs, kids := MessageAttrs(m, now), BodyNodes(m.body, m.id, k + 2);
    hide MessageAttrs, BodyNodes;
    PutKeeps(Leaf("message", attrs), kids);
    hide PutAll;
    PutTwo(e, Line(k), Elem("message", attrs, kids));
  }

  lemma TailText(e: Element, kid: Element, t: string)
    requires kid.tail == ""
    ensures AddText(AddKid(e, kid), t) == AddKid(e, kid.(tail := t))
  {
    assert "" + t == t;
    assert (e.kids + [kid])[|e.kids| := kid.(tail := t)] == e.kids + [kid.(tail := t)];
  }

  lemma LineIsOwn(s: string, k: nat)
    ensures LinesOf("\n" + Spaces(k) + s) == LinesOf(s)
  {
    var t := "\n" + Spaces(k) + s;
    assert "" + t == t;
    LinesMore("", k, s);
    NoLines();
    assert [] + LinesOf(s) == LinesOf(s);
  }

  lemma FollowUpAdds(e: Element, id: string, k: nat)
    ensures var s := "Follow up on " + id + ": reply for substantive " + "context or react for an ACK.";
            var ns := [Line(k), Literal("Follow up on "), Escaped(id), Literal(": reply for substantive "),
                       Literal("context or react for an ACK.")];
            PutAll(e, ns) == AddText(e, "\n" + Spaces(k) + s) && LinesOf("\n" + Spaces(k) + s) == LinesOf(s)
  {
    var s := "Follow up on " + id + ": reply for substantive " + "context or react for an ACK.";
    FollowUpText(id, k);
    hide *;
    PutTexts(e, [Line(k), Literal("Follow up on "), Escaped(id), Literal(": reply for substantive "),
                 Literal("context or react for an ACK.")]);
    LineIsOwn(s, k);
  }

  lemma MessageAdds(e: Element, m: MessageRow, now: nat, k: nat)
    ensures Messages(PutAll(e, MessageNodes(k, now)(m))) == Messages(e) + MessageShown(now)(m)
  {
    var attrs, kids := MessageAttrs(m, now), BodyNodes(m.body, m.id, k + 2);
    var tag, whole, e1 := Elem("message", attrs, kids), Whole("message", attrs, kids), AddText(e, "\n" + Spaces(k));
    var id := Short(m.id);
    ShortIs(m.id);
    if m.mention && m.needsReplyNudge {
      var more := [Line(k), Literal("Follow up on "), Escaped(id), Literal(": reply for substantive "),
                   Literal("context or react for an ACK.")];
      assert MessageNodes(k, now)(m) == [Line(k), tag] + more;
      hide *;
      var t := "\n" + Spaces(k)
               + ("Follow up on " + id + ": reply for substantive " + "context or react for an ACK.");
      BreakAfter(e, k);
      MessageElement(e, m, now, k);
      PutAppend(e, [Line(k), tag], more);
      FollowUpAdds(AddKid(e1, whole), id, k);
      TailText(e1, whole, t);
      MessageTag(m, now, k + 2, t);
      MessagesKid(e1, whole.(tail := t));
    } else {
      assert [Line(k), tag] + [] == [Line(k), tag];
      assert MessageNodes(k, now)(m) == [Line(k), tag];
      hide *;
      BreakAfter(e, k);
      MessageElement(e, m, now, k);
      MessageTag(m, now, k + 2, "");
      assert whole.(tail := "") == whole;
      MessagesKid(e1, whole);
    }
  }

  // ---------------------------------------------------------------------------------- chatter

  function OmittedNodes(omitted: nat, k: nat): seq<Node> {
    if omitted > 0
    then [Line(k), Empty("omitted", [Attribute("count", Decimal(omitted)), Attribute("window", "last 4h")])]
    else []
  }

  function ChatterNodes(c: ChannelBlock, k: nat, now: nat): seq<Node> {
    OmittedNodes(c.omitted, k + 2) + Each(MessageNodes(k + 2, now), c.messages) + [Line(k)]
  }

  lemma {:induction false} OnlyMessages(rows: seq<MessageRow>, k: nat, now: nat)
    ensures Only(Each(MessageNodes(k, now), rows), "message")
  {
    hide MessageAttrs, BodyNodes;
    if rows != [] {
      OnlyMessages(rows[1..], k, now);
      OnlyAppend(MessageNodes(k, now)(rows[0]), Each(MessageNodes(k, now), rows[1..]), "message");
    }
  }

  lemma HeadOmitted(omitted: nat, k: nat)
    ensures OfNodes(OmittedIn, OmittedNodes(omitted, k)) == Shown(omitted > 0, (omitted, "last 4h"))
  {
    if omitted > 0 {
      OmittedRead(omitted);
      OfTwo(OmittedIn, Line(k), OmittedNodes(omitted, k)[1]);
      hide OfNodes, OmittedIn, Decimal;
    }
  }

  lemma ChatterOmitted(c: ChannelBlock, k: nat, now: nat)
    ensures OfNodes(OmittedIn, ChatterNodes(c, k, now)) == Shown(c.omitted > 0, (c.omitted, "last 4h"))
  {
    var head, rows := OmittedNodes(c.omitted, k + 2), Each(MessageNodes(k + 2, now), c.messages);
    HeadOmitted(c.omitted, k + 2);
    OnlyMessages(c.messages, k + 2, now);
    NothingIn(OmittedIn, rows, "message");
    assert OfNodes(OmittedIn, []) == [];
    hide Each, Only, OfNodes, OmittedNodes, OmittedIn;
    ThreeParts(OmittedIn, head, rows, [], k);
    assert head + rows + [] == head + rows;
  }

  lemma OmittedAdds(e: Element, omitted: nat, k: nat)
    ensures Messages(PutAll(e, OmittedNodes(omitted, k))) == Messages(e)
  {
    if omitted > 0 {
      var tag := Empty("omitted", [Attribute("count", Decimal(omitted)), Attribute("window", "last 4h")]);
      PutTwo(e, Line(k), tag);
      BreakAfter(e, k);
      MessagesKid(AddText(e, "\n" + Spaces(k)), Leaf(tag.name, tag.attrs));
    }
  }

  lemma ChatterMessages(c: ChannelBlock, k: nat, now: nat)
    ensures Messages(Whole("chatter", [], ChatterNodes(c, k, now))) == Flat(MessageShown(now), c.messages)
  {
    var head, rows := OmittedNodes(c.omitted, k + 2), Each(MessageNodes(k + 2, now), c.messages);
    var e0 := Leaf("chatter", []);
    assert Messages(e0) == [];
    PutAppend(e0, head, rows);
    PutAppend(e0, head + rows, [Line(k)]);
    var e1 := PutAll(e0, head);
    var e2 := PutAll(e1, rows);
    OmittedAdds(e0, c.omitted, k + 2);
    PutOne(e2, Line(k));
    BreakAfter(e2, k);
    hide PutAll, Messages, Flat, Each, OmittedNodes;
    forall x: Element, i | 0 <= i < |c.messages|
      ensures Messages(PutAll(x, MessageNodes(k + 2, now)(c.messages[i])))
              == Messages(x) + MessageShown(now)(c.messages[i])
    {
      MessageAdds(x, c.messages[i], now, k + 2);
    }
    EachAdds(Messages, e1, MessageNodes(k + 2, now), MessageShown(now), c.messages);
    hide MessageNodes, MessageShown;
    assert [] + Flat(MessageShown(now), c.messages) == Flat(MessageShown(now), c.messages);
  }

  // --------------------------------------------------------------------------------- channels

  function ChannelIn(e: Element): seq<SeenChannel> { if e.name == "channel" then [ChannelOf(e)] else [] }

  lemma {:induction false} ChannelsCollect(kids: seq<Element>)
    ensures ChannelsIn(kids) == Collect(ChannelIn, kids)
  {
    hide ChannelOf;
    if kids != [] { ChannelsCollect(kids[1..]); }
  }

  lemma ChannelsIgnoreTails()
    ensures IgnoresTail(ChannelIn)
  {
    forall e: Element, t: string ensures ChannelOf(e.(tail := t)) == ChannelOf(e) {}
    hide ChannelOf;
  }

  function PeopleNodes(c: ChannelBlock, k: nat): seq<Node> {
    Each(MemberNodes(k + 2), c.members) + Each(PresenceNodes(k + 2), c.presence)
    + Each(DepartureNodes(k + 2), c.departures) + [Line(k)]
  }

  /** One section of a channel, found by a decoder of its name. */
  lemma SectionRead<T(!new)>(f: Element -> seq<T>, name: string, k: nat, ns: seq<Node>)
    ensures OfNodes(f, [Line(k), Elem(name, [], ns)]) == f(Whole(name, [], ns))
  {
    OfTwo(f, Line(k), Elem(name, [], ns));
    assert [] + f(Whole(name, [], ns)) == f(Whole(name, [], ns));
    hide OfNodes, Whole;
  }

  lemma InsideIgnoresTail<T(!new)>(name: string, f: Element -> seq<T>)
    ensures IgnoresTail(Inside(name, f)) && IgnoresTail(LinesIn(name))
  {
  }

  lemma EntriesFound(c: ChannelBlock, k: nat)
    ensures OfNodes(Inside("members", EntryIn), [Line(k), Elem("members", [], PeopleNodes(c, k))])
            == Flat(MemberShown, c.members) + Flat(PresenceShown, c.presence)
  {
    var kids := PeopleNodes(c, k);
    PutKeeps(Leaf("members", []), kids);
    MembersRead(c, k + 2, k);
    assert Inside("members", EntryIn)(Whole("members", [], kids)) == Collect(EntryIn, Whole("members", [], kids).kids);
    hide OfNodes, Collect, PutAll, Each, Flat, Inside, EntryIn;
    SectionRead(Inside("members", EntryIn), "members", k, kids);
    CollectWhole(EntryIn, "members", [], kids);
  }

  lemma DeparturesFound(c: ChannelBlock, k: nat)
    ensures OfNodes(LinesIn("members"), [Line(k), Elem("members", [], PeopleNodes(c, k))])
            == Flat(DepartureShown, c.departures)
  {
    var kids := PeopleNodes(c, k);
    PutKeeps(Leaf("members", []), kids);
    MembersLines(c, k + 2, k);
    hide OfNodes, OwnLines, PutAll, Each, Flat;
    SectionRead(LinesIn("members"), "members", k, kids);
  }

  /** What the decoders of a channel's sections find in its members. */
  lemma PeopleFound(c: ChannelBlock, k: nat)
    ensures OfNodes(Inside("members", EntryIn), MembersNodes(c, k))
            == Flat(MemberShown, c.members) + Flat(PresenceShown, c.presence)
    ensures OfNodes(LinesIn("members"), MembersNodes(c, k)) == Flat(DepartureShown, c.departures)
  {
    if c.members != [] || c.presence != [] || c.departures != [] {
      assert MembersNodes(c, k) == [Line(k), Elem("members", [], PeopleNodes(c, k))];
      hide *;
      EntriesFound(c, k);
      DeparturesFound(c, k);
    }
  }

  lemma ChatterFound(c: ChannelBlock, k: nat, now: nat)
    ensures OfNodes(Inside("chatter", OmittedIn), MessagesNodes(c, k, now))
            == Shown(c.omitted > 0, (c.omitted, "last 4h"))
    ensures OfNodes(Inside("chatter", MessageIn), MessagesNodes(c, k, now)) == Flat(MessageShown(now), c.messages)
  {
    if c.messages != [] || c.omitted != 0 {
      var kids := ChatterNodes(c, k, now);
      assert MessagesNodes(c, k, now) == [Line(k), Elem("chatter", [], kids)];
      SectionRead(Inside("chatter", OmittedIn), "chatter", k, kids);
      SectionRead(Inside("chatter", MessageIn), "chatter", k, kids);
      PutKeeps(Leaf("chatter", []), kids);
      CollectWhole(OmittedIn, "chatter", [], kids);
      ChatterOmitted(c, k, now);
      ChatterMessages(c, k, now);
      hide OfNodes, Collect, PutAll, Each, Flat, MessagesNodes, MessageShown, OmittedIn, MessageIn;
    }
  }

  lemma {:induction false} OnlyChannels(cs: seq<ChannelBlock>, k: nat, now: nat)
    ensures Only(EachChannel(cs, k, now), "channel")
  {
    if cs != [] {
      OnlyChannels(cs[1..], k, now);
      OnlyAppend(ChannelNodes(cs[0], k, now), EachChannel(cs[1..], k, now), "channel");
    }
  }

  lemma SectionNames(c: ChannelBlock, k: nat, now: nat)
    ensures Only(MembersNodes(c, k), "members") && Only(MessagesNodes(c, k, now), "chatter")
  {
  }

  lemma NoneInSections<T>(f: Element -> seq<T>, name: string, c: ChannelBlock, k: nat, now: nat)
    requires forall e: Element | e.name != name :: f(e) == []
    ensures name != "members" ==> OfNodes(f, MembersNodes(c, k)) == []
    ensures name != "chatter" ==> OfNodes(f, MessagesNodes(c, k, now)) == []
    ensures name != "channel" ==> OfNodes(f, EachChannel(c.children, k, now)) == []
  {
    SectionNames(c, k, now);
    OnlyChannels(c.children, k, now);
    hide OfNodes, Only, MembersNodes, MessagesNodes, EachChannel;
    if name != "members" { NothingIn(f, MembersNodes(c, k), "members"); }
    if name != "chatter" { NothingIn(f, MessagesNodes(c, k, now), "chatter"); }
    if name != "channel" { NothingIn(f, EachChannel(c.children, k, now), "channel"); }
  }

  function ChannelKids(c: ChannelBlock, k: nat, now: nat): seq<Node> {
    MembersNodes(c, k + 2) + MessagesNodes(c, k + 2, now) + EachChannel(c.children, k + 2, now) + [Line(k)]
  }

  lemma CollectKids<T(!new)>(f: Element -> seq<T>, c: ChannelBlock, k: nat, now: nat)
    requires IgnoresTail(f)
    ensures Collect(f, Whole("channel", ChannelAttrs(c), ChannelKids(c, k, now)).kids)
            == OfNodes(f, MembersNodes(c, k + 2)) + OfNodes(f, MessagesNodes(c, k + 2, now))
               + OfNodes(f, EachChannel(c.children, k + 2, now))
  {
    var a, b, d := MembersNodes(c, k + 2), MessagesNodes(c, k + 2, now), EachChannel(c.children, k + 2, now);
    assert ChannelKids(c, k, now) == a + b + d + [Line(k)];
    hide *;
    CollectWhole(f, "channel", ChannelAttrs(c), ChannelKids(c, k, now));
    ThreeParts(f, a, b, d, k);
  }

  /** A decoder for the tags of one name reads one section of a channel. */
  lemma InSection<T(!new)>(f: Element -> seq<T>, name: string, c: ChannelBlock, k: nat, now: nat)
    requires IgnoresTail(f) && forall e: Element | e.name != name :: f(e) == []
    ensures var found := Collect(f, Whole("channel", ChannelAttrs(c), ChannelKids(c, k, now)).kids);
            && (name == "members" ==> found == OfNodes(f, MembersNodes(c, k + 2)))
            && (name == "chatter" ==> found == OfNodes(f, MessagesNodes(c, k + 2, now)))
            && (name == "channel" ==> found == OfNodes(f, EachChannel(c.children, k + 2, now)))
  {
    hide *;
    CollectKids(f, c, k, now);
    NoneInSections(f, name, c, k + 2, now);
  }

  /** The sections of a channel, read from its children. */
  lemma SectionsRead(c: ChannelBlock, k: nat, now: nat)
    ensures var kids := Whole("channel", ChannelAttrs(c), ChannelKids(c, k, now)).kids;
            && Collect(Inside("members", EntryIn), kids)
               == Flat(MemberShown, c.members) + Flat(PresenceShown, c.presence)
            && Collect(LinesIn("members"), kids) == Flat(DepartureShown, c.departures)
            && Collect(Inside("chatter", OmittedIn), kids) == Shown(c.omitted > 0, (c.omitted, "last 4h"))
            && Collect(Inside("chatter", MessageIn), kids) == Flat(MessageShown(now), c.messages)
            && ChannelsIn(kids) == OfNodes(ChannelIn, EachChannel(c.children, k + 2, now))
  {
    PeopleFound(c, k + 2);
    ChatterFound(c, k + 2, now);
    InsideIgnoresTail("members", EntryIn);
    InsideIgnoresTail("chatter", OmittedIn);
    InsideIgnoresTail("chatter", MessageIn);
    ChannelsIgnoreTails();
    ChannelsCollect(Whole("channel", ChannelAttrs(c), ChannelKids(c, k, now)).kids);
    hide OfNodes, Collect, Flat, EntryIn, OmittedIn, MessageIn, OwnLines, ChannelOf, Whole, ChannelAttrs, ChannelKids,
         MembersNodes, MessagesNodes, EachChannel, MessageShown, IgnoresTail, ChannelsIn;
    InSection(Inside("members", EntryIn), "members", c, k, now);
    InSection(LinesIn("members"), "members", c, k, now);
    InSection(Inside("chatter", OmittedIn), "chatter", c, k, now);
    InSection(Inside("chatter", MessageIn), "chatter", c, k, now);
    InSection(ChannelIn, "channel", c, k, now);
  }

  lemma CompactRead(c: ChannelBlock, now: nat)
    requires c.IsCompact()
    ensures ChannelOf(Leaf("channel", ChannelAttrs(c))) == ChannelShown(c, now)
  {
    ChannelHead(c, Leaf("channel", ChannelAttrs(c)));
    hide ChannelAttrs, Get, Lookup, MessageShown;
  }

  lemma DetailedRead(c: ChannelBlock, k: nat, now: nat)
    requires OfNodes(ChannelIn, EachChannel(c.children, k + 2, now)) == ChannelsShown(c.children, now)
    ensures var e := Whole("channel", ChannelAttrs(c), ChannelKids(c, k, now));
            e.name == "channel" && ChannelOf(e) == ChannelShown(c, now)
  {
    var attrs, kids := ChannelAttrs(c), ChannelKids(c, k, now);
    var e := Whole("channel", attrs, kids);
    SectionsRead(c, k, now);
    PutKeeps(Leaf("channel", attrs), kids);
    ChannelHead(c, e);
    hide OfNodes, Collect, Flat, PutAll, ChannelAttrs, ChannelKids, EachChannel, ChannelsIn, MessageShown, Get, Lookup;
  }

  lemma OneChannel(e: Element, n: Node, k: nat)
    requires e.name == "channel" && OfNode(ChannelIn, n) == ChannelIn(e)
    ensures OfNodes(ChannelIn, [Line(k), n]) == [ChannelOf(e)]
  {
    OfTwo(ChannelIn, Line(k), n);
    hide OfNodes, ChannelOf;
  }

  lemma {:induction false} ChannelRead(c: ChannelBlock, k: nat, now: nat)
    ensures OfNodes(ChannelIn, ChannelNodes(c, k, now)) == [ChannelShown(c, now)]
    decreases c, 1
  {
    var attrs, kids := ChannelAttrs(c), ChannelKids(c, k, now);
    if c.IsCompact() {
      assert ChannelNodes(c, k, now) == [Line(k), Empty("channel", attrs)];
      hide OfNodes, ChannelOf, ChannelShown, ChannelAttrs, ChannelNodes, ChannelKids, Line, ChannelBlock.IsCompact;
      CompactRead(c, now);
      OneChannel(Leaf("channel", attrs), Empty("channel", attrs), k);
    } else {
      assert ChannelNodes(c, k, now) == [Line(k), Elem("channel", attrs, kids)];
      hide OfNodes, ChannelOf, ChannelShown, ChannelAttrs, ChannelNodes, ChannelKids, Line, Whole,
           ChannelBlock.IsCompact;
      ChannelsRead(c.children, k + 2, now);
      DetailedRead(c, k, now);
      OneChannel(Whole("channel", attrs, kids), Elem("channel", attrs, kids), k);
    }
  }

  lemma {:induction false} ChannelsRead(cs: seq<ChannelBlock>, k: nat, now: nat)
    ensures OfNodes(ChannelIn, EachChannel(cs, k, now)) == ChannelsShown(cs, now)
    decreases cs, 0
  {
    hide ChannelNodes, ChannelShown, ChannelOf;
    if cs != [] {
      ChannelRead(cs[0], k, now);
      ChannelsRead(cs[1..], k, now);
      OfNodesAppend(ChannelIn, ChannelNodes(cs[0], k, now), EachChannel(cs[1..], k, now));
    }
  }
}
