/** What is read out of the single rows of a printed document. */
module DocumentRows {
  import opened Order
  import opened Chars
  import opened CharLaws
  import opened Fabric
  import opened Xml
  import opened Document
  import opened DocumentReader
  import opened DocumentTree

  // ------------------------------------------------------------------------------- attributes

  lemma {:induction false} LookupAppend(a: seq<Attribute>, b: seq<Attribute>, k: string)
    ensures Lookup(a + b, k) == if Lookup(a, k).Some? then Lookup(a, k) else Lookup(b, k)
    decreases |a|
  {
    if a == [] {
      assert a + b == b;
    } else {
      assert (a + b)[0] == a[0] && (a + b)[1..] == a[1..] + b;
      LookupAppend(a[1..], b, k);
    }
  }

  lemma LookupOne(key: string, value: string, k: string)
    ensures Lookup([Attribute(key, value)], k) == if k == key then Some(value) else None
    ensures Lookup(Opt(key, value), k) == if k == key && value != "" then Some(value) else None
  {
    assert [Attribute(key, value)][1..] == [];
  }

  /** One more attribute under a new key. */
  lemma LookupMore(a: seq<Attribute>, key: string, value: string, k: string)
    ensures Lookup(a, k).Some? ==>
              Lookup(a + [Attribute(key, value)], k) == Lookup(a + Opt(key, value), k) == Lookup(a, k)
    ensures Lookup(a, k).None? ==>
              && Lookup(a + [Attribute(key, value)], k) == (if k == key then Some(value) else None)
              && Lookup(a + Opt(key, value), k) == (if k == key && value != "" then Some(value) else None)
  {
    LookupAppend(a, [Attribute(key, value)], k);
    LookupAppend(a, Opt(key, value), k);
    LookupOne(key, value, k);
  }

  lemma HandleIs(name: string)
    ensures Handle(name) == "@" + Bare(name) && Unhandled(Handle(name)) == Bare(name)
  {
  }

  lemma ShortIs(id: string)
    ensures ShortId(id) == Short(id)
  {
  }

  // ---------------------------------------------------------------------------------- numbers

  lemma {:induction false} NumberOf(n: nat)
    ensures Number(Decimal(n)) == n && Decimal(n) != ""
    decreases n
  {
    if n < 10 {
      DigitIs(n);
      assert [Digit(n)][..0] == "";
    } else {
      NumberOf(n / 10);
      DigitIs(n % 10);
      assert (Decimal(n / 10) + [Digit(n % 10)])[..|Decimal(n / 10)|] == Decimal(n / 10);
    }
  }

  lemma DigitIs(n: nat)
    requires n < 10
    ensures '0' <= Digit(n) <= '9' && Digit(n) as int - '0' as int == n
  {
  }

  // ------------------------------------------------------------------------------------- rows

  function IfSet(value: string): Option<string> { if value == "" then None else Some(value) }

  lemma SelfLookup(r: SelfRow, k: string)
    ensures Lookup(SelfAttrs(r), k)
            == if k == "name" then Some(Handle(r.name))
               else if k == "host" then Some(r.host)
               else if k == "headless" then Some(if r.headless then "on" else "off")
               else if k == "unhosted" then if r.unhosted then Some("true") else None
               else if k == "workspace" then IfSet(r.workspace)
               else if k == "branch" then IfSet(r.branch)
               else if k == "title" then IfSet(r.title)
               else None
  {
    var a0 := [Attribute("name", Handle(r.name))];
    var a1 := a0 + [Attribute("host", r.host)];
    var headless, flag := if r.headless then "on" else "off", if r.unhosted then "true" else "";
    var a2 := a1 + [Attribute("headless", headless)];
    var a3 := a2 + Opt("unhosted", flag);
    var a4 := a3 + Opt("workspace", r.workspace);
    var a5 := a4 + Opt("branch", r.branch);
    assert SelfAttrs(r) == a5 + Opt("title", r.title);
    hide Opt, Lookup, Handle;
    LookupOne("name", Handle(r.name), k);
    LookupMore(a0, "host", r.host, k);
    LookupMore(a1, "headless", headless, k);
    LookupMore(a2, "unhosted", flag, k);
    LookupMore(a3, "workspace", r.workspace, k);
    LookupMore(a4, "branch", r.branch, k);
    LookupMore(a5, "title", r.title, k);
  }

  lemma SelfRead(r: SelfRow)
    ensures SelfIn(Leaf("self", SelfAttrs(r))) == [SelfShown(r)]
  {
    SelfLookup(r, "name");
    SelfLookup(r, "host");
    SelfLookup(r, "headless");
    SelfLookup(r, "unhosted");
    SelfLookup(r, "workspace");
    SelfLookup(r, "branch");
    SelfLookup(r, "title");
    HandleIs(r.name);
    hide Handle, Opt, Lookup, Unhandled, Bare, SelfAttrs;
  }

  lemma AgentRead(a: AgentRow)
    ensures AgentIn(Leaf("agent", [Attribute("ref", a.reference)] + Opt("about", a.about))) == [a]
  {
    var r := [Attribute("ref", a.reference)];
    LookupOne("ref", a.reference, "ref");
    LookupOne("ref", a.reference, "about");
    LookupMore(r, "about", a.about, "ref");
    LookupMore(r, "about", a.about, "about");
    hide Opt, Lookup;
  }

  lemma OriginLookup(name: string, host: string, workspace: string, branch: string, k: string)
    ensures Lookup([Attribute("name", name)] + Origin(host, workspace, branch), k)
            == if k == "name" then Some(name)
               else if k == "host" then IfSet(host)
               else if k == "workspace" then IfSet(workspace)
               else if k == "branch" then IfSet(branch)
               else None
  {
    var a0 := [Attribute("name", name)];
    var a1 := a0 + Opt("host", host);
    var a2 := a1 + Opt("workspace", workspace);
    assert a0 + Origin(host, workspace, branch) == a2 + Opt("branch", branch);
    hide Opt, Lookup, Origin;
    LookupOne("name", name, k);
    LookupMore(a0, "host", host, k);
    LookupMore(a1, "workspace", workspace, k);
    LookupMore(a2, "branch", branch, k);
  }

  /** A member's or presence's attributes: name and origin, then state, status and since. */
  lemma PersonLookup(name: string, host: string, workspace: string, branch: string, state: string, status: string,
                     since: string, always: bool, k: string)
    ensures var attrs := [Attribute("name", name)] + Origin(host, workspace, branch) + Opt("state", state)
                         + Opt("status", status)
                         + (if always then [Attribute("since", since)] else Opt("since", since));
            Lookup(attrs, k)
            == if k == "name" then Some(name)
               else if k == "host" then IfSet(host)
               else if k == "workspace" then IfSet(workspace)
               else if k == "branch" then IfSet(branch)
               else if k == "state" then IfSet(state)
               else if k == "status" then IfSet(status)
               else if k == "since" then if always then Some(since) else IfSet(since)
               else None
  {
    var a0 := [Attribute("name", name)] + Origin(host, workspace, branch);
    var a1 := a0 + Opt("state", state);
    var a2 := a1 + Opt("status", status);
    OriginLookup(name, host, workspace, branch, k);
    hide Opt, Lookup, Origin;
    LookupMore(a0, "state", state, k);
    LookupMore(a1, "status", status, k);
    LookupMore(a2, "since", since, k);
  }

  lemma StateRead(state: SessionState)
    ensures StateOf(state.AsStr()) == Some(state) && state.AsStr() != "" && StateOf("") == None
  {
  }

  lemma PersonRead(e: Element, kind: MemberKind, name: string, host: string, workspace: string, branch: string,
                   state: string, status: string, since: string, always: bool)
    requires e.name == if kind.Agent? then "agent" else "human"
    requires e.attrs == [Attribute("name", Handle(name))] + Origin(host, workspace, branch) + Opt("state", state)
                        + Opt("status", status) + (if always then [Attribute("since", since)] else Opt("since", since))
    ensures EntryIn(e) == [Person(kind, Bare(name), host, workspace, branch, StateOf(state), status, since)]
  {
    var at := Handle(name);
    PersonLookup(at, host, workspace, branch, state, status, since, always, "name");
    PersonLookup(at, host, workspace, branch, state, status, since, always, "host");
    PersonLookup(at, host, workspace, branch, state, status, since, always, "workspace");
    PersonLookup(at, host, workspace, branch, state, status, since, always, "branch");
    PersonLookup(at, host, workspace, branch, state, status, since, always, "state");
    PersonLookup(at, host, workspace, branch, state, status, since, always, "status");
    PersonLookup(at, host, workspace, branch, state, status, since, always, "since");
    HandleIs(name);
    hide Handle, Opt, Lookup, Unhandled, Bare, Origin, StateOf;
  }

  lemma MemberRead(m: MemberRow)
    ensures EntryIn(Leaf(if m.kind.Agent? then "agent" else "human", MemberAttrs(m))) == MemberShown(m)
  {
    var state := if m.state.Some? then m.state.value.AsStr() else "";
    if m.state.Some? { StateRead(m.state.value); } else { StateRead(Idle); }
    assert Opt("state", state) == if m.state.Some? then [Attribute("state", m.state.value.AsStr())] else [];
    hide Opt, StateOf, Handle, Origin, EntryIn, Bare;
    PersonRead(Leaf(if m.kind.Agent? then "agent" else "human", MemberAttrs(m)), m.kind, m.name, m.host, m.workspace,
               m.branch, state, m.status, m.since, false);
  }

  lemma PresenceRead(p: PresenceRow)
    ensures EntryIn(Leaf("agent", PresenceAttrs(p)))
            == [Person(Agent, Bare(p.name), p.host, p.workspace, p.branch, Some(p.state), p.status, p.since)]
  {
    StateRead(p.state);
    assert Opt("state", p.state.AsStr()) == [Attribute("state", p.state.AsStr())];
    hide Opt, StateOf, Handle, Origin, EntryIn, Bare;
    PersonRead(Leaf("agent", PresenceAttrs(p)), Agent, p.name, p.host, p.workspace, p.branch, p.state.AsStr(), p.status,
               p.since, true);
  }

  lemma {:induction false} LookupFour(a: Attribute, b: Attribute, c: Attribute, d: Attribute, k: string)
    ensures Lookup([a, b, c, d], k)
            == if k == a.key then Some(a.value) else if k == b.key then Some(b.value)
               else if k == c.key then Some(c.value) else if k == d.key then Some(d.value) else None
  {
    var x, y := [b, c, d], [c, d];
    assert [a, b, c, d][1..] == x && x[1..] == y && y[1..] == [d];
    LookupOne(d.key, d.value, k);
    assert Lookup(y, k) == if c.key == k then Some(c.value) else Lookup([d], k);
    assert Lookup(x, k) == if b.key == k then Some(b.value) else Lookup(y, k);
    assert Lookup([a, b, c, d], k) == if a.key == k then Some(a.value) else Lookup(x, k);
  }

  lemma OutcomeRead(name: string, f: NativeFailureRow)
    ensures EntryIn(Leaf("native-outcome", [Attribute("name", Handle(name)), Attribute("outcome", f.outcome),
                                            Attribute("text", f.message), Attribute("since", f.since)]))
            == [Outcome(Bare(name), f.outcome, f.message, f.since)]
  {
    var a, b, c, d := Attribute("name", Handle(name)), Attribute("outcome", f.outcome), Attribute("text", f.message),
                      Attribute("since", f.since);
    LookupFour(a, b, c, d, "name");
    LookupFour(a, b, c, d, "outcome");
    LookupFour(a, b, c, d, "text");
    LookupFour(a, b, c, d, "since");
    HandleIs(name);
    hide Handle, Lookup, Unhandled, Bare;
  }

  lemma MentionRead(row: ImportantRow)
    ensures MentionIn(Leaf("mention", [Attribute("channel", row.channelRef),
                                       Attribute("message_id", ShortId(row.messageId))]))
            == MentionShown(row)
  {
    var a, b := Attribute("channel", row.channelRef), Attribute("message_id", ShortId(row.messageId));
    ShortIs(row.messageId);
    assert [a, b][1..] == [b];
    LookupOne("message_id", b.value, "message_id");
    assert Lookup([a, b], "message_id") == Lookup([b], "message_id");
  }

  lemma OmittedRead(n: nat)
    ensures OmittedIn(Leaf("omitted", [Attribute("count", Decimal(n)), Attribute("window", "last 4h")]))
            == [(n, "last 4h")]
    ensures CountIn(Leaf("omitted", [Attribute("count", Decimal(n))])) == [n]
  {
    var a, b := Attribute("count", Decimal(n)), Attribute("window", "last 4h");
    NumberOf(n);
    assert [a, b][1..] == [b] && [b][1..] == [];
    LookupOne("window", b.value, "window");
    assert Lookup([a, b], "window") == Lookup([b], "window");
    assert Lookup([a, b], "count") == Some(a.value) && Lookup([a], "count") == Some(a.value);
  }

  // ---------------------------------------------------------------------------------- channels

  lemma ChannelLookup(c: ChannelBlock, k: string)
    ensures Lookup(ChannelAttrs(c), k)
            == if k == "name" then Some(c.path)
               else if k == "about" then IfSet(c.about)
               else if k == "agents" then if c.agentCount.Some? then Some(Decimal(c.agentCount.value)) else None
               else if k == "last-active" then c.lastActive
               else None
  {
    var a0 := [Attribute("name", c.path)];
    var a1 := a0 + Opt("about", c.about);
    var count := if c.agentCount.Some? then Decimal(c.agentCount.value) else "";
    var active := if c.lastActive.Some? then c.lastActive.value else "";
    var a2 := a1 + if c.agentCount.Some? then [Attribute("agents", count)] else [];
    assert ChannelAttrs(c) == a2 + if c.lastActive.Some? then [Attribute("last-active", active)] else [];
    assert a1 + [] == a1 && a2 + [] == a2;
    hide Opt, Lookup, Decimal;
    LookupOne("name", c.path, k);
    LookupMore(a0, "about", c.about, k);
    LookupMore(a1, "agents", count, k);
    LookupMore(a2, "last-active", active, k);
  }

  lemma ChannelHead(c: ChannelBlock, e: Element)
    requires e.attrs == ChannelAttrs(c)
    ensures Get(e, "name") == c.path && Get(e, "about") == c.about
    ensures CountOf(Lookup(e.attrs, "agents")) == c.agentCount && Lookup(e.attrs, "last-active") == c.lastActive
  {
    ChannelLookup(c, "name");
    ChannelLookup(c, "about");
    ChannelLookup(c, "agents");
    ChannelLookup(c, "last-active");
    if c.agentCount.Some? { NumberOf(c.agentCount.value); }
    hide Lookup, ChannelAttrs, Decimal, Number;
  }

  // ---------------------------------------------------------------------------------- messages

  lemma {:induction false} HandlesAre(names: seq<string>)
    ensures Join(Handles(names), " ") == AtNames(Flat((r: string) => [Bare(r)], names))
  {
    if names != [] {
      var rest, bare := names[1..], (r: string) => [Bare(r)];
      HandlesAre(rest);
      HandleIs(names[0]);
      assert Handles(names) == [Handle(names[0])] + Handles(rest);
      assert Handles(names)[1..] == Handles(rest);
      assert Flat(bare, names) == [Bare(names[0])] + Flat(bare, rest);
      assert Flat(bare, names)[1..] == Flat(bare, rest);
      FlatEmpty(rest);
    }
  }

  lemma FlatEmpty(names: seq<string>)
    ensures Flat((r: string) => [Bare(r)], names) == [] <==> names == []
  {
  }

  lemma WhenLookup(m: MessageRow, now: nat, k: string)
    ensures var time := TimeAttr(m.createdAt, now);
            Lookup(MessageAttrs(m, now), k)
            == if k == "from" then Some(Handle(m.from))
               else if k == "id" then Some(ShortId(m.id))
               else if k == "for" then if m.recipients == [] then None else Some(Join(Handles(m.recipients), " "))
               else if k == "attachment-dir" then IfSet(m.attachmentDir)
               else if k == time.key then Some(time.value)
               else None
  {
    var time := TimeAttr(m.createdAt, now);
    var to := if m.recipients == [] then "" else Join(Handles(m.recipients), " ");
    var a0 := [Attribute("from", Handle(m.from))];
    var a1 := a0 + [Attribute("id", ShortId(m.id))];
    var a2 := a1 + if m.recipients == [] then [] else [Attribute("for", to)];
    var a3 := a2 + Opt("attachment-dir", m.attachmentDir);
    assert MessageAttrs(m, now) == a3 + [Attribute(time.key, time.value)];
    assert a1 + [] == a1;
    assert time.key == "age" || time.key == "time";
    hide Opt, Lookup, Handle, Handles, ShortId, TimeAttr, Join;
    LookupOne("from", Handle(m.from), k);
    LookupMore(a0, "id", ShortId(m.id), k);
    LookupMore(a1, "for", to, k);
    LookupMore(a2, "attachment-dir", m.attachmentDir, k);
    LookupMore(a3, time.key, time.value, k);
  }

  lemma TimeRead(createdAt: nat, now: nat, e: Element)
    requires var time := TimeAttr(createdAt, now);
             Lookup(e.attrs, "age") == (if time.key == "age" then Some(time.value) else None)
             && Lookup(e.attrs, "time") == (if time.key == "time" then Some(time.value) else None)
    ensures WhenOf(e) == WhenShown(createdAt, now)
  {
    var elapsed := if now > createdAt then now - createdAt else 0;
    var time := TimeAttr(createdAt, now);
    if elapsed > 3600 {
      NumberOf(createdAt);
    } else {
      var n, unit := if elapsed < 60 then elapsed else if elapsed < 3600 then elapsed / 60 else 1,
                     if elapsed < 60 then "s" else if elapsed < 3600 then "m" else "h";
      NumberOf(n);
      assert Decimal(1) == "1";
      assert time.value == Decimal(n) + unit;
      assert time.value[..|time.value| - 1] == Decimal(n) && time.value[|time.value| - 1..] == unit;
      hide Decimal, Number, Lookup;
    }
  }

  lemma MessageHead(m: MessageRow, now: nat, e: Element)
    requires e.attrs == MessageAttrs(m, now)
    ensures Unhandled(Get(e, "from")) == Bare(m.from) && Get(e, "id") == Short(m.id)
    ensures Get(e, "for") == AtNames(Flat((r: string) => [Bare(r)], m.recipients))
    ensures Get(e, "attachment-dir") == m.attachmentDir && WhenOf(e) == WhenShown(m.createdAt, now)
  {
    WhenLookup(m, now, "from");
    WhenLookup(m, now, "id");
    WhenLookup(m, now, "for");
    WhenLookup(m, now, "attachment-dir");
    WhenLookup(m, now, "age");
    WhenLookup(m, now, "time");
    HandleIs(m.from);
    ShortIs(m.id);
    HandlesAre(m.recipients);
    TimeKey(m.createdAt, now);
    hide Handle, Lookup, Unhandled, Bare, MessageAttrs, TimeAttr, Handles, Join, ShortId, Short, WhenOf, WhenShown;
    if m.recipients == [] { hide Flat; NoNames(); }
    TimeRead(m.createdAt, now, e);
  }

  lemma NoNames()
    ensures AtNames(Flat((r: string) => [Bare(r)], [])) == ""
  {
  }

  lemma TimeKey(createdAt: nat, now: nat)
    ensures TimeAttr(createdAt, now).key == "age" || TimeAttr(createdAt, now).key == "time"
  {
  }

  // ------------------------------------------------------------------------------- message bodies

  lemma {:induction false} DropsSpaces(s: string, k: nat)
    ensures DropSpaces(s + Spaces(k)) == DropSpaces(s)
    decreases k
  {
    if k == 0 {
      assert s + Spaces(0) == s;
    } else {
      var t := s + Spaces(k);
      assert t[..|t| - 1] == s + Spaces(k - 1);
      DropsSpaces(s, k - 1);
    }
  }

  lemma {:induction false} DroppedSpaces(s: string) returns (k: nat)
    ensures s == DropSpaces(s) + Spaces(k)
  {
    if s != "" && s[|s| - 1] == ' ' {
      var rest := s[..|s| - 1];
      k := DroppedSpaces(rest);
      assert s == rest + " " && Spaces(k) + " " == Spaces(k + 1);
      k := k + 1;
    } else {
      k := 0;
      assert s + Spaces(0) == s;
    }
  }

  lemma TruncatedBody(shown: string, k: nat, id: string)
    requires |Words(shown)| >= 100
    ensures BodyOf(shown + ("\n" + Spaces(k) + Note(id)), id) == (shown, true)
  {
    var text, note := shown + ("\n" + Spaces(k) + Note(id)), Note(id);
    var front := shown + "\n" + Spaces(k);
    assert text == front + note;
    assert text[|text| - |note|..] == note && text[..|text| - |note|] == front;
    DropsSpaces(shown + "\n", k);
    assert DropSpaces(shown + "\n") == shown + "\n";
    WordsBlankEnd(shown, "\n");
    assert (shown + "\n")[..|shown|] == shown;
    hide Words, Note, DropSpaces;
  }

  lemma NoteHasAWord(id: string, k: nat)
    ensures |Words(Spaces(k) + Note(id))| >= 1
  {
    var note := Note(id);
    assert note[0] == '[';
    WordsBlank(Spaces(k), note);
    hide Note;
    assert TrimLeft(note) == note;
  }

  /** In front of a note on its own line stand fewer words than in the whole text. */
  lemma WordsBeforeNote(body: string, k: nat, id: string)
    ensures |Words(body + "\n")| < |Words(body + "\n" + (Spaces(k) + Note(id)))|
  {
    WordsBreak(body, '\n', Spaces(k) + Note(id));
    WordsBlankEnd(body, "\n");
    NoteHasAWord(id, k);
  }

  lemma WholeBody(text: string, id: string)
    requires |Words(text)| <= 100
    ensures BodyOf(text, id) == (text, false)
  {
    hide Words, Note, DropSpaces;
    var note := Note(id);
    if |note| <= |text| && text[|text| - |note|..] == note {
      var before := text[..|text| - |note|];
      var front := DropSpaces(before);
      var k := DroppedSpaces(before);
      assert text == before + note;
      if front != "" && front[|front| - 1] == '\n' {
        var body := front[..|front| - 1];
        assert front == body + "\n";
        assert before + note == front + (Spaces(k) + note);
        WordsBeforeNote(body, k, id);
      }
    }
  }

  lemma ShortenedWords(body: string)
    requires |Words(body)| > 100
    ensures |Words(Join(Words(body)[..100], " ") + "...")| == 100
  {
    WordsAreWords(body);
    var ws := Words(body)[..100];
    assert forall w | w in ws :: w in Words(body);
    hide Words, IsWord;
    LastLonger(ws);
  }

  /** Joined words with something at the end of the last. */
  lemma {:induction false} LastLonger(ws: seq<string>)
    requires ws != [] && forall w | w in ws :: IsWord(w)
    ensures |Words(Join(ws, " ") + "...")| == |ws|
    decreases |ws|
  {
    var w, rest := ws[0], ws[1..];
    assert w in ws && ws == [w] + rest;
    if rest == [] {
      assert IsWord(w + "...");
      OneWord(w + "...");
    } else {
      hide Words, IsWord;
      OneWord(w);
      LastLonger(rest);
      WordsBreak(w, ' ', Join(rest, " ") + "...");
      assert Join(ws, " ") + "..." == w + [' '] + (Join(rest, " ") + "...");
    }
  }
}
