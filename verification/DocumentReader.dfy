/** What an agent can read out of a fabric document: a decoder over the events of the XML reader, and what it should
    find for a view. Neither refers to how `src/fabric_context/render.rs` prints the document. */
module DocumentReader {
  import opened Order
  import opened Chars
  import opened Fabric
  import opened Xml

  // ------------------------------------------------------------------------- the element tree

  /** An element with its text up to its first child, and the text that follows it. */
  datatype Element = Element(name: string, attrs: seq<Attribute>, text: string, kids: seq<Element>, tail: string)

  function AddText(e: Element, s: string): Element {
    if e.kids == [] then e.(text := e.text + s)
    else
      var n := |e.kids| - 1;
      e.(kids := e.kids[n := e.kids[n].(tail := e.kids[n].tail + s)])
  }

  function AddKid(e: Element, kid: Element): Element { e.(kids := e.kids + [kid]) }

  /** One event at the end of a document whose open elements are `open`, outermost first. */
  function Feed(open: seq<Element>, event: Event): seq<Element> {
    match event
    case Open(name, attrs) => open + [Element(name, attrs, "", [], "")]
    case Char(c) => if open == [] then open else open[|open| - 1 := AddText(open[|open| - 1], [c])]
    case Close(_) =>
      if |open| < 2 then open
      else
        var n := |open| - 2;
        open[..n] + [AddKid(open[n], open[n + 1])]
  }

  function FeedAll(open: seq<Element>, events: seq<Event>): seq<Element>
    decreases |events|
  {
    if events == [] then open else FeedAll(Feed(open, events[0]), events[1..])
  }

  const PAGE := Element("", [], "", [], "")

  /** The elements at the top of a document. */
  function Roots(events: seq<Event>): seq<Element> {
    var open := FeedAll([PAGE], events);
    if open == [] then [] else open[0].kids
  }

  // ------------------------------------------------------------------------- reading pieces

  function Lookup(attrs: seq<Attribute>, key: string): Option<string> {
    if attrs == [] then None else if attrs[0].key == key then Some(attrs[0].value) else Lookup(attrs[1..], key)
  }

  /** The value of an attribute, "" where it is missing. */
  function Get(e: Element, key: string): string {
    var v := Lookup(e.attrs, key); if v.Some? then v.value else ""
  }

  /** A name without the '@' it is printed with. */
  function Unhandled(s: string): string { if s != "" && s[0] == '@' then s[1..] else s }

  function Number(s: string): nat {
    if s == "" then 0
    else
      var c := s[|s| - 1];
      10 * Number(s[..|s| - 1]) + if '0' <= c <= '9' then c as int - '0' as int else 0
  }

  function LineEnd(s: string): (n: nat)
    ensures n <= |s| && '\n' !in s[..n] && (n < |s| ==> s[n] == '\n')
  {
    if s == "" || s[0] == '\n' then 0 else 1 + LineEnd(s[1..])
  }

  /** The lines of a text without their indentation, blank ones aside. */
  function LinesOf(s: string): seq<string>
    decreases |s|
  {
    var n := LineEnd(s);
    var line := TrimStart(s[..n], ' ');
    (if line == "" then [] else [line]) + if n == |s| then [] else LinesOf(s[n + 1..])
  }

  function TailLines(kids: seq<Element>): seq<string> {
    if kids == [] then [] else LinesOf(kids[0].tail) + TailLines(kids[1..])
  }

  /** The lines of text directly inside an element. */
  function OwnLines(e: Element): seq<string> { LinesOf(e.text) + TailLines(e.kids) }

  /** What `f` finds in each of the elements, in order. */
  function Collect<T>(f: Element -> seq<T>, kids: seq<Element>): seq<T> {
    if kids == [] then [] else f(kids[0]) + Collect(f, kids[1..])
  }

  /** What `f` finds in the children of those called `name`. */
  function Inside<T>(name: string, f: Element -> seq<T>): Element -> seq<T> {
    (e: Element) => if e.name == name then Collect(f, e.kids) else []
  }

  // ------------------------------------------------------------------------------ the decoder

  datatype SeenSelf = SeenSelf(
    name: string, host: string, workspace: string, branch: string, headless: bool, unhosted: bool, title: string)

  datatype SeenHost = SeenHost(name: string, lines: seq<string>, agents: seq<AgentRow>)

  /** An entry of a channel's members. */
  datatype Entry =
    | Person(
        kind: MemberKind, name: string, host: string, workspace: string, branch: string,
        state: Option<SessionState>, status: string, since: string)
    | Outcome(name: string, outcome: string, message: string, since: string)

  datatype When = Ago(n: nat, unit: string) | On(time: nat)

  datatype SeenMessage = SeenMessage(
    from: string, id: string, to: string, attachmentDir: string, when: When, body: string, truncated: bool,
    after: seq<string>)

  datatype SeenChannel = SeenChannel(
    path: string, about: string, agentCount: Option<nat>, lastActive: Option<string>,
    entries: seq<Entry>, departures: seq<string>, omitted: seq<(nat, string)>, messages: seq<SeenMessage>,
    children: seq<SeenChannel>)

  datatype SeenView = SeenView(
    selves: seq<SeenSelf>, notes: seq<string>, hosts: seq<SeenHost>, channels: seq<SeenChannel>,
    mentions: seq<ImportantRow>, reactions: seq<string>, reactionsOmitted: seq<nat>, warnings: seq<string>,
    quiet: seq<(string, string)>)

  function SelfIn(e: Element): seq<SeenSelf> {
    if e.name != "self" then []
    else [SeenSelf(Unhandled(Get(e, "name")), Get(e, "host"), Get(e, "workspace"), Get(e, "branch"),
                   Get(e, "headless") == "on", Get(e, "unhosted") == "true", Get(e, "title"))]
  }

  function NoteIn(e: Element): seq<string> { if e.name == "notice" then [e.text] else [] }

  function AgentIn(e: Element): seq<AgentRow> {
    if e.name == "agent" then [AgentRow(Get(e, "ref"), Get(e, "about"))] else []
  }

  function HostIn(e: Element): seq<SeenHost> {
    if e.name == "host" then [SeenHost(Get(e, "name"), OwnLines(e), Collect(Inside("agents", AgentIn), e.kids))] else []
  }

  function StateOf(s: string): Option<SessionState> {
    if s == "working" then Some(Working)
    else if s == "idle" then Some(Idle)
    else if s == "suspended" then Some(Suspended)
    else if s == "offline" then Some(Offline)
    else None
  }

  function EntryIn(e: Element): seq<Entry> {
    if e.name == "agent" || e.name == "human" then
      [Person(if e.name == "agent" then Agent else Human, Unhandled(Get(e, "name")), Get(e, "host"),
              Get(e, "workspace"), Get(e, "branch"), StateOf(Get(e, "state")), Get(e, "status"), Get(e, "since"))]
    else if e.name == "native-outcome" then
      [Outcome(Unhandled(Get(e, "name")), Get(e, "outcome"), Get(e, "text"), Get(e, "since"))]
    else []
  }

  function LinesIn(name: string): Element -> seq<string> {
    (e: Element) => if e.name == name then OwnLines(e) else []
  }

  function OmittedIn(e: Element): seq<(nat, string)> {
    if e.name == "omitted" then [(Number(Get(e, "count")), Get(e, "window"))] else []
  }

  function WhenOf(e: Element): When {
    var age := Get(e, "age");
    if age == "" then On(Number(Get(e, "time"))) else Ago(Number(age[..|age| - 1]), age[|age| - 1..])
  }

  function Note(id: string): string {
    "[message truncated; run " + "`mosaico channel read --id " + id + "`]"
  }

  function DropSpaces(s: string): string {
    if s != "" && s[|s| - 1] == ' ' then DropSpaces(s[..|s| - 1]) else s
  }

  /** The body in a message's text: a truncation note for this id counts only on a line of its own after 100 words. */
  function BodyOf(text: string, id: string): (string, bool) {
    var note := Note(id);
    if |note| > |text| || text[|text| - |note|..] != note then (text, false)
    else
      var front := DropSpaces(text[..|text| - |note|]);
      if front == "" || front[|front| - 1] != '\n' || |Words(front)| < 100 then (text, false)
      else (front[..|front| - 1], true)
  }

  function MessageIn(e: Element): seq<SeenMessage> {
    if e.name != "message" then []
    else
      var (body, truncated) := BodyOf(e.text, Get(e, "id"));
      [SeenMessage(Unhandled(Get(e, "from")), Get(e, "id"), Get(e, "for"), Get(e, "attachment-dir"), WhenOf(e), body,
                   truncated, LinesOf(e.tail))]
  }

  function CountOf(v: Option<string>): Option<nat> { if v.Some? then Some(Number(v.value)) else None }

  function ChannelOf(e: Element): SeenChannel
    decreases e, 1
  {
    SeenChannel(Get(e, "name"), Get(e, "about"), CountOf(Lookup(e.attrs, "agents")), Lookup(e.attrs, "last-active"),
                Collect(Inside("members", EntryIn), e.kids), Collect(LinesIn("members"), e.kids),
                Collect(Inside("chatter", OmittedIn), e.kids), Collect(Inside("chatter", MessageIn), e.kids),
                ChannelsIn(e.kids))
  }

  function ChannelsIn(kids: seq<Element>): seq<SeenChannel>
    decreases kids, 0
  {
    if kids == [] then []
    else (if kids[0].name == "channel" then [ChannelOf(kids[0])] else []) + ChannelsIn(kids[1..])
  }

  function ChannelsOf(e: Element): seq<SeenChannel> { if e.name == "channels" then ChannelsIn(e.kids) else [] }

  function MentionIn(e: Element): seq<ImportantRow> {
    if e.name == "mention" then [ImportantRow(Get(e, "channel"), Get(e, "message_id"))] else []
  }

  function CountIn(e: Element): seq<nat> { if e.name == "omitted" then [Number(Get(e, "count"))] else [] }

  function WarningIn(e: Element): seq<string> { if e.name == "warning" then [e.text] else [] }

  function QuietIn(e: Element): seq<(string, string)> {
    if e.name == "no-new-activity" then [(Get(e, "workspace"), e.text)] else []
  }

  function ViewOf(root: Element): SeenView {
    SeenView(Collect(SelfIn, root.kids), Collect(NoteIn, root.kids), Collect(Inside("hosts", HostIn), root.kids),
             Collect(ChannelsOf, root.kids), Collect(Inside("important", MentionIn), root.kids),
             Collect(LinesIn("reactions"), root.kids), Collect(Inside("reactions", CountIn), root.kids),
             Collect(Inside("warnings", WarningIn), root.kids), Collect(QuietIn, root.kids))
  }

  /** What the events of a whole document show, if it is one `mosaico` element. */
  function Seen(events: seq<Event>): Option<SeenView> {
    var roots := Roots(events);
    if |roots| == 1 && roots[0].name == "mosaico" then Some(ViewOf(roots[0])) else None
  }

  // ----------------------------------------------------------------- what it should find in a view

  function Bare(name: string): string { TrimStart(name, '@') }

  function Short(id: string): string { if |id| > 6 then id[..6] else id }

  /** Names one after the other, each with an '@'. */
  function AtNames(names: seq<string>): string {
    if names == [] then "" else if |names| == 1 then "@" + names[0] else "@" + names[0] + " " + AtNames(names[1..])
  }

  function Flat<T, U>(f: T -> seq<U>, rows: seq<T>): seq<U> {
    if rows == [] then [] else f(rows[0]) + Flat(f, rows[1..])
  }

  function Shown<T>(present: bool, x: T): seq<T> { if present then [x] else [] }

  function SelfShown(r: SelfRow): SeenSelf {
    SeenSelf(Bare(r.name), r.host, r.workspace, r.branch, r.headless, r.unhosted, r.title)
  }

  function HostShown(h: HostRow): seq<SeenHost> {
    var roots := Flat((root: string) => LinesOf("* " + root), h.roots);
    [SeenHost(h.name, if h.roots == [] then [] else ["Workspaces:"] + roots, h.agents)]
  }

  function MemberShown(m: MemberRow): seq<Entry> {
    [Person(m.kind, Bare(m.name), m.host, m.workspace, m.branch, m.state, m.status, m.since)]
  }

  function PresenceShown(p: PresenceRow): seq<Entry> {
    [Person(Agent, Bare(p.name), p.host, p.workspace, p.branch, Some(p.state), p.status, p.since)]
    + match p.nativeFailure
      case None => []
      case Some(f) => [Outcome(Bare(p.name), f.outcome, f.message, f.since)]
  }

  function DepartureShown(name: string): seq<string> { LinesOf("@" + Bare(name) + " left.") }

  function WhenShown(createdAt: nat, now: nat): When {
    var elapsed := if now > createdAt then now - createdAt else 0;
    if elapsed > 3600 then On(createdAt)
    else if elapsed == 3600 then Ago(1, "h")
    else if elapsed >= 60 then Ago(elapsed / 60, "m")
    else Ago(elapsed, "s")
  }

  function MessageShown(now: nat): MessageRow -> seq<SeenMessage> {
    (m: MessageRow) =>
      var words := Words(m.body);
      [SeenMessage(Bare(m.from), Short(m.id), AtNames(Flat((r: string) => [Bare(r)], m.recipients)), m.attachmentDir,
                   WhenShown(m.createdAt, now),
                   if |words| > 100 then Join(words[..100], " ") + "..." else Trim(m.body), |words| > 100,
                   if m.mention && m.needsReplyNudge
                   then LinesOf("Follow up on " + Short(m.id) + ": reply for substantive "
                                + "context or react for an ACK.")
                   else [])]
  }

  function ChannelShown(c: ChannelBlock, now: nat): SeenChannel
    decreases c, 1
  {
    SeenChannel(c.path, c.about, c.agentCount, c.lastActive,
                Flat(MemberShown, c.members) + Flat(PresenceShown, c.presence), Flat(DepartureShown, c.departures),
                Shown(c.omitted > 0, (c.omitted, "last 4h")), Flat(MessageShown(now), c.messages),
                ChannelsShown(c.children, now))
  }

  function ChannelsShown(cs: seq<ChannelBlock>, now: nat): seq<SeenChannel>
    decreases cs, 0
  {
    if cs == [] then [] else [ChannelShown(cs[0], now)] + ChannelsShown(cs[1..], now)
  }

  function WorkspaceShown(now: nat): WorkspaceView -> seq<SeenChannel> {
    (w: WorkspaceView) =>
      (if w.root.Some? then [ChannelShown(w.root.value, now)] else []) + ChannelsShown(w.channels, now)
  }

  function MentionShown(r: ImportantRow): seq<ImportantRow> { [ImportantRow(r.channelRef, Short(r.messageId))] }

  function ReactionShown(r: ReactionRow): seq<string> {
    LinesOf(AtNames(r.reactors) + " " + r.emoji + " on your message \"" + r.targetSnippet + "\" (" + r.age + ")")
  }

  const NOTHING_NEW := "\n    Nothing new since your last " + "check. The fabric surfaces only "
                       + "what changed \U{2014} your channels, " + "members, and messages are "
                       + "unchanged, not gone.\n  "

  function Rows<T>(rows: Option<seq<T>>): seq<T> { if rows.Some? then rows.value else [] }

  function ViewShown(v: FabricView): SeenView {
    SeenView(if v.selfRow.Some? then [SelfShown(v.selfRow.value)] else [],
             (if v.selfRow.Some? then Shown(v.selfRow.value.hint != "", v.selfRow.value.hint) else [])
             + Shown(v.coordinationGuideReminder, COORDINATION_GUIDE_REMINDER),
             Flat(HostShown, Rows(v.hosts)), Flat(WorkspaceShown(v.now), Rows(v.workspaces)),
             Flat(MentionShown, v.important), Flat(ReactionShown, v.reactions),
             Shown(v.reactionsOmitted > 0, v.reactionsOmitted), v.warnings,
             Flat((workspace: string) => [(workspace, NOTHING_NEW)], v.notices))
  }
}
