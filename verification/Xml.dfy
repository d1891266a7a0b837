/** The escapes of `src/agent_xml.rs`, a document tree with its written form, and an independent reader.
    The reader accepts a subset of XML 1.0 (sections 2.1, 2.4, 3.1 and 4.6): it is stricter in allowing only spaces
    inside tags, only double quotes, and no literal '>' in character data; it does not apply the attribute-value
    normalisation of section 3.3.3. */
module Xml {
  import opened Order

  // -------------------------------------------------------------------------- escapes

  /** `str::replace` of one character. */
  function ReplaceChar(s: string, c: char, rep: string): string {
    if s == "" then "" else (if s[0] == c then rep else [s[0]]) + ReplaceChar(s[1..], c, rep)
  }

  function Text(s: string): string {
    ReplaceChar(ReplaceChar(ReplaceChar(s, '&', "&amp;"), '<', "&lt;"), '>', "&gt;")
  }

  function Attr(s: string): string {
    ReplaceChar(ReplaceChar(Text(s), '"', "&quot;"), '\'', "&apos;")
  }

  lemma {:induction false} ReplaceAppend(a: string, b: string, c: char, rep: string)
    ensures ReplaceChar(a + b, c, rep) == ReplaceChar(a, c, rep) + ReplaceChar(b, c, rep)
  {
    if a == "" {
      assert a + b == b;
    } else {
      var rest := a[1..];
      assert (a + b)[0] == a[0] && (a + b)[1..] == rest + b;
      var first := if a[0] == c then rep else [a[0]];
      assert ReplaceChar(a + b, c, rep) == first + ReplaceChar(rest + b, c, rep);
      assert ReplaceChar(a, c, rep) == first + ReplaceChar(rest, c, rep);
      hide ReplaceChar;
      ReplaceAppend(rest, b, c, rep);
      assert first + (ReplaceChar(rest, c, rep) + ReplaceChar(b, c, rep))
             == first + ReplaceChar(rest, c, rep) + ReplaceChar(b, c, rep);
    }
  }

  lemma {:induction false} ReplaceAbsent(s: string, c: char, rep: string)
    requires c !in s
    ensures ReplaceChar(s, c, rep) == s
  {
    if s != "" { ReplaceAbsent(s[1..], c, rep); }
  }

  lemma TextAppend(a: string, b: string)
    ensures Text(a + b) == Text(a) + Text(b)
  {
    ReplaceAppend(a, b, '&', "&amp;");
    var a1, b1 := ReplaceChar(a, '&', "&amp;"), ReplaceChar(b, '&', "&amp;");
    ReplaceAppend(a1, b1, '<', "&lt;");
    ReplaceAppend(ReplaceChar(a1, '<', "&lt;"), ReplaceChar(b1, '<', "&lt;"), '>', "&gt;");
  }

  lemma AttrAppend(a: string, b: string)
    ensures Attr(a + b) == Attr(a) + Attr(b)
  {
    TextAppend(a, b);
    ReplaceAppend(Text(a), Text(b), '"', "&quot;");
    ReplaceAppend(ReplaceChar(Text(a), '"', "&quot;"), ReplaceChar(Text(b), '"', "&quot;"), '\'', "&apos;");
  }

  /** The entity each of the five special characters is written as. */
  function EntityOf(c: char): Option<string> {
    match c
    case '&' => Some("amp")
    case '<' => Some("lt")
    case '>' => Some("gt")
    case '"' => Some("quot")
    case '\'' => Some("apos")
    case _ => None
  }

  function TextChar(c: char): string {
    if c == '&' || c == '<' || c == '>' then "&" + EntityOf(c).value + ";" else [c]
  }

  function AttrChar(c: char): string {
    if EntityOf(c).Some? then "&" + EntityOf(c).value + ";" else [c]
  }

  lemma ReplaceSingle(c: char, d: char, rep: string)
    ensures ReplaceChar([c], d, rep) == if c == d then rep else [c]
  {
    assert [c][1..] == "";
  }

  lemma TextOfChar(c: char)
    ensures Text([c]) == TextChar(c)
  {
    ReplaceSingle(c, '&', "&amp;");
    if c == '&' {
      ReplaceAbsent("&amp;", '<', "&lt;");
      ReplaceAbsent("&amp;", '>', "&gt;");
    } else {
      ReplaceSingle(c, '<', "&lt;");
      if c == '<' { ReplaceAbsent("&lt;", '>', "&gt;"); } else { ReplaceSingle(c, '>', "&gt;"); }
    }
  }

  lemma AttrOfChar(c: char)
    ensures Attr([c]) == AttrChar(c)
  {
    TextOfChar(c);
    hide Text, ReplaceChar;
    if c == '&' || c == '<' || c == '>' {
      ReplaceAbsent(TextChar(c), '"', "&quot;");
      ReplaceAbsent(TextChar(c), '\'', "&apos;");
    } else {
      ReplaceSingle(c, '"', "&quot;");
      if c == '"' { ReplaceAbsent("&quot;", '\'', "&apos;"); } else { ReplaceSingle(c, '\'', "&apos;"); }
    }
  }

  /** Despite their order, the replacements act character by character. */
  lemma EscapesByChar(c: char, s: string)
    ensures Text([c] + s) == TextChar(c) + Text(s) && Attr([c] + s) == AttrChar(c) + Attr(s)
    ensures Text("") == "" && Attr("") == ""
  {
    TextAppend([c], s);
    AttrAppend([c], s);
    TextOfChar(c);
    AttrOfChar(c);
  }

  // -------------------------------------------------------------------- documents

  datatype Attribute = Attribute(key: string, value: string)

  datatype Node =
    | Escaped(s: string)                                              // through `text`
    | Literal(s: string)                                              // written as it is
    | Elem(name: string, attrs: seq<Attribute>, kids: seq<Node>)
    | Empty(name: string, attrs: seq<Attribute>)

  function WriteAttr(a: Attribute): string { " " + a.key + "=\"" + Attr(a.value) + "\"" }

  function WriteAttrs(attrs: seq<Attribute>): string {
    if attrs == [] then "" else WriteAttr(attrs[0]) + WriteAttrs(attrs[1..])
  }

  function Write(n: Node): string
    decreases n, 1
  {
    match n
    case Escaped(s) => Text(s)
    case Literal(s) => s
    case Elem(name, attrs, kids) => "<" + name + WriteAttrs(attrs) + ">" + WriteAll(kids) + "</" + name + ">"
    case Empty(name, attrs) => "<" + name + WriteAttrs(attrs) + " />"
  }

  function WriteAll(ns: seq<Node>): string
    decreases ns, 0
  {
    if ns == [] then "" else Write(ns[0]) + WriteAll(ns[1..])
  }

  // The same text as it grows in a buffer that already holds `out`.

  function PutAttrs(out: string, attrs: seq<Attribute>): string
    decreases |attrs|
  {
    if attrs == [] then out else PutAttrs(out + WriteAttr(attrs[0]), attrs[1..])
  }

  function PutNode(out: string, n: Node): string
    decreases n, 1
  {
    match n
    case Escaped(s) => out + Text(s)
    case Literal(s) => out + s
    case Elem(name, attrs, kids) =>
      PutNodes(PutAttrs(out + ("<" + name), attrs) + ">", kids) + ("</" + name + ">")
    case Empty(name, attrs) => PutAttrs(out + ("<" + name), attrs) + " />"
  }

  function PutNodes(out: string, ns: seq<Node>): string
    decreases ns, 0
  {
    if ns == [] then out else PutNodes(PutNode(out, ns[0]), ns[1..])
  }

  lemma {:induction false} PutAttrsAppend(out: string, a: seq<Attribute>, b: seq<Attribute>)
    ensures PutAttrs(out, a + b) == PutAttrs(PutAttrs(out, a), b)
    decreases |a|
  {
    hide WriteAttr;
    if a == [] {
      assert a + b == b;
    } else {
      PutAttrsAppend(out + WriteAttr(a[0]), a[1..], b);
      assert (a + b)[1..] == a[1..] + b;
    }
  }

  lemma {:induction false} PutNodesAppend(out: string, a: seq<Node>, b: seq<Node>)
    ensures PutNodes(out, a + b) == PutNodes(PutNodes(out, a), b)
    decreases |a|
  {
    hide PutNode;
    if a == [] {
      assert a + b == b;
    } else {
      PutNodesAppend(PutNode(out, a[0]), a[1..], b);
      assert (a + b)[1..] == a[1..] + b;
    }
  }

  lemma {:induction false} PutAttrsIsWrite(out: string, attrs: seq<Attribute>)
    ensures PutAttrs(out, attrs) == out + WriteAttrs(attrs)
    decreases |attrs|
  {
    hide WriteAttr;
    if attrs == [] {
      assert out + "" == out;
    } else {
      PutAttrsIsWrite(out + WriteAttr(attrs[0]), attrs[1..]);
      assert out + WriteAttr(attrs[0]) + WriteAttrs(attrs[1..]) == out + (WriteAttr(attrs[0]) + WriteAttrs(attrs[1..]));
    }
  }

  lemma {:induction false} PutIsWrite(out: string, n: Node)
    ensures PutNode(out, n) == out + Write(n)
    decreases n, 1
  {
    match n {
      case Escaped(s) =>
      case Literal(s) =>
      case Elem(name, attrs, kids) =>
        PutAttrsIsWrite(out + ("<" + name), attrs);
        PutAllIsWrite(PutAttrs(out + ("<" + name), attrs) + ">", kids);
        Reassociate(out, "<" + name, WriteAttrs(attrs), ">", WriteAll(kids), "</" + name + ">");
        hide WriteAttrs, WriteAll, PutAttrs, PutNodes;
        assert Write(n) == "<" + name + WriteAttrs(attrs) + ">" + WriteAll(kids) + ("</" + name + ">");
      case Empty(name, attrs) =>
        PutAttrsIsWrite(out + ("<" + name), attrs);
        Reassociate(out, "<" + name, WriteAttrs(attrs), " />", "", "");
        hide WriteAttrs, PutAttrs;
    }
  }

  lemma Reassociate(out: string, a: string, b: string, c: string, d: string, e: string)
    ensures out + a + b + c + d + e == out + (a + b + c + d + e)
    ensures out + a + b + c == out + (a + b + c)
  {
    assert out + a + b == out + (a + b);
    assert out + (a + b) + c == out + (a + b + c);
    assert out + (a + b + c) + d == out + (a + b + c + d);
    assert out + (a + b + c + d) + e == out + (a + b + c + d + e);
  }

  lemma {:induction false} PutAllIsWrite(out: string, ns: seq<Node>)
    ensures PutNodes(out, ns) == out + WriteAll(ns)
    decreases ns, 0
  {
    hide Write, PutNode;
    if ns == [] {
      assert out + "" == out;
    } else {
      PutIsWrite(out, ns[0]);
      PutAllIsWrite(out + Write(ns[0]), ns[1..]);
      assert out + Write(ns[0]) + WriteAll(ns[1..]) == out + (Write(ns[0]) + WriteAll(ns[1..]));
    }
  }

  predicate NameStart(c: char) { 'a' <= c <= 'z' || 'A' <= c <= 'Z' || c == '_' }
  predicate NameChar(c: char) { NameStart(c) || '0' <= c <= '9' || c == '-' || c == '.' }
  predicate IsName(s: string) { s != "" && NameStart(s[0]) && forall i | 0 <= i < |s| :: NameChar(s[i]) }
  predicate Plain(s: string) { forall i | 0 <= i < |s| :: s[i] != '<' && s[i] != '>' && s[i] != '&' }

  ghost predicate GoodAttrs(attrs: seq<Attribute>) {
    && (forall i | 0 <= i < |attrs| :: IsName(attrs[i].key))
    && (forall i, j | 0 <= i < j < |attrs| :: attrs[i].key != attrs[j].key)
  }

  /** Names are names, attributes of one tag have distinct keys, and literal text needs no escape. */
  ghost predicate Good(n: Node) {
    match n
    case Escaped(_) => true
    case Literal(s) => Plain(s)
    case Elem(name, attrs, kids) => IsName(name) && GoodAttrs(attrs) && forall i | 0 <= i < |kids| :: Good(kids[i])
    case Empty(name, attrs) => IsName(name) && GoodAttrs(attrs)
  }

  ghost predicate AllGood(ns: seq<Node>) { forall i | 0 <= i < |ns| :: Good(ns[i]) }

  // ---------------------------------------------------------------------------- reading

  /** What a reader reports: tags with their decoded attributes, and decoded character data. */
  datatype Event = Open(name: string, attrs: seq<Attribute>) | Close(name: string) | Char(c: char)

  datatype Mode =
    | Content
    | Reference(entity: string)
    | TagStart
    | TagName(name: string)
    | InTag(name: string, attrs: seq<Attribute>)
    | Key(name: string, attrs: seq<Attribute>, key: string)
    | Quote(name: string, attrs: seq<Attribute>, key: string)
    | Value(name: string, attrs: seq<Attribute>, key: string, value: string)
    | ValueReference(name: string, attrs: seq<Attribute>, key: string, value: string, entity: string)
    | AfterValue(name: string, attrs: seq<Attribute>)
    | Slash(name: string, attrs: seq<Attribute>)
    | EndName(name: string)
    | Bad

  datatype Reader = Reader(mode: Mode, stack: seq<string>, events: seq<Event>)

  function CharOf(entity: string): Option<char> {
    if entity == "amp" then Some('&')
    else if entity == "lt" then Some('<')
    else if entity == "gt" then Some('>')
    else if entity == "quot" then Some('"')
    else if entity == "apos" then Some('\'')
    else None
  }

  function Fail(r: Reader): Reader { r.(mode := Bad) }

  function Opened(r: Reader, name: string, attrs: seq<Attribute>): Reader {
    Reader(Content, r.stack + [name], r.events + [Open(name, attrs)])
  }

  ghost predicate HasKey(attrs: seq<Attribute>, key: string) { exists i :: 0 <= i < |attrs| && attrs[i].key == key }

  /** One character of the document. Outside the one root element nothing but that element is accepted. */
  ghost function Step(r: Reader, c: char): Reader {
    match r.mode
    case Content =>
      if c == '<' && (r.stack != [] || r.events == []) then r.(mode := TagStart)
      else if c == '<' || c == '>' || r.stack == [] then Fail(r)
      else if c == '&' then r.(mode := Reference(""))
      else r.(events := r.events + [Char(c)])
    case Reference(e) =>
      if c == ';' then
        if CharOf(e).Some? then r.(mode := Content, events := r.events + [Char(CharOf(e).value)]) else Fail(r)
      else if NameChar(c) then r.(mode := Reference(e + [c])) else Fail(r)
    case TagStart =>
      if c == '/' then r.(mode := EndName("")) else if NameStart(c) then r.(mode := TagName([c])) else Fail(r)
    case TagName(n) =>
      if NameChar(c) then r.(mode := TagName(n + [c])) else TagEnd(r, n, [], c)
    case InTag(n, attrs) =>
      if NameStart(c) then r.(mode := Key(n, attrs, [c])) else TagEnd(r, n, attrs, c)
    case Key(n, attrs, k) =>
      if NameChar(c) then r.(mode := Key(n, attrs, k + [c]))
      else if c == '=' && !HasKey(attrs, k) then r.(mode := Quote(n, attrs, k)) else Fail(r)
    case Quote(n, attrs, k) => if c == '"' then r.(mode := Value(n, attrs, k, "")) else Fail(r)
    case Value(n, attrs, k, v) =>
      if c == '"' then r.(mode := AfterValue(n, attrs + [Attribute(k, v)]))
      else if c == '&' then r.(mode := ValueReference(n, attrs, k, v, ""))
      else if c == '<' then Fail(r)
      else r.(mode := Value(n, attrs, k, v + [c]))
    case ValueReference(n, attrs, k, v, e) =>
      if c == ';' then if CharOf(e).Some? then r.(mode := Value(n, attrs, k, v + [CharOf(e).value])) else Fail(r)
      else if NameChar(c) then r.(mode := ValueReference(n, attrs, k, v, e + [c])) else Fail(r)
    case AfterValue(n, attrs) => TagEnd(r, n, attrs, c)
    case Slash(n, attrs) =>
      if c == '>' then Reader(Content, r.stack, r.events + [Open(n, attrs), Close(n)]) else Fail(r)
    case EndName(n) =>
      if NameChar(c) then r.(mode := EndName(n + [c]))
      else if c == '>' && r.stack != [] && r.stack[|r.stack| - 1] == n
      then Reader(Content, r.stack[..|r.stack| - 1], r.events + [Close(n)])
      else Fail(r)
    case Bad => r
  }

  ghost function TagEnd(r: Reader, n: string, attrs: seq<Attribute>, c: char): Reader {
    if c == ' ' then r.(mode := InTag(n, attrs))
    else if c == '/' then r.(mode := Slash(n, attrs))
    else if c == '>' then Opened(r, n, attrs)
    else Fail(r)
  }

  ghost function Read(r: Reader, s: string): Reader
    decreases |s|
  {
    if s == "" then r else Read(Step(r, s[0]), s[1..])
  }

  const START := Reader(Content, [], [])

  /** A whole document: one root element, every tag closed in order, and these events. */
  ghost predicate Reads(s: string, events: seq<Event>) {
    Read(START, s) == Reader(Content, [], events) && events != []
  }

  function Characters(s: string): seq<Event> {
    if s == "" then [] else [Char(s[0])] + Characters(s[1..])
  }

  /** The events a document stands for. */
  function Events(n: Node): seq<Event>
    decreases n, 1
  {
    match n
    case Escaped(s) => Characters(s)
    case Literal(s) => Characters(s)
    case Elem(name, attrs, kids) => [Open(name, attrs)] + EventsAll(kids) + [Close(name)]
    case Empty(name, attrs) => [Open(name, attrs), Close(name)]
  }

  function EventsAll(ns: seq<Node>): seq<Event>
    decreases ns, 0
  {
    if ns == [] then [] else Events(ns[0]) + EventsAll(ns[1..])
  }

  lemma {:induction false} ReadAppend(r: Reader, a: string, b: string)
    ensures Read(r, a + b) == Read(Read(r, a), b)
    decreases |a|
  {
    hide Step;
    if a == "" {
      assert a + b == b;
    } else {
      ReadAppend(Step(r, a[0]), a[1..], b);
      assert (a + b)[1..] == a[1..] + b;
    }
  }

  lemma ReadChar(r: Reader, c: char)
    ensures Read(r, [c]) == Step(r, c)
  {
    hide Step;
    assert [c][1..] == "";
  }

  lemma ReadFirst(r: Reader, c: char, s: string)
    ensures Read(r, [c] + s) == Read(Step(r, c), s)
  {
    hide Step;
    assert ([c] + s)[1..] == s;
  }

  // ------------------------------------------------------ reading back what was written

  lemma {:induction false} ReadTagName(r: Reader, n: string, s: string)
    requires r.mode == TagName(n) && forall i | 0 <= i < |s| :: NameChar(s[i])
    ensures Read(r, s) == r.(mode := TagName(n + s))
    decreases |s|
  {
    if s == "" {
      assert n + s == n;
    } else {
      ReadTagName(Step(r, s[0]), n + [s[0]], s[1..]);
      assert n + [s[0]] + s[1..] == n + s;
    }
  }

  lemma {:induction false} ReadEndName(r: Reader, n: string, s: string)
    requires r.mode == EndName(n) && forall i | 0 <= i < |s| :: NameChar(s[i])
    ensures Read(r, s) == r.(mode := EndName(n + s))
    decreases |s|
  {
    if s == "" {
      assert n + s == n;
    } else {
      ReadEndName(Step(r, s[0]), n + [s[0]], s[1..]);
      assert n + [s[0]] + s[1..] == n + s;
    }
  }

  lemma {:induction false} ReadKey(r: Reader, n: string, attrs: seq<Attribute>, k: string, s: string)
    requires r.mode == Key(n, attrs, k) && forall i | 0 <= i < |s| :: NameChar(s[i])
    ensures Read(r, s) == r.(mode := Key(n, attrs, k + s))
    decreases |s|
  {
    if s == "" {
      assert k + s == k;
    } else {
      ReadKey(Step(r, s[0]), n, attrs, k + [s[0]], s[1..]);
      assert k + [s[0]] + s[1..] == k + s;
    }
  }

  lemma ReadTextChar(r: Reader, c: char)
    requires r.mode == Content && r.stack != []
    ensures Read(r, TextChar(c)) == r.(events := r.events + [Char(c)])
  {
    if c == '&' || c == '<' || c == '>' {
      var e := EntityOf(c).value;
      ReadReference(r, c, e);
    } else {
      ReadChar(r, c);
    }
  }

  lemma {:induction false} ReadEntityName(r: Reader, e: string, s: string)
    requires r.mode == Reference(e) && forall i | 0 <= i < |s| :: NameChar(s[i])
    ensures Read(r, s) == r.(mode := Reference(e + s))
    decreases |s|
  {
    if s == "" {
      assert e + s == e;
    } else {
      ReadEntityName(Step(r, s[0]), e + [s[0]], s[1..]);
      assert e + [s[0]] + s[1..] == e + s;
    }
  }

  lemma EntityNamed(c: char, e: string)
    requires EntityOf(c) == Some(e)
    ensures CharOf(e) == Some(c) && forall i | 0 <= i < |e| :: NameChar(e[i])
  {
  }

  lemma ReadReference(r: Reader, c: char, e: string)
    requires r.mode == Content && r.stack != [] && EntityOf(c) == Some(e)
    ensures Read(r, "&" + e + ";") == r.(events := r.events + [Char(c)])
  {
    var r1, r2 := r.(mode := Reference("")), r.(mode := Reference(e));
    assert Step(r, '&') == r1;
    EntityNamed(c, e);
    assert Step(r2, ';') == r.(events := r.events + [Char(c)]);
    hide Step, Read, EntityOf, CharOf, NameChar;
    assert "&" + e + ";" == ['&'] + (e + ";");
    ReadFirst(r, '&', e + ";");
    ReadEntityName(r1, "", e);
    ReadAppend(r1, e, ";");
    assert "" + e == e;
    ReadChar(r2, ';');
  }

  lemma {:induction false} ReadValueEntityName(r: Reader, n: string, attrs: seq<Attribute>, k: string, v: string,
                                               e: string, s: string)
    requires r.mode == ValueReference(n, attrs, k, v, e) && forall i | 0 <= i < |s| :: NameChar(s[i])
    ensures Read(r, s) == r.(mode := ValueReference(n, attrs, k, v, e + s))
    decreases |s|
  {
    if s == "" {
      assert e + s == e;
    } else {
      ReadValueEntityName(Step(r, s[0]), n, attrs, k, v, e + [s[0]], s[1..]);
      assert e + [s[0]] + s[1..] == e + s;
    }
  }

  lemma ReadValueReference(r: Reader, n: string, attrs: seq<Attribute>, k: string, v: string, c: char, e: string)
    requires r.mode == Value(n, attrs, k, v) && EntityOf(c) == Some(e)
    ensures Read(r, "&" + e + ";") == r.(mode := Value(n, attrs, k, v + [c]))
  {
    var r1 := r.(mode := ValueReference(n, attrs, k, v, ""));
    var r2 := r.(mode := ValueReference(n, attrs, k, v, e));
    assert Step(r, '&') == r1;
    EntityNamed(c, e);
    assert Step(r2, ';') == r.(mode := Value(n, attrs, k, v + [c])) by { hide CharOf, EntityOf; }
    hide Step, Read, EntityOf, CharOf, NameChar;
    assert "&" + e + ";" == ['&'] + (e + ";");
    ReadFirst(r, '&', e + ";");
    ReadAppend(r1, e, ";");
    ReadValueEntityName(r1, n, attrs, k, v, "", e);
    assert "" + e == e;
    ReadChar(r2, ';');
  }

  lemma ReadAttrChar(r: Reader, n: string, attrs: seq<Attribute>, k: string, v: string, c: char)
    requires r.mode == Value(n, attrs, k, v)
    ensures Read(r, AttrChar(c)) == r.(mode := Value(n, attrs, k, v + [c]))
  {
    if EntityOf(c).Some? {
      ReadValueReference(r, n, attrs, k, v, c, EntityOf(c).value);
    } else {
      ReadChar(r, c);
    }
  }

  lemma {:induction false} ReadText(r: Reader, s: string)
    requires r.mode == Content && r.stack != []
    ensures Read(r, Text(s)) == r.(events := r.events + Characters(s))
    decreases |s|
  {
    EscapesByChar(if s == "" then 'x' else s[0], if s == "" then s else s[1..]);
    if s == "" {
      assert r.events + [] == r.events;
    } else {
      assert s == [s[0]] + s[1..];
      ReadAppend(r, TextChar(s[0]), Text(s[1..]));
      ReadTextChar(r, s[0]);
      hide Step, Text, TextChar;
      var next := r.(events := r.events + [Char(s[0])]);
      ReadText(next, s[1..]);
      assert r.events + [Char(s[0])] + Characters(s[1..]) == r.events + Characters(s);
    }
  }

  lemma {:induction false} ReadLiteral(r: Reader, s: string)
    requires r.mode == Content && r.stack != [] && Plain(s)
    ensures Read(r, s) == r.(events := r.events + Characters(s))
    decreases |s|
  {
    if s == "" {
      assert r.events + [] == r.events;
    } else {
      ReadLiteral(Step(r, s[0]), s[1..]);
      assert r.events + [Char(s[0])] + Characters(s[1..]) == r.events + Characters(s);
    }
  }

  lemma {:induction false} ReadValue(r: Reader, n: string, attrs: seq<Attribute>, k: string, v: string, s: string)
    requires r.mode == Value(n, attrs, k, v)
    ensures Read(r, Attr(s)) == r.(mode := Value(n, attrs, k, v + s))
    decreases |s|
  {
    EscapesByChar(if s == "" then 'x' else s[0], if s == "" then s else s[1..]);
    if s == "" {
      assert v + s == v;
    } else {
      assert s == [s[0]] + s[1..];
      ReadAppend(r, AttrChar(s[0]), Attr(s[1..]));
      ReadAttrChar(r, n, attrs, k, v, s[0]);
      hide Step, Attr, AttrChar;
      ReadValue(r.(mode := Value(n, attrs, k, v + [s[0]])), n, attrs, k, v + [s[0]], s[1..]);
      assert v + [s[0]] + s[1..] == v + s;
    }
  }

  ghost predicate BeforeAttr(r: Reader, n: string, attrs: seq<Attribute>) {
    r.mode == AfterValue(n, attrs) || (attrs == [] && r.mode == TagName(n))
  }

  lemma KeyText(k: string)
    requires k != ""
    ensures " " + k + "=\"" == [' '] + ([k[0]] + (k[1..] + (['='] + "\"")))
  {
  }

  lemma ReadKeyPart(r: Reader, n: string, attrs: seq<Attribute>, k: string)
    requires BeforeAttr(r, n, attrs) && IsName(k) && !HasKey(attrs, k)
    ensures Read(r, " " + k + "=\"") == r.(mode := Value(n, attrs, k, ""))
  {
    var r1, r2, r3 := r.(mode := InTag(n, attrs)), r.(mode := Key(n, attrs, [k[0]])), r.(mode := Key(n, attrs, k));
    var r4 := r.(mode := Quote(n, attrs, k));
    assert Step(r, ' ') == r1 && Step(r1, k[0]) == r2 && Step(r3, '=') == r4;
    assert Step(r4, '"') == r.(mode := Value(n, attrs, k, ""));
    assert forall i | 0 <= i < |k[1..]| :: NameChar(k[1..][i]);
    hide Step, Read, NameChar, NameStart, HasKey;
    KeyText(k);
    ReadFirst(r, ' ', [k[0]] + (k[1..] + (['='] + "\"")));
    ReadFirst(r1, k[0], k[1..] + (['='] + "\""));
    ReadAppend(r2, k[1..], ['='] + "\"");
    ReadKey(r2, n, attrs, [k[0]], k[1..]);
    assert [k[0]] + k[1..] == k;
    ReadFirst(r3, '=', "\"");
    ReadChar(r4, '"');
  }

  lemma ReadAttr(r: Reader, n: string, attrs: seq<Attribute>, a: Attribute)
    requires BeforeAttr(r, n, attrs) && IsName(a.key) && !HasKey(attrs, a.key)
    ensures Read(r, WriteAttr(a)) == r.(mode := AfterValue(n, attrs + [a]))
  {
    var start, end := r.(mode := Value(n, attrs, a.key, "")), r.(mode := Value(n, attrs, a.key, a.value));
    assert Step(end, '"') == r.(mode := AfterValue(n, attrs + [a]));
    ReadKeyPart(r, n, attrs, a.key);
    hide Step;
    assert WriteAttr(a) == (" " + a.key + "=\"") + (Attr(a.value) + "\"");
    ReadAppend(r, " " + a.key + "=\"", Attr(a.value) + "\"");
    ReadAppend(start, Attr(a.value), "\"");
    ReadValue(start, n, attrs, a.key, "", a.value);
    assert "" + a.value == a.value;
    ReadChar(end, '"');
  }

  lemma {:induction false} ReadAttrs(r: Reader, n: string, before: seq<Attribute>, attrs: seq<Attribute>)
    requires BeforeAttr(r, n, before) && GoodAttrs(before + attrs)
    ensures var end := Read(r, WriteAttrs(attrs));
            BeforeAttr(end, n, before + attrs) && end.stack == r.stack && end.events == r.events
    decreases |attrs|
  {
    hide WriteAttr, Step;
    if attrs == [] {
      assert before + attrs == before;
    } else {
      var all := before + attrs;
      assert all[|before|] == attrs[0];
      assert forall i | 0 <= i < |before| :: before[i] == all[i];
      ReadAttr(r, n, before, attrs[0]);
      ReadAppend(r, WriteAttr(attrs[0]), WriteAttrs(attrs[1..]));
      assert before + [attrs[0]] + attrs[1..] == all;
      ReadAttrs(r.(mode := AfterValue(n, before + [attrs[0]])), n, before + [attrs[0]], attrs[1..]);
    }
  }

  /** A start tag up to its closing bracket. */
  lemma ReadTag(r: Reader, n: string, attrs: seq<Attribute>) returns (end: Reader)
    requires r.mode == Content && (r.stack != [] || r.events == []) && IsName(n) && GoodAttrs(attrs)
    ensures end == Read(r, "<" + n + WriteAttrs(attrs))
    ensures BeforeAttr(end, n, attrs) && end.stack == r.stack && end.events == r.events
  {
    hide WriteAttrs;
    assert "<" + n + WriteAttrs(attrs) == "<" + ([n[0]] + (n[1..] + WriteAttrs(attrs)));
    ReadFirst(r, '<', [n[0]] + (n[1..] + WriteAttrs(attrs)));
    var r1 := r.(mode := TagStart);
    ReadFirst(r1, n[0], n[1..] + WriteAttrs(attrs));
    var r2 := r.(mode := TagName([n[0]]));
    ReadAppend(r2, n[1..], WriteAttrs(attrs));
    ReadTagName(r2, [n[0]], n[1..]);
    assert [n[0]] + n[1..] == n && [] + attrs == attrs;
    ReadAttrs(r.(mode := TagName(n)), n, [], attrs);
    end := Read(r, "<" + n + WriteAttrs(attrs));
  }

  lemma ReadEnd(r: Reader, n: string)
    requires r.mode == Content && r.stack != [] && r.stack[|r.stack| - 1] == n && IsName(n)
    ensures Read(r, "</" + n + ">") == Reader(Content, r.stack[..|r.stack| - 1], r.events + [Close(n)])
  {
    var r1, r2, r3 := r.(mode := TagStart), r.(mode := EndName("")), r.(mode := EndName(n));
    assert Step(r, '<') == r1 && Step(r1, '/') == r2;
    assert Step(r3, '>') == Reader(Content, r.stack[..|r.stack| - 1], r.events + [Close(n)]);
    assert forall i | 0 <= i < |n| :: NameChar(n[i]);
    hide Step, Read, NameChar, IsName;
    assert "</" + n + ">" == "<" + ("/" + (n + ">"));
    ReadFirst(r, '<', "/" + (n + ">"));
    ReadFirst(r1, '/', n + ">");
    ReadAppend(r2, n, ">");
    ReadEndName(r2, "", n);
    assert "" + n == n;
    ReadChar(r3, '>');
  }

  lemma ReadEmpty(r: Reader, n: string, attrs: seq<Attribute>)
    requires r.mode == Content && r.stack != [] && IsName(n) && GoodAttrs(attrs)
    ensures Read(r, Write(Empty(n, attrs))) == r.(events := r.events + [Open(n, attrs), Close(n)])
  {
    var t := ReadTag(r, n, attrs);
    var t1, t2 := t.(mode := InTag(n, attrs)), t.(mode := Slash(n, attrs));
    assert Step(t, ' ') == t1 && Step(t1, '/') == t2;
    assert Step(t2, '>') == r.(events := r.events + [Open(n, attrs), Close(n)]);
    var head := "<" + n + WriteAttrs(attrs);
    assert Write(Empty(n, attrs)) == head + " />";
    hide Step, Read, Write, WriteAttrs, GoodAttrs, IsName, BeforeAttr;
    ReadAppend(r, head, " />");
    assert " />" == " " + ("/" + ">");
    ReadFirst(t, ' ', "/" + ">");
    ReadFirst(t1, '/', ">");
    ReadChar(t2, '>');
  }

  lemma ReadOpen(r: Reader, n: string, attrs: seq<Attribute>)
    requires r.mode == Content && (r.stack != [] || r.events == []) && IsName(n) && GoodAttrs(attrs)
    ensures Read(r, "<" + n + WriteAttrs(attrs) + ">") == Opened(r, n, attrs)
  {
    var t := ReadTag(r, n, attrs);
    assert Step(t, '>') == Opened(r, n, attrs);
    hide Step, WriteAttrs;
    ReadAppend(r, "<" + n + WriteAttrs(attrs), ">");
    ReadChar(t, '>');
  }

  lemma {:induction false} ReadElem(r: Reader, n: string, attrs: seq<Attribute>, kids: seq<Node>)
    requires r.mode == Content && (r.stack != [] || r.events == []) && Good(Elem(n, attrs, kids))
    ensures Read(r, Write(Elem(n, attrs, kids))) == r.(events := r.events + Events(Elem(n, attrs, kids)))
    decreases kids, 1
  {
    var head, body, tail := "<" + n + WriteAttrs(attrs) + ">", WriteAll(kids), "</" + n + ">";
    assert Write(Elem(n, attrs, kids)) == head + (body + tail);
    ReadOpen(r, n, attrs);
    var inside := Opened(r, n, attrs);
    var done := inside.(events := inside.events + EventsAll(kids));
    assert done.stack[..|done.stack| - 1] == r.stack;
    assert done.events + [Close(n)] == r.events + Events(Elem(n, attrs, kids));
    assert AllGood(kids) && IsName(n) by { hide Write, WriteAll; }
    hide Write, WriteAll, Good, Step, Events;
    ReadAppend(r, head, body + tail);
    ReadAppend(inside, body, tail);
    ReadNodes(inside, kids);
    ReadEnd(done, n);
  }

  lemma {:induction false} ReadNode(r: Reader, n: Node)
    requires r.mode == Content && r.stack != [] && Good(n)
    ensures Read(r, Write(n)) == r.(events := r.events + Events(n))
    decreases n, 2
  {
    match n {
      case Escaped(s) => ReadText(r, s);
      case Literal(s) => ReadLiteral(r, s);
      case Elem(name, attrs, kids) => ReadElem(r, name, attrs, kids);
      case Empty(name, attrs) => ReadEmpty(r, name, attrs);
    }
  }

  lemma {:induction false} ReadNodes(r: Reader, ns: seq<Node>)
    requires r.mode == Content && r.stack != [] && AllGood(ns)
    ensures Read(r, WriteAll(ns)) == r.(events := r.events + EventsAll(ns))
    decreases ns, 0
  {
    hide Step, Write, Events, Good;
    if ns == [] {
      assert r.events + [] == r.events;
    } else {
      ReadAppend(r, Write(ns[0]), WriteAll(ns[1..]));
      ReadNode(r, ns[0]);
      ReadNodes(r.(events := r.events + Events(ns[0])), ns[1..]);
      assert r.events + Events(ns[0]) + EventsAll(ns[1..]) == r.events + EventsAll(ns);
    }
  }

  /** Whatever strings a document carries, reading what is written gives exactly its tags, its attribute values and
      its text: no string can open, close or end anything. */
  lemma DocumentReadsBack(n: Node)
    requires n.Elem? && Good(n)
    ensures Reads(Write(n), Events(n))
  {
    ReadElem(START, n.name, n.attrs, n.kids);
    assert [] + Events(n) == Events(n);
  }
}
