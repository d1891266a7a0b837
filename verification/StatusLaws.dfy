/** What the status reader recovers from the printed document, and exactly when it recovers all of it. */
module StatusLaws {
  import opened Order
  import opened Chars
  import opened Fabric
  import opened Xml
  import opened Document
  import opened Status

  // ------------------------------------------------------------------------- unescape undoes attr

  /** The pass that restores each special character. */
  function Pass(c: char): nat {
    match c
    case '"' => 0
    case '\'' => 1
    case '<' => 2
    case '>' => 3
    case _ => 4
  }

  function PassChar(k: nat): char
    requires k < 5
  {
    "\"'<>&"[k]
  }

  /** The entity a pass looks for. */
  function PassText(k: nat): string
    requires k < 5
  {
    "&" + EntityOf(PassChar(k)).value + ";"
  }

  lemma PassTexts()
    ensures PassText(0) == "&quot;" && PassText(1) == "&apos;" && PassText(2) == "&lt;" && PassText(3) == "&gt;"
    ensures PassText(4) == "&amp;"
    ensures PassChar(0) == '"' && PassChar(1) == '\'' && PassChar(2) == '<' && PassChar(3) == '>' && PassChar(4) == '&'
  {
  }

  /** A character once the first `k` passes are over. */
  function LeftChar(k: nat, c: char): string {
    if EntityOf(c).Some? && Pass(c) >= k then "&" + EntityOf(c).value + ";" else [c]
  }

  function Left(k: nat, s: string): string {
    if s == "" then "" else LeftChar(k, s[0]) + Left(k, s[1..])
  }

  lemma {:induction false} LeftFirst(s: string)
    ensures Left(0, s) == Attr(s)
  {
    EscapesByChar(if s == "" then 'x' else s[0], if s == "" then s else s[1..]);
    if s != "" {
      LeftFirst(s[1..]);
      assert s == [s[0]] + s[1..];
      assert LeftChar(0, s[0]) == AttrChar(s[0]);
      hide Attr, Left, AttrChar;
    }
  }

  lemma {:induction false} LeftLast(s: string)
    ensures Left(5, s) == s
  {
    if s != "" { LeftLast(s[1..]); }
  }

  lemma {:induction false} ReplaceSkips(u: string, t: string, p: string, c: char)
    requires p != "" && p[0] !in u
    ensures ReplaceAll(u + t, p, c) == u + ReplaceAll(t, p, c)
    decreases |u|
  {
    if u == "" {
      assert u + t == t;
    } else {
      var rest := u[1..];
      assert (u + t)[0] == u[0] && (u + t)[1..] == rest + t && u == [u[0]] + rest;
      assert ReplaceAll(u + t, p, c) == [u[0]] + ReplaceAll(rest + t, p, c);
      hide ReplaceAll;
      ReplaceSkips(rest, t, p, c);
    }
  }

  /** No entity is the beginning of another one, whatever follows it. */
  lemma EntitiesApart(c: char, d: char, t: string)
    requires EntityOf(c).Some? && EntityOf(d).Some? && c != d
    ensures !("&" + EntityOf(d).value + ";" <= "&" + EntityOf(c).value + ";" + t)
    ensures '&' !in EntityOf(c).value + ";"
  {
    var e, f := EntityOf(c).value, EntityOf(d).value;
    assert ("&" + f + ";")[1] == f[0] && ("&" + e + ";" + t)[1] == e[0];
    assert ("&" + f + ";")[2] == f[1] && ("&" + e + ";" + t)[2] == e[1];
  }

  lemma PassHits(p: string, d: char, t: string)
    requires p != ""
    ensures ReplaceAll(p + t, p, d) == [d] + ReplaceAll(t, p, d)
  {
    assert (p + t)[|p|..] == t;
  }

  /** The pass for one entity steps over another one. */
  lemma PassMisses(c: char, d: char, t: string)
    requires EntityOf(c).Some? && EntityOf(d).Some? && c != d
    ensures var u, p := "&" + EntityOf(c).value + ";", "&" + EntityOf(d).value + ";";
            ReplaceAll(u + t, p, d) == u + ReplaceAll(t, p, d)
  {
    EntitiesApart(c, d, t);
    hide EntityOf;
    var p, e := "&" + EntityOf(d).value + ";", EntityOf(c).value + ";";
    var u := "&" + EntityOf(c).value + ";";
    assert (u + t)[0] == '&' && (u + t)[1..] == e + t && u == "&" + e;
    ReplaceSkips(e, t, p, d);
  }

  lemma PassOnChar(k: nat, c: char, t: string)
    requires k < 5
    ensures ReplaceAll(LeftChar(k, c) + t, PassText(k), PassChar(k))
         == LeftChar(k + 1, c) + ReplaceAll(t, PassText(k), PassChar(k))
  {
    hide ReplaceAll;
    var d := PassChar(k);
    var p := PassText(k);
    if c == d {
      PassHits(p, d, t);
    } else if EntityOf(c).Some? && Pass(c) >= k {
      PassMisses(c, d, t);
    } else {
      ReplaceSkips([c], t, p, d);
    }
  }

  lemma {:induction false} PassOn(k: nat, s: string)
    requires k < 5
    ensures ReplaceAll(Left(k, s), PassText(k), PassChar(k)) == Left(k + 1, s)
  {
    if s != "" {
      PassOnChar(k, s[0], Left(k, s[1..]));
      hide LeftChar, ReplaceAll, PassText, PassChar;
      PassOn(k, s[1..]);
    }
  }

  lemma UnescapeUndoesAttr(s: string)
    ensures Unescape(Attr(s)) == s
  {
    hide Attr, ReplaceAll, Left, PassText, PassChar;
    PassTexts();
    LeftFirst(s);
    PassOn(0, s);
    PassOn(1, s);
    PassOn(2, s);
    PassOn(3, s);
    PassOn(4, s);
    LeftLast(s);
  }

  lemma UnescapeKeeps(s: string)
    requires '&' !in s
    ensures Unescape(s) == s
  {
    assert s + "" == s;
    ReplaceSkips(s, "", "&quot;", '"');
    ReplaceSkips(s, "", "&apos;", '\'');
    ReplaceSkips(s, "", "&lt;", '<');
    ReplaceSkips(s, "", "&gt;", '>');
    ReplaceSkips(s, "", "&amp;", '&');
  }

  // ------------------------------------------------------------------------- scanning for a key

  ghost predicate WordKey(k: string) { k != "" && forall i | 0 <= i < |k| :: Word(k[i]) }

  /** The value ends in `key=`, with no word character just before the key. */
  ghost predicate EndsIn(v: string, key: string) {
    && |v| > |key|
    && v[|v| - |key| - 1..] == key + "="
    && (|v| == |key| + 1 || !Word(v[|v| - |key| - 2]))
  }

  /** The same, as a scan meets it. */
  ghost predicate Meets(afterWord: bool, v: string, key: string)
    decreases |v|
  {
    v != "" && ((!afterWord && v == key + "=") || Meets(Word(v[0]), v[1..], key))
  }

  lemma {:induction false} MeetsMeans(afterWord: bool, v: string, key: string)
    ensures Meets(afterWord, v, key) <==>
            |v| > |key| && v[|v| - |key| - 1..] == key + "="
            && if |v| == |key| + 1 then !afterWord else !Word(v[|v| - |key| - 2])
    decreases |v|
  {
    if v != "" {
      MeetsMeans(Word(v[0]), v[1..], key);
      if |v| > |key| + 1 {
        assert v[1..][|v[1..]| - |key| - 1..] == v[|v| - |key| - 1..];
      } else if |v| == |key| + 1 {
        assert v[0..] == v;
      }
    }
  }

  lemma MeetsIsEndsIn(v: string, key: string)
    ensures Meets(false, v, key) == EndsIn(v, key)
  {
    MeetsMeans(false, v, key);
  }

  /** No match starts after a word character, nor at another character. */
  lemma SearchPast(afterWord: bool, c: char, t: string, key: string)
    requires WordKey(key) && (afterWord || !Word(c))
    ensures Search(afterWord, [c] + t, key) == Search(Word(c), t, key)
  {
    assert ([c] + t)[1..] == t;
    assert (key + "=\"")[0] == key[0];
  }

  lemma {:induction false} SearchPastWord(w: string, t: string, key: string)
    requires WordKey(key) && forall i | 0 <= i < |w| :: Word(w[i])
    ensures Search(true, w + t, key) == Search(true, t, key)
    decreases |w|
  {
    if w == "" {
      assert w + t == t;
    } else {
      SearchPast(true, w[0], w[1..] + t, key);
      assert [w[0]] + (w[1..] + t) == w + t;
      SearchPastWord(w[1..], t, key);
    }
  }

  /** A word followed by another character opens a match only if it is the key before its '='. */
  lemma OpeningIsKey(w: string, c: char, t: string, key: string)
    requires WordKey(key) && WordKey(w) && !Word(c) && key + "=\"" <= w + [c] + t
    ensures w == key && c == '='
  {
    var s, o := w + [c] + t, key + "=\"";
    assert s[|w|] == c && o[|key|] == '=';
    assert forall i | 0 <= i < |w| :: s[i] == w[i];
    assert forall i | 0 <= i < |key| :: o[i] == key[i];
    assert forall i | 0 <= i < |o| :: s[i] == o[i];
    assert |w| == |key|;
    assert s[..|w|] == w && o[..|w|] == key;
  }

  lemma SearchPastWholeWord(w: string, c: char, t: string, key: string)
    requires WordKey(key) && WordKey(w) && !Word(c) && (w != key || c != '=')
    ensures Search(false, w + [c] + t, key) == Search(false, t, key)
  {
    var s := w + [c] + t;
    if key + "=\"" <= s { OpeningIsKey(w, c, t, key); }
    assert s[1..] == w[1..] + ([c] + t);
    assert Search(false, s, key) == Search(true, s[1..], key);
    hide Search;
    SearchPastWord(w[1..], [c] + t, key);
    SearchPast(true, c, t, key);
  }

  lemma {:induction false} UpToStops(u: string, c: char, t: string)
    requires c !in u
    ensures UpTo(u + [c] + t, c) == |u|
  {
    if u != "" {
      UpToStops(u[1..], c, t);
      assert (u + [c] + t)[1..] == u[1..] + [c] + t;
    }
  }

  lemma AttrCharShape(c: char)
    ensures '"' !in AttrChar(c) && '<' !in AttrChar(c) && '>' !in AttrChar(c)
  {
    assert EntityOf(c).Some? ==> AttrChar(c) == "&" + EntityOf(c).value + ";";
  }

  /** No value contains a quote or a bracket once written. */
  lemma {:induction false} AttrShape(v: string)
    ensures '"' !in Attr(v) && '<' !in Attr(v) && '>' !in Attr(v)
  {
    EscapesByChar(if v == "" then 'x' else v[0], if v == "" then v else v[1..]);
    hide Attr, AttrChar;
    if v != "" {
      AttrShape(v[1..]);
      AttrCharShape(v[0]);
      assert v == [v[0]] + v[1..];
    }
  }

  lemma {:induction false} AttrKeeps(v: string)
    requires forall i | 0 <= i < |v| :: EntityOf(v[i]).None?
    ensures Attr(v) == v
  {
    EscapesByChar(if v == "" then 'x' else v[0], if v == "" then v else v[1..]);
    if v != "" {
      AttrKeeps(v[1..]);
      assert v == [v[0]] + v[1..];
      hide Attr;
    }
  }

  lemma AttrIsOpening(v: string, key: string)
    requires WordKey(key)
    ensures Attr(v) == key + "=" <==> v == key + "="
  {
    AttrKeeps(key + "=");
    hide Attr, Unescape;
    UnescapeUndoesAttr(v);
    UnescapeUndoesAttr(key + "=");
  }

  lemma QuotesAlign(a: string, o: string, t: string)
    requires '"' !in a && '"' !in o && o + "\"" <= a + "\"" + t
    ensures a == o
  {
    var s, p := a + "\"" + t, o + "\"";
    assert s[|a|] == '"' && p[|o|] == '"';
    assert forall i | 0 <= i < |a| :: s[i] == a[i];
    assert forall i | 0 <= i < |o| :: p[i] == o[i];
    assert forall i | 0 <= i < |p| :: s[i] == p[i];
    assert |a| == |o|;
    assert s[..|a|] == a && p[..|a|] == o;
  }

  /** A match that starts inside a value takes the value's closing quote for its opening one. */
  lemma OpensInValue(v: string, t: string, key: string)
    requires WordKey(key)
    ensures key + "=\"" <= Attr(v) + "\"" + t <==> v == key + "="
  {
    AttrShape(v);
    AttrIsOpening(v, key);
    hide Attr;
    assert key + "=\"" == key + "=" + "\"";
    if key + "=\"" <= Attr(v) + "\"" + t { QuotesAlign(Attr(v), key + "=", t); }
  }

  function AfterQuote(t: string, key: string): Option<string> {
    if UpTo(t, '"') < |t| then Some(t[..UpTo(t, '"')]) else Search(false, t, key)
  }

  lemma SearchOpened(t: string, key: string)
    requires WordKey(key)
    ensures Search(false, key + "=" + ("\"" + t), key) == AfterQuote(t, key)
  {
    var o := key + "=\"";
    var s := key + "=" + ("\"" + t);
    assert s == o + t && s[|o|..] == t;
    if UpTo(t, '"') == |t| {
      assert s[1..] == key[1..] + ("=\"" + t);
      SearchPastWord(key[1..], "=\"" + t, key);
      assert "=\"" + t == ['='] + (['"'] + t);
      SearchPast(true, '=', ['"'] + t, key);
      SearchPast(false, '"', t, key);
    }
  }

  lemma EntityIsWord(c: char)
    requires EntityOf(c).Some?
    ensures WordKey(EntityOf(c).value)
  {
  }

  lemma SearchPastEntity(afterWord: bool, c: char, t: string, key: string)
    requires WordKey(key) && EntityOf(c).Some?
    ensures Search(afterWord, AttrChar(c) + t, key) == Search(false, t, key)
  {
    EntityIsWord(c);
    var e := EntityOf(c).value;
    assert AttrChar(c) + t == ['&'] + (e + [';'] + t);
    hide EntityOf, Search;
    SearchPast(afterWord, '&', e + [';'] + t, key);
    SearchPastWholeWord(e, ';', t, key);
  }

  /** No match starts where the opening does not. */
  lemma SearchPastUnopened(afterWord: bool, c: char, t: string, key: string)
    requires WordKey(key) && (afterWord || !(key + "=\"" <= [c] + t))
    ensures Search(afterWord, [c] + t, key) == Search(Word(c), t, key)
  {
    assert ([c] + t)[1..] == t;
  }

  /** One character of a value that does not open a match. */
  lemma SearchPastValueChar(afterWord: bool, v: string, t: string, key: string)
    requires WordKey(key) && v != "" && (afterWord || v != key + "=")
    ensures Search(afterWord, Attr(v) + ("\"" + t), key) == Search(Word(v[0]), Attr(v[1..]) + ("\"" + t), key)
  {
    var rest := Attr(v[1..]) + ("\"" + t);
    EscapesByChar(v[0], v[1..]);
    assert v == [v[0]] + v[1..];
    assert EntityOf(v[0]).Some? ==> !Word(v[0]);
    hide Attr, Search, WordKey;
    assert Attr(v) + ("\"" + t) == AttrChar(v[0]) + rest;
    if EntityOf(v[0]).Some? {
      hide AttrChar, EntityOf;
      SearchPastEntity(afterWord, v[0], rest, key);
    } else {
      OpensInValue(v, t, key);
      assert Attr(v) + "\"" + t == [v[0]] + rest;
      SearchPastUnopened(afterWord, v[0], rest, key);
    }
  }

  lemma {:induction false} SearchValue(afterWord: bool, v: string, t: string, key: string)
    requires WordKey(key)
    ensures Search(afterWord, Attr(v) + ("\"" + t), key)
         == if Meets(afterWord, v, key) then AfterQuote(t, key) else Search(false, t, key)
    decreases |v|
  {
    if v == "" {
      EscapesByChar('x', "");
      assert "" + ("\"" + t) == ['"'] + t;
      hide Search;
      SearchPast(afterWord, '"', t, key);
    } else if !afterWord && v == key + "=" {
      AttrIsOpening(v, key);
      hide Search;
      SearchOpened(t, key);
    } else {
      hide Search, Attr, AfterQuote;
      SearchPastValueChar(afterWord, v, t, key);
      SearchValue(Word(v[0]), v[1..], t, key);
    }
  }

  // ------------------------------------------------------------------------- lookups, exactly

  lemma SearchOther(afterWord: bool, a: Attribute, t: string, key: string)
    requires WordKey(key) && WordKey(a.key) && a.key != key
    ensures Search(afterWord, WriteAttr(a) + t, key)
         == if EndsIn(a.value, key) then AfterQuote(t, key) else Search(false, t, key)
  {
    var value := Attr(a.value) + ("\"" + t);
    assert WriteAttr(a) + t == [' '] + (a.key + ['='] + (['"'] + value));
    hide Search, Attr, AfterQuote, EndsIn, Meets;
    SearchPast(afterWord, ' ', a.key + ['='] + (['"'] + value), key);
    SearchPastWholeWord(a.key, '=', ['"'] + value, key);
    SearchPast(false, '"', value, key);
    SearchValue(false, a.value, t, key);
    MeetsIsEndsIn(a.value, key);
  }

  lemma SearchOwn(afterWord: bool, a: Attribute, t: string)
    requires WordKey(a.key)
    ensures Search(afterWord, WriteAttr(a) + t, a.key) == Some(Attr(a.value))
  {
    var value := Attr(a.value) + ['"'] + t;
    assert WriteAttr(a) + t == [' '] + (a.key + "=" + ("\"" + value));
    AttrShape(a.value);
    hide Search, Attr;
    SearchPast(afterWord, ' ', a.key + "=" + ("\"" + value), a.key);
    SearchOpened(value, a.key);
    UpToStops(Attr(a.value), '"', t);
    assert value[..|Attr(a.value)|] == Attr(a.value);
  }

  lemma AfterQuoteStops(head: string, t: string, key: string)
    requires '"' !in head
    ensures AfterQuote(head + ['"'] + t, key) == Some(head)
  {
    hide Search, UpTo;
    UpToStops(head, '"', t);
    assert (head + ['"'] + t)[..|head|] == head;
  }

  lemma QuoteSplits(key: string, value: string, rest: string)
    ensures " " + key + "=\"" + value + "\"" + rest + " " == " " + key + "=" + ['"'] + (value + "\"" + rest + " ")
  {
  }

  /** What is captured after a value's closing quote: the text up to the next attribute's opening quote. */
  lemma AfterQuoteIs(attrs: seq<Attribute>, key: string)
    requires WordKey(key) && (attrs != [] ==> WordKey(attrs[0].key))
    ensures AfterQuote(WriteAttrs(attrs) + " ", key)
         == if attrs == [] then Search(false, " ", key) else Some(" " + attrs[0].key + "=")
  {
    if attrs == [] {
      assert WriteAttrs(attrs) + " " == " ";
      assert UpTo(" ", '"') == 1;
    } else {
      var head, a := " " + attrs[0].key + "=", Attr(attrs[0].value);
      var t := a + "\"" + WriteAttrs(attrs[1..]) + " ";
      assert '"' !in head;
      hide Search, Attr, AfterQuote, WordKey;
      QuoteSplits(attrs[0].key, a, WriteAttrs(attrs[1..]));
      AfterQuoteStops(head, t, key);
    }
  }

  /** The value stored under a key, or nothing. */
  function ValueOf(attrs: seq<Attribute>, key: string): string {
    if attrs == [] then "" else if attrs[0].key == key then attrs[0].value else ValueOf(attrs[1..], key)
  }

  /** What a lookup returns instead, when a value in front of the key's own ends in the key. */
  ghost function Overrun(attrs: seq<Attribute>, key: string): Option<string> {
    if attrs == [] || attrs[0].key == key then None
    else if EndsIn(attrs[0].value, key) && |attrs| > 1 then Some(" " + attrs[1].key + "=")
    else Overrun(attrs[1..], key)
  }

  lemma {:induction false} SearchExact(afterWord: bool, attrs: seq<Attribute>, key: string)
    requires WordKey(key) && forall i | 0 <= i < |attrs| :: WordKey(attrs[i].key)
    ensures Search(afterWord, WriteAttrs(attrs) + " ", key)
         == if Overrun(attrs, key).Some? then Overrun(attrs, key)
            else if HasKey(attrs, key) then Some(Attr(ValueOf(attrs, key)))
            else None
    decreases |attrs|
  {
    if attrs == [] {
      assert WriteAttrs(attrs) + " " == [' '] + "";
      SearchPast(afterWord, ' ', "", key);
    } else {
      var t := WriteAttrs(attrs[1..]) + " ";
      assert WriteAttrs(attrs) + " " == WriteAttr(attrs[0]) + t;
      assert attrs[0].key == key ==> HasKey(attrs, key);
      hide Search, Attr, WriteAttr, EndsIn, AfterQuote;
      if attrs[0].key == key {
        SearchOwn(afterWord, attrs[0], t);
      } else {
        assert HasKey(attrs, key) == HasKey(attrs[1..], key) by {
          if HasKey(attrs, key) {
            var i :| 0 <= i < |attrs| && attrs[i].key == key;
            assert attrs[1..][i - 1].key == key;
          }
        }
        SearchOther(afterWord, attrs[0], t, key);
        AfterQuoteIs(attrs[1..], key);
        SearchExact(false, attrs[1..], key);
      }
    }
  }

  /** What a lookup finds. */
  ghost function Found(attrs: seq<Attribute>, key: string): string {
    if Overrun(attrs, key).Some? then Overrun(attrs, key).value else ValueOf(attrs, key)
  }

  lemma {:induction false} OverrunPlain(attrs: seq<Attribute>, key: string)
    requires forall i | 0 <= i < |attrs| :: WordKey(attrs[i].key)
    ensures Overrun(attrs, key).Some? ==> '&' !in Overrun(attrs, key).value && Overrun(attrs, key).value != ""
    ensures Overrun(attrs, key).Some? ==> Overrun(attrs, key).value[0] == ' '
  {
    if attrs != [] { OverrunPlain(attrs[1..], key); }
  }

  lemma {:induction false} ValueOfAbsent(attrs: seq<Attribute>, key: string)
    requires !HasKey(attrs, key)
    ensures ValueOf(attrs, key) == ""
  {
    if attrs != [] {
      assert forall i | 0 <= i < |attrs[1..]| :: attrs[1..][i] == attrs[i + 1];
      ValueOfAbsent(attrs[1..], key);
    }
  }

  /** `attr` returns the stored value, unless an earlier value overruns into a later key. */
  lemma FindExact(attrs: seq<Attribute>, key: string)
    requires WordKey(key) && forall i | 0 <= i < |attrs| :: WordKey(attrs[i].key)
    ensures Find(WriteAttrs(attrs) + " ", key) == Found(attrs, key)
  {
    hide Search, Overrun, Unescape, Attr, WriteAttrs, ValueOf, HasKey;
    SearchExact(false, attrs, key);
    if Overrun(attrs, key).Some? {
      OverrunPlain(attrs, key);
      UnescapeKeeps(Overrun(attrs, key).value);
    } else if HasKey(attrs, key) {
      UnescapeUndoesAttr(ValueOf(attrs, key));
    } else {
      ValueOfAbsent(attrs, key);
    }
  }

  // ----------------------------------------------------------------------------- the self tag

  lemma {:induction false} AttrsHaveNoBracket(attrs: seq<Attribute>)
    requires forall i | 0 <= i < |attrs| :: WordKey(attrs[i].key)
    ensures '>' !in WriteAttrs(attrs)
    ensures attrs != [] ==> WriteAttrs(attrs) != "" && WriteAttrs(attrs)[0] == ' '
  {
    if attrs != [] {
      AttrShape(attrs[0].value);
      hide Attr;
      assert '>' !in WriteAttr(attrs[0]);
      AttrsHaveNoBracket(attrs[1..]);
    }
  }

  lemma TagAt(attrs: seq<Attribute>, t: string)
    requires attrs != [] && forall i | 0 <= i < |attrs| :: WordKey(attrs[i].key)
    ensures SelfTag("<self" + (WriteAttrs(attrs) + " /" + ['>'] + t)) == Some(WriteAttrs(attrs) + " ")
  {
    AttrsHaveNoBracket(attrs);
    hide WriteAttrs, SelfTag;
    TagFrom(WriteAttrs(attrs) + " ", t);
    assert WriteAttrs(attrs) + " " + "/" == WriteAttrs(attrs) + " /";
  }

  lemma TagFrom(group: string, t: string)
    requires group != "" && group[0] == ' ' && '>' !in group
    ensures SelfTag("<self" + (group + "/" + ['>'] + t)) == Some(group)
  {
    hide UpTo;
    var u := group + "/";
    UpToStops(u, '>', t);
    assert ("<self" + (u + ['>'] + t))[5..] == u + ['>'] + t;
    assert (u + ['>'] + t)[..|u| - 1] == group;
  }

  lemma {:induction false} TagLater(u: string, t: string)
    requires '<' !in u
    ensures SelfTag(u + t) == SelfTag(t)
  {
    if u == "" {
      assert u + t == t;
    } else {
      assert (u + t)[1..] == u[1..] + t && (u + t)[0] == u[0] && "<self"[0] == '<';
      TagLater(u[1..], t);
    }
  }

  lemma TagAfterRoot(t: string)
    ensures SelfTag("<mosaico>\n  " + t) == SelfTag(t)
  {
    var u := "mosaico>\n  ";
    var s := "<mosaico>\n  " + t;
    assert s == ['<'] + (u + t);
    assert s[1..] == u + t && s[1] == 'm';
    assert !("<self" <= s) by { assert "<self"[1] == 's'; }
    TagLater(u, t);
  }

  lemma TagOf(v: FabricView)
    requires v.selfRow.Some?
    ensures SelfTag(Write(Doc(v))) == Some(WriteAttrs(SelfAttrs(v.selfRow.value)) + " ")
  {
    var attrs := SelfAttrs(v.selfRow.value);
    SelfKeys(v.selfRow.value);
    SectionsStart(v);
    var rest := Sections(v)[2..] + [Literal("\n")];
    hide Sections, SelfAttrs, WriteAttrs, SelfTag, Write;
    assert Sections(v) + [Literal("\n")] == [Line(2), Empty("self", attrs)] + rest;
    var t := WriteAll(rest) + "</mosaico>";
    DocText(attrs, rest);
    TagAfterRoot("<self" + (WriteAttrs(attrs) + " /" + ['>'] + t));
    TagAt(attrs, t);
  }

  lemma RootText(ns: seq<Node>)
    ensures Write(Elem("mosaico", [], ns)) == "<mosaico>" + WriteAll(ns) + "</mosaico>"
  {
    hide WriteAll;
    assert WriteAttrs([]) == "";
    assert "<" + "mosaico" + "" + ">" == "<mosaico>" && "</" + "mosaico" + ">" == "</mosaico>";
  }

  lemma DocText(attrs: seq<Attribute>, rest: seq<Node>)
    ensures Write(Elem("mosaico", [], [Line(2), Empty("self", attrs)] + rest))
         == "<mosaico>\n  " + ("<self" + (WriteAttrs(attrs) + " /" + ['>'] + (WriteAll(rest) + "</mosaico>")))
  {
    var ns := [Line(2), Empty("self", attrs)] + rest;
    RootText(ns);
    hide WriteAttrs, Write, WriteAll;
    DocStarts(attrs, rest);
    Regroup(WriteAttrs(attrs), WriteAll(rest));
  }

  lemma Regroup(w: string, r: string)
    ensures "<mosaico>" + ("\n  " + ("<self" + (w + " /" + ['>'] + r))) + "</mosaico>"
         == "<mosaico>\n  " + ("<self" + (w + " /" + ['>'] + (r + "</mosaico>")))
  {
  }

  lemma SectionsStart(v: FabricView)
    requires v.selfRow.Some?
    ensures |Sections(v)| >= 2 && Sections(v)[..2] == [Line(2), Empty("self", SelfAttrs(v.selfRow.value))]
  {
    var s := SelfNodes(v.selfRow);
    assert s <= Sections(v) by {
      hide SelfNodes, HostsNodes, ChannelsNodes, ImportantNodes, ReactionsNodes, WarningsNodes, Each, GuideNodes;
    }
    assert s[0] == Line(2) && s[1] == Empty("self", SelfAttrs(v.selfRow.value));
  }

  lemma DocStarts(attrs: seq<Attribute>, rest: seq<Node>)
    ensures WriteAll([Line(2), Empty("self", attrs)] + rest)
         == "\n  " + ("<self" + (WriteAttrs(attrs) + " /" + ['>'] + WriteAll(rest)))
  {
    var ns := [Line(2), Empty("self", attrs)] + rest;
    assert ns[1..] == [Empty("self", attrs)] + rest && ns[1..][1..] == rest;
    assert Spaces(2) == "  ";
    assert Write(ns[0]) == "\n  ";
    assert Write(ns[1]) == "<self" + WriteAttrs(attrs) + " />" by { hide WriteAttrs; }
    hide WriteAttrs, Write;
    assert WriteAll(ns) == Write(ns[0]) + (Write(ns[1]) + WriteAll(rest));
  }

  lemma SelfKeys(row: SelfRow)
    ensures forall i | 0 <= i < |SelfAttrs(row)| :: WordKey(SelfAttrs(row)[i].key)
    ensures SelfAttrs(row) != []
  {
    hide Handle;
    var keys := ["name", "host", "headless", "unhosted", "workspace", "branch", "title"];
    assert forall i | 0 <= i < |keys| :: WordKey(keys[i]);
    assert forall i | 0 <= i < |SelfAttrs(row)| :: SelfAttrs(row)[i].key in keys by { hide WordKey; }
  }

  // ----------------------------------------------------------------------------- the round trip

  lemma {:induction false} ValueOfAppend(a: seq<Attribute>, b: seq<Attribute>, key: string)
    ensures ValueOf(a + b, key) == if HasKey(a, key) then ValueOf(a, key) else ValueOf(b, key)
  {
    if a == [] {
      assert a + b == b;
    } else {
      assert (a + b)[1..] == a[1..] + b;
      ValueOfAppend(a[1..], b, key);
      if a[0].key != key {
        assert HasKey(a, key) == HasKey(a[1..], key) by {
          if HasKey(a, key) { var i :| 0 <= i < |a| && a[i].key == key; assert a[1..][i - 1].key == key; }
        }
      }
    }
  }

  lemma ValueOfOpt(a: seq<Attribute>, key: string, value: string, other: string)
    requires !HasKey(a, key)
    ensures ValueOf(a + Opt(key, value), other) == if other == key then value else ValueOf(a, other)
    ensures HasKey(a + Opt(key, value), other) <==> HasKey(a, other) || (other == key && value != "")
  {
    var b := Opt(key, value);
    ValueOfAppend(a, b, other);
    if !HasKey(a, other) { ValueOfAbsent(a, other); }
    if HasKey(a, other) {
      var i :| 0 <= i < |a| && a[i].key == other;
      assert (a + b)[i].key == other;
    }
    if other == key && value != "" { assert (a + b)[|a|].key == other; }
  }

  lemma ThirdValue(a: seq<Attribute>, key: string)
    requires |a| > 2 && a[0].key != key && a[1].key != key && a[2].key == key
    ensures ValueOf(a, key) == a[2].value
  {
    assert ValueOf(a[1..][1..], key) == a[2].value;
  }

  lemma SelfHead(row: SelfRow) returns (head: seq<Attribute>)
    ensures SelfAttrs(row) == head + Opt("workspace", row.workspace) + Opt("branch", row.branch)
            + Opt("title", row.title)
    ensures !HasKey(head, "workspace") && !HasKey(head, "branch") && !HasKey(head, "title")
    ensures ValueOf(head, "headless") == (if row.headless then "on" else "off")
    ensures ValueOf(head, "unhosted") == (if row.unhosted then "true" else "")
    ensures ValueOf(head, "workspace") == ValueOf(head, "title") == ""
    ensures HasKey(head, "headless") && (HasKey(head, "unhosted") <==> row.unhosted)
  {
    hide Handle;
    var three := [Attribute("name", Handle(row.name)), Attribute("host", row.host),
                  Attribute("headless", if row.headless then "on" else "off")];
    head := three + (if row.unhosted then [Attribute("unhosted", "true")] else []);
    assert head[2].key == "headless";
    assert row.unhosted ==> head[3].key == "unhosted";
    ThirdValue(head, "headless");
    ValueOfAppend(three, head[3..], "unhosted");
    assert head[3..] == if row.unhosted then [Attribute("unhosted", "true")] else [];
    if !row.unhosted { ValueOfAbsent(head, "unhosted"); }
    ValueOfAbsent(head, "workspace");
    ValueOfAbsent(head, "title");
  }

  lemma SelfValues(row: SelfRow)
    ensures ValueOf(SelfAttrs(row), "workspace") == row.workspace
    ensures ValueOf(SelfAttrs(row), "title") == row.title
    ensures ValueOf(SelfAttrs(row), "unhosted") == (if row.unhosted then "true" else "")
    ensures ValueOf(SelfAttrs(row), "headless") == (if row.headless then "on" else "off")
  {
    var head := SelfHead(row);
    hide ValueOf, HasKey, Opt, SelfAttrs;
    var keys := ["workspace", "title", "unhosted", "headless", "branch"];
    var a1 := head + Opt("workspace", row.workspace);
    var a2 := a1 + Opt("branch", row.branch);
    forall i | 0 <= i < |keys|
      ensures ValueOf(a1, keys[i]) == if keys[i] == "workspace" then row.workspace else ValueOf(head, keys[i])
      ensures HasKey(a1, keys[i]) <==> HasKey(head, keys[i]) || (keys[i] == "workspace" && row.workspace != "")
    {
      ValueOfOpt(head, "workspace", row.workspace, keys[i]);
    }
    assert !HasKey(a1, "branch") by { assert keys[4] == "branch"; }
    forall i | 0 <= i < |keys|
      ensures keys[i] != "branch" ==> ValueOf(a2, keys[i]) == ValueOf(a1, keys[i])
      ensures HasKey(a2, keys[i]) <==> HasKey(a1, keys[i]) || (keys[i] == "branch" && row.branch != "")
    {
      ValueOfOpt(a1, "branch", row.branch, keys[i]);
    }
    assert !HasKey(a2, "title") by { assert keys[1] == "title"; }
    forall i | 0 <= i < |keys|
      ensures ValueOf(SelfAttrs(row), keys[i]) == if keys[i] == "title" then row.title else ValueOf(a2, keys[i])
    {
      ValueOfOpt(a2, "title", row.title, keys[i]);
    }
    assert keys[0] == "workspace" && keys[1] == "title" && keys[2] == "unhosted" && keys[3] == "headless";
  }

  lemma KeysAreWords()
    ensures WordKey("name") && WordKey("workspace") && WordKey("title") && WordKey("unhosted") && WordKey("headless")
  {
  }

  ghost function FoundStatus(attrs: seq<Attribute>): SessionStatus {
    SessionStatus(Found(attrs, "name"), Found(attrs, "workspace"), Found(attrs, "title"),
                  Found(attrs, "unhosted") == "true", Found(attrs, "headless") == "on")
  }

  lemma StatusOfTag(s: string, attrs: seq<Attribute>)
    requires SelfTag(s) == Some(WriteAttrs(attrs) + " ")
    requires (forall i | 0 <= i < |attrs| :: WordKey(attrs[i].key)) && Found(attrs, "name") != ""
    ensures ParseSessionStatus(s) == Some(FoundStatus(attrs))
  {
    hide Find, Found, SelfTag, WriteAttrs, WordKey;
    KeysAreWords();
    FindExact(attrs, "name");
    FindExact(attrs, "workspace");
    FindExact(attrs, "title");
    FindExact(attrs, "unhosted");
    FindExact(attrs, "headless");
  }

  ghost function ReadStatus(v: FabricView): Option<SessionStatus> { ParseSessionStatus(Write(Doc(v))) }

  /** Reading the printed self row always succeeds, and every field is what its lookup finds. */
  lemma StatusOf(v: FabricView)
    requires v.selfRow.Some?
    ensures ReadStatus(v) == Some(FoundStatus(SelfAttrs(v.selfRow.value)))
    ensures Found(SelfAttrs(v.selfRow.value), "name") == Handle(v.selfRow.value.name)
  {
    var row := v.selfRow.value;
    var attrs := SelfAttrs(row);
    TagOf(v);
    SelfKeys(row);
    assert attrs[0] == Attribute("name", Handle(row.name));
    assert Found(attrs, "name") == Handle(row.name);
    hide SelfAttrs, Found, SelfTag, WriteAttrs, WordKey, Write, Doc;
    StatusOfTag(Write(Doc(v)), attrs);
  }

  /** No overrun in front of the key, or one that happens to spell the value. */
  ghost predicate Clear(attrs: seq<Attribute>, key: string, value: string) {
    Overrun(attrs, key).None? || Overrun(attrs, key) == Some(value)
  }

  ghost predicate Recoverable(row: SelfRow) {
    var attrs := SelfAttrs(row);
    && Clear(attrs, "workspace", row.workspace) && Clear(attrs, "title", row.title)
    && (row.unhosted ==> Overrun(attrs, "unhosted").None?)
    && (row.headless ==> Overrun(attrs, "headless").None?)
  }

  /** The status the row stands for. */
  ghost function StatusIn(row: SelfRow): SessionStatus {
    SessionStatus(Handle(row.name), row.workspace, row.title, row.unhosted, row.headless)
  }

  /** The printed self row reads back exactly, unless some value printed before a set field ends in that field's
      key and '=', which is precisely when the field is lost. */
  lemma StatusReadsBackExactly(v: FabricView)
    requires v.selfRow.Some?
    ensures ReadStatus(v) == Some(StatusIn(v.selfRow.value)) <==> Recoverable(v.selfRow.value)
  {
    var row := v.selfRow.value;
    var attrs := SelfAttrs(row);
    StatusOf(v);
    SelfKeys(row);
    SelfValues(row);
    OverrunPlain(attrs, "unhosted");
    OverrunPlain(attrs, "headless");
    hide SelfAttrs, ReadStatus, Overrun, ValueOf, WordKey;
  }

  lemma {:induction false} NoOverrun(attrs: seq<Attribute>, key: string)
    requires forall i | 0 <= i < |attrs| :: !EndsIn(attrs[i].value, key)
    ensures Overrun(attrs, key).None?
  {
    if attrs != [] {
      hide EndsIn;
      assert forall i | 0 <= i < |attrs[1..]| :: attrs[1..][i] == attrs[i + 1];
      NoOverrun(attrs[1..], key);
    }
  }

  ghost predicate NeverEndsIn(row: SelfRow, key: string) {
    && !EndsIn(Handle(row.name), key) && !EndsIn(row.host, key) && !EndsIn(row.workspace, key)
    && !EndsIn(row.branch, key) && !EndsIn(row.title, key)
  }

  lemma SelfNoOverrun(row: SelfRow, key: string)
    requires NeverEndsIn(row, key)
    ensures Overrun(SelfAttrs(row), key).None?
  {
    assert !EndsIn("on", key) && !EndsIn("off", key) && !EndsIn("true", key) by {
      assert (key + "=")[|key|] == '=';
    }
    hide EndsIn, Handle;
    NoOverrun(SelfAttrs(row), key);
  }

  /** In particular a row none of whose values ends in a looked-up key and '=' is always recovered. */
  lemma StatusReadsBack(v: FabricView)
    requires v.selfRow.Some?
    requires NeverEndsIn(v.selfRow.value, "workspace") && NeverEndsIn(v.selfRow.value, "title")
    requires NeverEndsIn(v.selfRow.value, "unhosted") && NeverEndsIn(v.selfRow.value, "headless")
    ensures ReadStatus(v) == Some(StatusIn(v.selfRow.value))
  {
    var row := v.selfRow.value;
    hide NeverEndsIn, Overrun, SelfAttrs, ReadStatus;
    SelfNoOverrun(row, "workspace");
    SelfNoOverrun(row, "title");
    SelfNoOverrun(row, "unhosted");
    SelfNoOverrun(row, "headless");
    StatusReadsBackExactly(v);
  }

  lemma SelfStart(row: SelfRow)
    ensures |SelfAttrs(row)| > 2 && SelfAttrs(row)[0] == Attribute("name", Handle(row.name))
    ensures SelfAttrs(row)[1] == Attribute("host", row.host) && SelfAttrs(row)[2].key == "headless"
  {
    hide Handle, Opt;
  }

  /** A row that does not read back: its host ends in a looked-up key and '='. */
  lemma HostSwallowsTitle(v: FabricView)
    requires v.selfRow.Some? && v.selfRow.value.name == "a" && v.selfRow.value.host == "title="
    ensures ReadStatus(v).Some? && ReadStatus(v).value.title == " headless="
  {
    hide ReadStatus, SelfAttrs, Handle, Overrun, ValueOf;
    StatusOf(v);
    SelfStart(v.selfRow.value);
    OverrunSecond(SelfAttrs(v.selfRow.value));
  }

  lemma OverrunSecond(attrs: seq<Attribute>)
    requires |attrs| > 2 && attrs[0] == Attribute("name", Handle("a")) && attrs[1] == Attribute("host", "title=")
    ensures Overrun(attrs, "title") == Some(" " + attrs[2].key + "=")
  {
    assert !EndsIn(Handle("a"), "title");
    assert EndsIn("title=", "title") by { assert "title="[0..] == "title" + "="; }
    hide EndsIn;
    assert Overrun(attrs[1..], "title") == Some(" " + attrs[2].key + "=");
  }
}
