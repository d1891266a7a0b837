/** The reader of `integrations/pi/status.ts`: regular-expression lookups over the printed document. */
module Status {
  import opened Order

  // --------------------------------------------------------------------------- unescape

  /** `replaceAll`: leftmost occurrences, left to right. */
  function ReplaceAll(s: string, pattern: string, c: char): string
    requires pattern != ""
    decreases |s|
  {
    if s == "" then ""
    else if pattern <= s then [c] + ReplaceAll(s[|pattern|..], pattern, c)
    else [s[0]] + ReplaceAll(s[1..], pattern, c)
  }

  /** The five passes, in their order. */
  function Unescape(value: string): string {
    var a := ReplaceAll(value, "&quot;", '"');
    var b := ReplaceAll(a, "&apos;", '\'');
    var c := ReplaceAll(b, "&lt;", '<');
    var d := ReplaceAll(c, "&gt;", '>');
    ReplaceAll(d, "&amp;", '&')
  }

  // ----------------------------------------------------------------- regular expressions

  /** What `\w` matches. */
  predicate Word(c: char) { 'a' <= c <= 'z' || 'A' <= c <= 'Z' || '0' <= c <= '9' || c == '_' }

  function UpTo(s: string, c: char): (n: nat)
    ensures n <= |s| && c !in s[..n] && (n < |s| ==> s[n] == c)
  {
    if s == "" || s[0] == c then 0 else 1 + UpTo(s[1..], c)
  }

  /** `\bNAME="([^"]*)"` from here on, where `afterWord` tells whether a word character comes just before. */
  function Search(afterWord: bool, s: string, name: string): Option<string>
    decreases |s|
  {
    if s == "" then None
    else
      var opening := name + "=\"";
      if !afterWord && opening <= s && UpTo(s[|opening|..], '"') < |s| - |opening|
      then Some(s[|opening|..][..UpTo(s[|opening|..], '"')])
      else Search(Word(s[0]), s[1..], name)
  }

  /** `attr`: the first match, unescaped, or nothing. */
  function Find(source: string, name: string): string {
    match Search(false, source, name) case Some(value) => Unescape(value) case None => ""
  }

  /** `<self\b([^>]*)\/>`: the group of the first match. Since the group holds no '>', the match ends at the first
      '>' after the name, and needs a '/' just before it. */
  function SelfTag(s: string): Option<string>
    decreases |s|
  {
    if s == "" then None
    else
      var rest := if "<self" <= s then s[5..] else "";
      var n := UpTo(rest, '>');
      if "<self" <= s && (rest == "" || !Word(rest[0])) && 0 < n < |rest| && rest[n - 1] == '/'
      then Some(rest[..n - 1])
      else SelfTag(s[1..])
  }

  datatype SessionStatus = SessionStatus(name: string, workspace: string, title: string, unhosted: bool, headless: bool)

  function ParseSessionStatus(fabric: string): Option<SessionStatus> {
    match SelfTag(fabric)
    case None => None
    case Some(attrs) =>
      var name := Find(attrs, "name");
      if name == "" then None
      else Some(SessionStatus(name, Find(attrs, "workspace"), Find(attrs, "title"),
                              Find(attrs, "unhosted") == "true", Find(attrs, "headless") == "on"))
  }
}
