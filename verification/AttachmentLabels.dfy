/** Attachment labels (`src/attachment_contract.rs`): which relative paths may share one event directory. */
module AttachmentLabels {
  import opened Order
  import opened Chars

  const EVENT_MARKER := ".event-id"

  // ------------------------------------------------------------------------------ paths

  datatype Component = RootDir | CurDir | ParentDir | Normal(name: string) {
    function Text(): string {
      match this
      case RootDir => "/"
      case CurDir => "."
      case ParentDir => ".."
      case Normal(name) => name
    }
  }

  /** What a later piece contributes: empty pieces and "." vanish. */
  function Piece(segment: string): seq<Component> {
    if segment == "" || segment == "." then [] else if segment == ".." then [ParentDir] else [Normal(segment)]
  }

  function Pieces(segments: seq<string>): seq<Component> {
    if segments == [] then [] else Piece(segments[0]) + Pieces(segments[1..])
  }

  /** `Path::components`: a "." survives only in front. */
  function Components(path: string): seq<Component> {
    var segments := Segments(path);
    if path != "" && path[0] == '/' then [RootDir] + Pieces(segments)
    else if segments[0] == "." then [CurDir] + Pieces(segments[1..])
    else Pieces(segments)
  }

  function Names(components: seq<Component>): seq<string> {
    if components == [] then [] else [components[0].Text()] + Names(components[1..])
  }

  function LowerChar(c: char): char { if 'A' <= c <= 'Z' then c - 'A' + 'a' else c }

  function Lower(s: string): string { seq(|s|, i requires 0 <= i < |s| => LowerChar(s[i])) }

  function LowerAll(names: seq<string>): seq<string> { seq(|names|, i requires 0 <= i < |names| => Lower(names[i])) }

  /** The path a label names, and the form in which labels are compared. */
  function PathOf(text: string): seq<string> { Names(Components(text)) }

  function Normalized(text: string): seq<string> { LowerAll(PathOf(text)) }

  predicate Overlaps(left: string, right: string) {
    Normalized(right) <= Normalized(left) || Normalized(left) <= Normalized(right)
  }

  // ------------------------------------------------------------------------- validation

  datatype LabelError =
    | EmptyLabel
    | UnsafeCharacter
    | UnsafePath
    | ReservedComponent
    | Duplicate(name: string)
    | WouldOverwrite(earlier: string, name: string)

  predicate IsControl(c: char) { c as int < 0x20 || 0x7F <= c as int < 0xA0 }

  predicate UnsafeChar(c: char) { IsControl(c) || c == '[' || c == ']' || c == '\\' }

  function ValidateLabel(text: string): (r: Option<LabelError>)
    ensures r.None? ==> PathOf(text) != [] && Lower(PathOf(text)[0]) != EVENT_MARKER
  {
    var components := Components(text);
    if text == "" then Some(EmptyLabel)
    else if text[|text| - 1] == '/' || exists i | 0 <= i < |text| :: UnsafeChar(text[i]) then Some(UnsafeCharacter)
    else if exists i | 0 <= i < |components| :: !components[i].Normal? then Some(UnsafePath)
    else
      SomeComponent(text);
      if Lower(components[0].name) == EVENT_MARKER then Some(ReservedComponent) else None
  }

  lemma {:induction false} SomeComponent(text: string)
    requires text != ""
    ensures Components(text) != []
  {
    var segments := Segments(text);
    if text[0] != '/' && segments[0] != "." { assert Piece(segments[0]) != []; }
  }

  // ------------------------------------------------------------- which labels are accepted

  /** A control character (U+0000 to U+001F, U+007F to U+009F), a bracket or a backslash. */
  ghost predicate HasUnsafe(text: string) {
    exists c :: c in text && (c < ' ' || '\U{7F}' <= c <= '\U{9F}' || c in "[]\\")
  }

  /** The marker's name in any case. */
  ghost predicate SpellsMarker(s: string) {
    && |s| == |EVENT_MARKER|
    && forall i | 0 <= i < |s| ::
         s[i] == EVENT_MARKER[i] || ('A' <= s[i] <= 'Z' && s[i] as int + 32 == EVENT_MARKER[i] as int)
  }

  /** The label stays below the directory it is joined to, piece by piece. */
  ghost predicate Inside(text: string) {
    (text == "" || text[0] != '/') && Segments(text)[0] != "." && ".." !in Segments(text)
  }

  /** The pieces of a path that name something. */
  function Named(segments: seq<string>): seq<string> {
    if segments == [] then []
    else (if segments[0] == "" || segments[0] == "." then [] else [segments[0]]) + Named(segments[1..])
  }

  predicate AllNormal(components: seq<Component>) { forall i | 0 <= i < |components| :: components[i].Normal? }

  lemma NormalFirst(first: Component, rest: seq<Component>)
    ensures AllNormal([first] + rest) <==> first.Normal? && AllNormal(rest)
    ensures Names([first] + rest) == [first.Text()] + Names(rest)
  {
    var all := [first] + rest;
    assert all[1..] == rest && all[0] == first;
    if AllNormal(all) { assert forall i | 0 <= i < |rest| :: rest[i] == all[i + 1]; }
  }

  lemma {:induction false} PiecesAre(segments: seq<string>)
    ensures AllNormal(Pieces(segments)) <==> ".." !in segments
    ensures ".." !in segments ==> Names(Pieces(segments)) == Named(segments)
  {
    if segments != [] {
      var segment, rest := segments[0], segments[1..];
      PiecesAre(rest);
      assert segments == [segment] + rest;
      if segment != "" && segment != "." {
        NormalFirst(Piece(segment)[0], Pieces(rest));
        assert Pieces(segments) == [Piece(segment)[0]] + Pieces(rest);
      } else {
        assert Pieces(segments) == Pieces(rest) && Named(segments) == Named(rest);
      }
    }
  }

  lemma FirstSegment(text: string)
    requires text != "" && text[0] != '/'
    ensures Segments(text)[0] != ""
  {
  }

  lemma UnsafeIs(text: string)
    ensures HasUnsafe(text) <==> exists i | 0 <= i < |text| :: UnsafeChar(text[i])
  {
    if HasUnsafe(text) {
      var c :| c in text && (c < ' ' || '\U{7F}' <= c <= '\U{9F}' || c in "[]\\");
      var i :| 0 <= i < |text| && text[i] == c;
      assert UnsafeChar(text[i]);
    }
    if i :| 0 <= i < |text| && UnsafeChar(text[i]) {
      assert text[i] in text;
    }
  }

  lemma MarkerIs(s: string)
    ensures SpellsMarker(s) <==> Lower(s) == EVENT_MARKER
  {
    if |s| == |EVENT_MARKER| {
      forall i | 0 <= i < |s|
        ensures LowerChar(s[i]) == EVENT_MARKER[i] <==>
                s[i] == EVENT_MARKER[i] || ('A' <= s[i] <= 'Z' && s[i] as int + 32 == EVENT_MARKER[i] as int)
      {
        assert !('A' <= EVENT_MARKER[i] <= 'Z');
      }
      assert forall i | 0 <= i < |s| :: Lower(s)[i] == LowerChar(s[i]);
    }
  }

  /** The components of a label that is not empty. */
  lemma ComponentsAre(text: string)
    requires text != ""
    ensures AllNormal(Components(text)) <==> Inside(text)
    ensures Inside(text) ==> PathOf(text) == Named(Segments(text))
    ensures Inside(text) ==> PathOf(text) != [] && PathOf(text)[0] == Segments(text)[0]
  {
    var segments := Segments(text);
    PiecesAre(segments);
    assert segments == [segments[0]] + segments[1..];
    if text[0] == '/' {
      NormalFirst(RootDir, Pieces(segments));
    } else {
      FirstSegment(text);
      if segments[0] == "." { NormalFirst(CurDir, Pieces(segments[1..])); }
    }
  }

  lemma ValidateSteps(text: string)
    requires text != ""
    ensures Components(text) != []
    ensures ValidateLabel(text)
            == if text[|text| - 1] == '/' || exists i | 0 <= i < |text| :: UnsafeChar(text[i])
            then Some(UnsafeCharacter)
               else if !AllNormal(Components(text)) then Some(UnsafePath)
               else if Lower(Components(text)[0].Text()) == EVENT_MARKER then Some(ReservedComponent)
               else None
  {
    SomeComponent(text);
    hide UnsafeChar, Components, Lower;
  }

  /** Which labels are accepted, and the first reason why another one is not. */
  lemma LabelsExactly(text: string)
    ensures ValidateLabel(text)
            == if text == "" then Some(EmptyLabel)
               else if text[|text| - 1] == '/' || HasUnsafe(text) then Some(UnsafeCharacter)
               else if !Inside(text) then Some(UnsafePath)
               else if SpellsMarker(Segments(text)[0]) then Some(ReservedComponent)
               else None
  {
    if text != "" {
      UnsafeIs(text);
      MarkerIs(Segments(text)[0]);
      ComponentsAre(text);
      ValidateSteps(text);
      assert PathOf(text)[0] == Components(text)[0].Text();
      hide *;
    }
  }

  /** An accepted label names exactly its own pieces, so it leads nowhere but down: none of them is empty, "." or "..",
      and none has a '/'. */
  lemma AcceptedStaysInside(text: string)
    requires ValidateLabel(text).None?
    ensures PathOf(text) == Named(Segments(text)) && PathOf(text) != []
    ensures forall piece | piece in PathOf(text) ::
              piece != "" && piece != "." && piece != ".." && '/' !in piece && piece in Segments(text)
  {
    LabelsExactly(text);
    ComponentsAre(text);
    NamedPieces(Segments(text));
    SegmentsAreSlashFree(text);
  }

  lemma {:induction false} NamedPieces(segments: seq<string>)
    ensures forall piece | piece in Named(segments) :: piece != "" && piece != "." && piece in segments
  {
    if segments != [] { NamedPieces(segments[1..]); }
  }

  /** The first reason the label at `i` cannot join the earlier ones, looking at those from `j` on. */
  function Clash(labels: seq<string>, i: nat, j: nat): Option<LabelError>
    requires j <= i < |labels|
    decreases i - j
  {
    if j == i then None
    else if Normalized(labels[i]) == Normalized(labels[j]) then Some(Duplicate(labels[i]))
    else if Overlaps(labels[i], labels[j]) then Some(WouldOverwrite(labels[j], labels[i]))
    else Clash(labels, i, j + 1)
  }

  function Problem(labels: seq<string>, i: nat): Option<LabelError>
    requires i < |labels|
  {
    if ValidateLabel(labels[i]).Some? then ValidateLabel(labels[i]) else Clash(labels, i, 0)
  }

  /** The first problem from label `i` on. */
  function FirstProblem(labels: seq<string>, i: nat): Option<LabelError>
    requires i <= |labels|
    decreases |labels| - i
  {
    if i == |labels| then None else if Problem(labels, i).Some? then Problem(labels, i) else FirstProblem(labels, i + 1)
  }

  method ValidateLabels(labels: seq<string>) returns (r: Option<LabelError>)
    ensures r == FirstProblem(labels, 0)
    ensures r.None? <==> Acceptable(labels)
  {
    var i := 0;
    ProblemFree(labels);
    hide Acceptable, ValidateLabel, Overlaps, Normalized;
    while i < |labels|
      invariant 0 <= i <= |labels| && FirstProblem(labels, 0) == FirstProblem(labels, i)
    {
      var own := ValidateLabel(labels[i]);
      if own.Some? { return own; }
      var j := 0;
      while j < i
        invariant 0 <= j <= i && Clash(labels, i, 0) == Clash(labels, i, j)
      {
        if Normalized(labels[i]) == Normalized(labels[j]) { return Some(Duplicate(labels[i])); }
        if Overlaps(labels[i], labels[j]) { return Some(WouldOverwrite(labels[j], labels[i])); }
        j := j + 1;
      }
      i := i + 1;
    }
    return None;
  }

  // ----------------------------------------------------------------- what acceptance means

  /** Every label is safe, and no two of them, compared without case, are equal or nested. */
  ghost predicate Acceptable(labels: seq<string>) {
    && (forall i | 0 <= i < |labels| :: ValidateLabel(labels[i]).None?)
    && (forall i, j | 0 <= i < j < |labels| :: !Overlaps(labels[i], labels[j]))
  }

  lemma OverlapsBothWays(a: string, b: string)
    ensures Overlaps(a, b) == Overlaps(b, a)
    ensures Normalized(a) == Normalized(b) ==> Overlaps(a, b)
  {
  }

  lemma {:induction false} ClashFree(labels: seq<string>, i: nat, j: nat)
    requires j <= i < |labels|
    ensures Clash(labels, i, j).None? <==> forall k | j <= k < i :: !Overlaps(labels[k], labels[i])
    decreases i - j
  {
    hide Overlaps, Normalized;
    if j < i {
      ClashFree(labels, i, j + 1);
      OverlapsBothWays(labels[i], labels[j]);
    }
  }

  lemma {:induction false} NoProblem(labels: seq<string>, i: nat)
    requires i <= |labels|
    ensures FirstProblem(labels, i).None? <==> forall k | i <= k < |labels| :: Problem(labels, k).None?
    decreases |labels| - i
  {
    hide Problem;
    if i < |labels| { NoProblem(labels, i + 1); }
  }

  /** The checks in order refuse exactly the lists that are not acceptable. */
  lemma ProblemFree(labels: seq<string>)
    ensures FirstProblem(labels, 0).None? <==> Acceptable(labels)
  {
    NoProblem(labels, 0);
    hide Overlaps, ValidateLabel, FirstProblem, Clash;
    forall k | 0 <= k < |labels|
      ensures Problem(labels, k).None? <==>
                ValidateLabel(labels[k]).None? && forall j | 0 <= j < k :: !Overlaps(labels[j], labels[k])
    {
      ClashFree(labels, k, 0);
    }
  }

  /** Paths that cannot shadow each other: none is a prefix of another. */
  ghost predicate Incomparable(a: seq<string>, b: seq<string>) { !(a <= b) && !(b <= a) }

  lemma LowerPrefix(a: seq<string>, b: seq<string>)
    requires a <= b
    ensures LowerAll(a) <= LowerAll(b)
  {
    assert forall i | 0 <= i < |a| :: LowerAll(a)[i] == LowerAll(b)[i];
  }

  /** The same string up to the case of ASCII letters. */
  ghost predicate SameIgnoringCase(a: string, b: string) {
    |a| == |b| && forall i | 0 <= i < |a| :: SameLetter(a[i], b[i])
  }

  ghost predicate SameLetter(c: char, d: char) {
    || c == d
    || ('A' <= c <= 'Z' && d as int == c as int + 32)
    || ('A' <= d <= 'Z' && c as int == d as int + 32)
  }

  /** `a` names a directory above `b`, or the same file, if case does not count. */
  ghost predicate Above(a: seq<string>, b: seq<string>) {
    |a| <= |b| && forall i | 0 <= i < |a| :: SameIgnoringCase(a[i], b[i])
  }

  lemma LowerSame(a: string, b: string)
    ensures Lower(a) == Lower(b) <==> SameIgnoringCase(a, b)
  {
    assert forall c, d :: LowerChar(c) == LowerChar(d) <==> SameLetter(c, d);
    hide LowerChar, SameLetter;
    if Lower(a) == Lower(b) {
      assert |a| == |Lower(a)| == |b|;
      forall i | 0 <= i < |a| ensures SameLetter(a[i], b[i]) {
        assert Lower(a)[i] == LowerChar(a[i]) && Lower(b)[i] == LowerChar(b[i]);
      }
    }
  }

  lemma AbovePrefix(a: seq<string>, b: seq<string>)
    ensures LowerAll(a) <= LowerAll(b) <==> Above(a, b)
  {
    hide Lower, SameIgnoringCase;
    if |a| <= |b| {
      forall i | 0 <= i < |a| ensures LowerAll(a)[i] == LowerAll(b)[i] <==> SameIgnoringCase(a[i], b[i]) {
        LowerSame(a[i], b[i]);
      }
    }
  }

  /** Labels overlap exactly when one names a directory above the other, or the same file, case aside. */
  lemma OverlapsExactly(a: string, b: string)
    ensures Overlaps(a, b) <==> Above(PathOf(a), PathOf(b)) || Above(PathOf(b), PathOf(a))
  {
    AbovePrefix(PathOf(a), PathOf(b));
    AbovePrefix(PathOf(b), PathOf(a));
    hide PathOf, LowerAll, Above;
  }

  /** Accepted labels and the marker name paths that are pairwise incomparable, on a file system that folds case
      as on one that does not. */
  lemma AcceptedPathsApart(labels: seq<string>, i: nat, j: nat)
    requires Acceptable(labels) && i < |labels| && j < |labels|
    ensures i != j ==> Incomparable(Normalized(labels[i]), Normalized(labels[j]))
    ensures i != j ==> Incomparable(PathOf(labels[i]), PathOf(labels[j]))
    ensures Incomparable(Normalized(labels[i]), [EVENT_MARKER]) && Incomparable(PathOf(labels[i]), [EVENT_MARKER])
  {
    var a, b := labels[i], labels[j];
    hide ValidateLabel, PathOf, LowerAll;
    if i != j {
      assert !Overlaps(a, b) by { OverlapsBothWays(a, b); if i < j {} else { assert !Overlaps(b, a); } }
      if PathOf(a) <= PathOf(b) { LowerPrefix(PathOf(a), PathOf(b)); }
      if PathOf(b) <= PathOf(a) { LowerPrefix(PathOf(b), PathOf(a)); }
    }
    assert ValidateLabel(a).None?;
    MarkerApart(PathOf(a));
  }

  lemma MarkerApart(path: seq<string>)
    requires path != [] && Lower(path[0]) != EVENT_MARKER
    ensures Incomparable(LowerAll(path), [EVENT_MARKER]) && Incomparable(path, [EVENT_MARKER])
  {
    assert Lower(EVENT_MARKER) == EVENT_MARKER;
    assert LowerAll(path)[0] == Lower(path[0]) && LowerAll(path) != [];
  }

  // ------------------------------------------------------------------------------ try_push

  datatype ChatAttachment = ChatAttachment(url: string, name: string, sha256: string)

  function Labels(list: seq<ChatAttachment>): seq<string> {
    seq(|list|, i requires 0 <= i < |list| => list[i].name)
  }

  ghost predicate Collides(accepted: seq<ChatAttachment>, text: string) {
    exists i | 0 <= i < |accepted| :: Overlaps(text, accepted[i].name)
  }

  ghost predicate Admissible(web: string -> bool, accepted: seq<ChatAttachment>, candidate: ChatAttachment) {
    web(candidate.url) && ValidateLabel(candidate.name).None? && !Collides(accepted, candidate.name)
  }

  lemma OverlapsSelf(a: string)
    ensures Overlaps(a, a)
  {
  }

  /** The list a message's attachments are gathered in; `web` tells which strings are http or https URLs. */
  class Accepted {
    var items: seq<ChatAttachment>

    constructor ()
      ensures items == []
    {
      items := [];
    }

    method TryPush(web: string -> bool, candidate: ChatAttachment) returns (ok: bool)
      modifies this
      ensures ok <==> Admissible(web, old(items), candidate)
      ensures items == if ok then old(items) + [candidate] else old(items)
    {
      OverlapsSelf(candidate.name);
      hide Overlaps, ValidateLabel;
      var validUrl := web(candidate.url);
      var validLabel := ValidateLabel(candidate.name).None?;
      var collides := false;
      var i := 0;
      while i < |items|
        invariant 0 <= i <= |items|
        invariant collides <==> exists k | 0 <= k < i :: Overlaps(candidate.name, items[k].name)
      {
        if candidate.name == items[i].name || Overlaps(candidate.name, items[i].name) { collides := true; }
        i := i + 1;
      }
      if !validUrl || !validLabel || collides { return false; }
      items := items + [candidate];
      return true;
    }
  }

  /** What a run of pushes accepts. */
  ghost function Gathered(web: string -> bool, accepted: seq<ChatAttachment>,
                          candidates: seq<ChatAttachment>): seq<ChatAttachment>
    decreases |candidates|
  {
    if candidates == [] then accepted
    else
      Gathered(web, if Admissible(web, accepted, candidates[0]) then accepted + [candidates[0]] else accepted,
               candidates[1..])
  }

  /** Every list built by pushes passes `validate_attachments`: its labels are acceptable, its URLs are web URLs. */
  lemma {:induction false} GatheredIsValid(web: string -> bool, accepted: seq<ChatAttachment>,
                                           candidates: seq<ChatAttachment>)
    requires Acceptable(Labels(accepted)) && forall i | 0 <= i < |accepted| :: web(accepted[i].url)
    ensures var r := Gathered(web, accepted, candidates);
            Acceptable(Labels(r)) && forall i | 0 <= i < |r| :: web(r[i].url)
    decreases |candidates|
  {
    if candidates != [] {
      var c := candidates[0];
      if Admissible(web, accepted, c) {
        hide Overlaps, ValidateLabel;
        forall i | 0 <= i < |accepted| ensures !Overlaps(accepted[i].name, c.name) {
          OverlapsBothWays(accepted[i].name, c.name);
        }
        assert Labels(accepted + [c]) == Labels(accepted) + [c.name];
        GatheredIsValid(web, accepted + [c], candidates[1..]);
      } else {
        GatheredIsValid(web, accepted, candidates[1..]);
      }
    }
  }
}
