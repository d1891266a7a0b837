/** Channel state (`src/group_projection.rs`): groups by id, and the bounded walk to a channel's root. */
module Groups {
  import opened Order

  datatype Channel = Channel(name: string, about: string, parent: string, asOf: nat)

  datatype Group = Group(channel: Option<Channel>, admins: set<string>, members: set<string>)

  type Projection = map<string, Group>

  const MAX_CHANNEL_PARENT_DEPTH := 16

  predicate Known(g: Projection, h: string) { h in g && g[h].channel.Some? }

  function ChannelOf(g: Projection, h: string): Channel
    requires Known(g, h)
  {
    g[h].channel.value
  }

  /** `channel_parent`. */
  function Parent(g: Projection, h: string): Option<string> {
    if Known(g, h) then Some(ChannelOf(g, h).parent) else None
  }

  predicate IsRoot(g: Projection, h: string) { Parent(g, h) == Some("") }

  // ------------------------------------------------------------------------- walking to the root

  datatype RootResult = Root(id: string) | Unknown | Cycle(at: string) | TooDeep

  /** The channel `n` parent links above `h`, when every link starts at a known channel with a parent. */
  function Up(g: Projection, h: string, n: nat): Option<string> {
    if n == 0 then Some(h)
    else
      var below := Up(g, h, n - 1);
      if below.None? || !Known(g, below.value) || IsRoot(g, below.value) then None else Parent(g, below.value)
  }

  ghost predicate Distinct(g: Projection, h: string, n: nat) {
    forall i, j | 0 <= i < j < n :: Up(g, h, i) != Up(g, h, j)
  }

  /** What the walk from `h` is promised to answer. */
  ghost predicate Answers(g: Projection, h: string, r: RootResult) {
    match r
    case Root(id) => exists n | 0 <= n < MAX_CHANNEL_PARENT_DEPTH :: Up(g, h, n) == Some(id) && IsRoot(g, id)
    case Unknown => exists n | 0 <= n < MAX_CHANNEL_PARENT_DEPTH :: Up(g, h, n).Some? && !Known(g, Up(g, h, n).value)
    case Cycle(at) =>
      exists j | 0 <= j < MAX_CHANNEL_PARENT_DEPTH :: Up(g, h, j) == Some(at) && Distinct(g, h, j) && Again(g, h, j)
    case TooDeep => Up(g, h, MAX_CHANNEL_PARENT_DEPTH).Some? && Distinct(g, h, MAX_CHANNEL_PARENT_DEPTH)
  }

  /** The channel at `j` was passed before. */
  ghost predicate Again(g: Projection, h: string, j: nat) { exists i | 0 <= i < j :: Up(g, h, i) == Up(g, h, j) }

  method RootChannelOf(g: Projection, h: string) returns (r: RootResult)
    ensures Answers(g, h, r)
  {
    UpStep(g, h, 0);
    hide Up, Answers, Distinct, Again, Known;
    if !Known(g, h) {
      AnswersAt(g, h, 0);
      return Unknown;
    }
    var current, seen: set<string> := h, {};
    var i := 0;
    PassedStep(g, h, 0);
    while i < MAX_CHANNEL_PARENT_DEPTH
      invariant 0 <= i <= MAX_CHANNEL_PARENT_DEPTH
      invariant Up(g, h, i) == Some(current) && Distinct(g, h, i) && seen == Passed(g, h, i)
    {
      UpStep(g, h, i);
      AnswersAt(g, h, i);
      PassedStep(g, h, i);
      if current in seen { return Cycle(current); }
      seen := seen + {current};
      var parent := Parent(g, current);
      if parent.None? { return Unknown; }
      if parent.value == "" { return Root(current); }
      current := parent.value;
      i := i + 1;
    }
    AnswersAtLast(g, h);
    return TooDeep;
  }

  lemma UpStep(g: Projection, h: string, i: nat)
    ensures Up(g, h, 0) == Some(h)
    ensures Up(g, h, i).Some? && Known(g, Up(g, h, i).value) && !IsRoot(g, Up(g, h, i).value) ==>
              Up(g, h, i + 1) == Parent(g, Up(g, h, i).value)
  {
  }

  lemma AnswersAt(g: Projection, h: string, i: nat)
    requires i < MAX_CHANNEL_PARENT_DEPTH && Up(g, h, i).Some?
    ensures var x := Up(g, h, i).value;
            && (IsRoot(g, x) ==> Answers(g, h, Root(x)))
            && (!Known(g, x) ==> Answers(g, h, Unknown))
            && (Distinct(g, h, i) && Again(g, h, i) ==> Answers(g, h, Cycle(x)))
  {
  }

  lemma AnswersAtLast(g: Projection, h: string)
    requires Up(g, h, MAX_CHANNEL_PARENT_DEPTH).Some? && Distinct(g, h, MAX_CHANNEL_PARENT_DEPTH)
    ensures Answers(g, h, TooDeep)
  {
  }

  lemma PassedStep(g: Projection, h: string, i: nat)
    requires Up(g, h, i).Some? && Distinct(g, h, i)
    ensures Passed(g, h, 0) == {}
    ensures Passed(g, h, i + 1) == Passed(g, h, i) + {Up(g, h, i).value}
    ensures Up(g, h, i).value in Passed(g, h, i) <==> Again(g, h, i)
    ensures Distinct(g, h, i + 1) <==> !Again(g, h, i)
  {
  }

  lemma {:induction false} UpAbove(g: Projection, h: string, m: nat, n: nat)
    requires Up(g, h, m).Some?
    ensures Up(g, h, m + n) == Up(g, Up(g, h, m).value, n)
  {
    if n > 0 { UpAbove(g, h, m, n - 1); }
  }

  /** Where a walk ends, nothing is above. */
  lemma {:induction false} UpEnds(g: Projection, h: string, m: nat, n: nat)
    requires Up(g, h, m).Some? && (!Known(g, Up(g, h, m).value) || IsRoot(g, Up(g, h, m).value)) && m < n
    ensures Up(g, h, n).None?
  {
    if n > m + 1 { UpEnds(g, h, m, n - 1); }
  }

  lemma {:induction false} UpBelow(g: Projection, h: string, m: nat, n: nat)
    requires Up(g, h, n).Some? && m < n
    ensures Up(g, h, m).Some? && Known(g, Up(g, h, m).value)
  {
    if m < n - 1 { UpBelow(g, h, m, n - 1); }
  }

  lemma UpBelowSome(g: Projection, h: string, m: nat, n: nat)
    requires Up(g, h, n).Some? && m <= n
    ensures Up(g, h, m).Some?
  {
    if m < n { UpBelow(g, h, m, n); }
  }

  /** A walk that comes back never ends. */
  lemma {:induction false} CycleIsEndless(g: Projection, h: string, i: nat, j: nat, n: nat)
    requires i < j && Up(g, h, j).Some? && Up(g, h, i) == Up(g, h, j)
    ensures Up(g, h, n).Some? && Known(g, Up(g, h, n).value) && !IsRoot(g, Up(g, h, n).value)
    decreases n
  {
    if n < j {
      UpBelow(g, h, n, j);
      if IsRoot(g, Up(g, h, n).value) { UpEnds(g, h, n, j); }
    } else {
      CycleIsEndless(g, h, i, j, n - (j - i));
      UpAbove(g, h, i, n - j);
      UpAbove(g, h, j, n - j);
    }
  }

  /** Whatever the bound, a start that leads into a cycle is never answered with a root, nor as unknown. */
  lemma CyclesHaveNoRoot(g: Projection, h: string, i: nat, j: nat, r: RootResult)
    requires i < j && Up(g, h, j).Some? && Up(g, h, i) == Up(g, h, j) && Answers(g, h, r)
    ensures r.Cycle? || r.TooDeep?
  {
    if r.Root? || r.Unknown? {
      var n :| 0 <= n < MAX_CHANNEL_PARENT_DEPTH && Up(g, h, n).Some?
               && (!Known(g, Up(g, h, n).value) || IsRoot(g, Up(g, h, n).value));
      CycleIsEndless(g, h, i, j, n);
    }
  }

  /** At most one walk length ends. */
  lemma EndIsUnique(g: Projection, h: string, m: nat, n: nat)
    requires Up(g, h, m).Some? && (!Known(g, Up(g, h, m).value) || IsRoot(g, Up(g, h, m).value))
    requires Up(g, h, n).Some? && (!Known(g, Up(g, h, n).value) || IsRoot(g, Up(g, h, n).value))
    ensures m == n
  {
    if m < n { UpEnds(g, h, m, n); }
    if n < m { UpEnds(g, h, n, m); }
  }

  ghost predicate Ends(g: Projection, h: string) {
    exists n | 0 <= n < MAX_CHANNEL_PARENT_DEPTH ::
      Up(g, h, n).Some? && (!Known(g, Up(g, h, n).value) || IsRoot(g, Up(g, h, n).value))
  }

  lemma AnswerKinds(g: Projection, h: string, r: RootResult)
    requires Answers(g, h, r)
    ensures r.Root? || r.Unknown? <==> Ends(g, h)
    ensures r.TooDeep? ==> Distinct(g, h, MAX_CHANNEL_PARENT_DEPTH)
    ensures r.Cycle? ==> !Distinct(g, h, MAX_CHANNEL_PARENT_DEPTH)
  {
    if Ends(g, h) {
      var n :| 0 <= n < MAX_CHANNEL_PARENT_DEPTH && Up(g, h, n).Some?
               && (!Known(g, Up(g, h, n).value) || IsRoot(g, Up(g, h, n).value));
      if r.TooDeep? { UpEnds(g, h, n, MAX_CHANNEL_PARENT_DEPTH); }
      if r.Cycle? {
        var j :| 0 <= j < MAX_CHANNEL_PARENT_DEPTH && Up(g, h, j) == Some(r.at) && Again(g, h, j);
        var i :| 0 <= i < j && Up(g, h, i) == Up(g, h, j);
        CycleIsEndless(g, h, i, j, n);
      }
    }
  }

  /** The answer is exact: each case holds only of its own situation, so a root is answered if and only if at most 15
      links through known channels end at it, unknown if and only if they end at an unknown channel, and an error
      otherwise. */
  lemma AnswerIsUnique(g: Projection, h: string, a: RootResult, b: RootResult)
    requires Answers(g, h, a) && Answers(g, h, b)
    ensures a == b
  {
    AnswerKinds(g, h, a);
    AnswerKinds(g, h, b);
    hide Up, IsRoot, Known, Distinct;
    if Ends(g, h) {
      var m :| 0 <= m < MAX_CHANNEL_PARENT_DEPTH && Up(g, h, m).Some?
               && if a.Root? then Up(g, h, m) == Some(a.id) && IsRoot(g, a.id) else !Known(g, Up(g, h, m).value);
      var n :| 0 <= n < MAX_CHANNEL_PARENT_DEPTH && Up(g, h, n).Some?
               && if b.Root? then Up(g, h, n) == Some(b.id) && IsRoot(g, b.id) else !Known(g, Up(g, h, n).value);
      EndIsUnique(g, h, m, n);
      RootsAreKnown(g, Up(g, h, m).value);
    } else if a.Cycle? && b.Cycle? {
      SameCycle(g, h, a.at, b.at);
    }
  }

  lemma RootsAreKnown(g: Projection, h: string)
    ensures IsRoot(g, h) ==> Known(g, h)
  {
  }

  lemma NotAgain(g: Projection, h: string, k: nat, j: nat)
    requires k < j && Distinct(g, h, j)
    ensures !Again(g, h, k)
  {
  }

  lemma SameCycle(g: Projection, h: string, a: string, b: string)
    requires Answers(g, h, Cycle(a)) && Answers(g, h, Cycle(b))
    ensures a == b
  {
    hide Up;
    var j: nat :| 0 <= j < MAX_CHANNEL_PARENT_DEPTH && Up(g, h, j) == Some(a) && Distinct(g, h, j) && Again(g, h, j);
    var k: nat :| 0 <= k < MAX_CHANNEL_PARENT_DEPTH && Up(g, h, k) == Some(b) && Distinct(g, h, k) && Again(g, h, k);
    hide *;
    if j < k { NotAgain(g, h, j, k); }
    if k < j { NotAgain(g, h, k, j); }
  }

  // ---------------------------------------------------------------------------- the depth error

  ghost function Passed(g: Projection, h: string, n: nat): set<string> {
    set i | 0 <= i < n && Up(g, h, i).Some? :: Up(g, h, i).value
  }

  lemma {:induction false} PassedCount(g: Projection, h: string, n: nat)
    requires Distinct(g, h, n) && forall i | 0 <= i < n :: Up(g, h, i).Some?
    ensures |Passed(g, h, n)| == n
  {
    hide Up;
    if n == 0 {
      assert Passed(g, h, n) == {};
    } else {
      PassedCount(g, h, n - 1);
      PassedStep(g, h, n - 1);
      assert !Again(g, h, n - 1);
      hide Passed, Distinct;
    }
  }

  /** With fewer known channels than the bound, the depth error cannot come. */
  lemma FewChannelsAreNeverTooDeep(g: Projection, h: string, known: set<string>)
    requires (forall x :: x in known <==> Known(g, x)) && |known| < MAX_CHANNEL_PARENT_DEPTH
    ensures !Answers(g, h, TooDeep)
  {
    var n := MAX_CHANNEL_PARENT_DEPTH;
    if Answers(g, h, TooDeep) {
      forall i | 0 <= i < n ensures Up(g, h, i).Some? && Known(g, Up(g, h, i).value) { UpBelow(g, h, i, n); }
      PassedCount(g, h, n);
      SubsetSize(Passed(g, h, n), known);
    }
  }

  /** A channel and its parent have the same root. */
  lemma ParentSharesRoot(g: Projection, h: string, id: string)
    requires Answers(g, h, Root(id)) && h != id
    ensures Known(g, h) && Answers(g, ChannelOf(g, h).parent, Root(id))
  {
    var n :| 0 <= n < MAX_CHANNEL_PARENT_DEPTH && Up(g, h, n) == Some(id) && IsRoot(g, id);
    assert n > 0;
    UpBelow(g, h, 0, n);
    UpBelowSome(g, h, 1, n);
    assert Up(g, h, 1) == Some(ChannelOf(g, h).parent);
    UpAbove(g, h, 1, n - 1);
  }

  // ------------------------------------------------------------------------------------ members

  datatype ChannelMember = ChannelMember(channel: string, pubkey: string, role: string)

  function WithRole(h: string, pubkeys: seq<string>, role: string): seq<ChannelMember> {
    seq(|pubkeys|, i requires 0 <= i < |pubkeys| => ChannelMember(h, pubkeys[i], role))
  }

  function ListChannelMembers(g: Projection, h: string): seq<ChannelMember> {
    if h !in g then []
    else WithRole(h, Ascending(g[h].admins), "admin") + WithRole(h, Ascending(g[h].members - g[h].admins), "member")
  }

  lemma RolesListed(h: string, pubkeys: set<string>, role: string)
    ensures var list := WithRole(h, Ascending(pubkeys), role);
            && |list| == |pubkeys|
            && (forall i | 0 <= i < |list| :: list[i].channel == h && list[i].pubkey in pubkeys && list[i].role == role)
            && (forall p | p in pubkeys :: ChannelMember(h, p, role) in list)
            && forall i, j | 0 <= i < j < |list| :: list[i].pubkey != list[j].pubkey
  {
    var names := Ascending(pubkeys);
    hide Ascending;
    var list := WithRole(h, names, role);
    forall p | p in pubkeys ensures ChannelMember(h, p, role) in list {
      var i :| 0 <= i < |names| && names[i] == p;
      assert list[i] == ChannelMember(h, p, role);
    }
    forall i | 0 <= i < |list| ensures list[i].pubkey in pubkeys { assert names[i] in names; }
  }

  /** Everyone is listed, as an admin whenever the admin list has them. */
  lemma MembersAreListed(g: Projection, h: string, m: ChannelMember)
    requires h in g
    ensures m in ListChannelMembers(g, h) <==>
              m.channel == h && ((m.pubkey in g[h].admins && m.role == "admin")
                                 || (m.pubkey in g[h].members - g[h].admins && m.role == "member"))
  {
    var admins, rest := g[h].admins, g[h].members - g[h].admins;
    RolesListed(h, admins, "admin");
    RolesListed(h, rest, "member");
    hide WithRole, Ascending;
    var a, b := WithRole(h, Ascending(admins), "admin"), WithRole(h, Ascending(rest), "member");
    assert m in a + b <==> m in a || m in b;
  }

  lemma ApartTogether(a: seq<ChannelMember>, b: seq<ChannelMember>, i: nat, j: nat)
    requires i < j < |a + b|
    requires forall x, y | 0 <= x < y < |a| :: a[x].pubkey != a[y].pubkey
    requires forall x, y | 0 <= x < y < |b| :: b[x].pubkey != b[y].pubkey
    requires forall x, y | 0 <= x < |a| && 0 <= y < |b| :: a[x].pubkey != b[y].pubkey
    ensures (a + b)[i].pubkey != (a + b)[j].pubkey
  {
  }

  /** Nobody is listed twice. */
  lemma NobodyIsListedTwice(g: Projection, h: string, i: nat, j: nat)
    requires h in g && i < j < |ListChannelMembers(g, h)|
    ensures ListChannelMembers(g, h)[i].pubkey != ListChannelMembers(g, h)[j].pubkey
  {
    var admins, rest := g[h].admins, g[h].members - g[h].admins;
    RolesListed(h, admins, "admin");
    RolesListed(h, rest, "member");
    hide WithRole, Ascending;
    ApartTogether(WithRole(h, Ascending(admins), "admin"), WithRole(h, Ascending(rest), "member"), i, j);
  }

  lemma RolesInOrder(h: string, pubkeys: set<string>, role: string)
    ensures var list := WithRole(h, Ascending(pubkeys), role);
            forall i, j | 0 <= i < j < |list| :: StrLt(list[i].pubkey, list[j].pubkey)
  {
    AscendingSorted(pubkeys);
    hide StrLt;
  }

  /** Admins come first, and each of the two groups in pubkey order. */
  lemma MembersAreInOrder(g: Projection, h: string, i: nat, j: nat)
    requires i < j < |ListChannelMembers(g, h)|
    ensures var a, b := ListChannelMembers(g, h)[i], ListChannelMembers(g, h)[j];
            (a.role == "admin" && b.role == "member") || (a.role == b.role && StrLt(a.pubkey, b.pubkey))
  {
    var admins, rest := g[h].admins, g[h].members - g[h].admins;
    RolesInOrder(h, admins, "admin");
    RolesInOrder(h, rest, "member");
    RolesListed(h, admins, "admin");
    RolesListed(h, rest, "member");
    hide WithRole, Ascending, StrLt;
  }
}
