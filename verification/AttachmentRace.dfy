/** `event_directory` (`src/attachment_receive.rs`) called by many processes at once: every system call is one step, any
    process may crash between two of them, and steps interleave freely. */
module AttachmentRace {
  import opened Order
  import opened AttachmentStore

  /** Where a call stands: about to create its directory, about to read the marker of one that was there, about to
      create the marker, about to write it, or over. */
  datatype Phase = Trying | Checking | Made | Opened | Returned | Bailed

  datatype Proc = Proc(id: string, length: nat, phase: Phase) {
    function Place(): string
      requires length <= |id|
    {
      id[..length]
    }
  }

  /** `dirs` maps each directory to its marker: missing, or its contents, which are empty until written.
      `returned` records every id and directory a call came back with. */
  datatype State = State(dirs: map<string, Option<string>>, procs: map<nat, Proc>, returned: set<(string, string)>)

  datatype Label =
    | Begin(p: nat, id: string)
    | CreateDir(p: nat)
    | Check(p: nat)
    | OpenMarker(p: nat)
    | FillMarker(p: nat)
    | Crash(p: nat)

  predicate InPhase(s: State, p: nat, phase: Phase) {
    p in s.procs && s.procs[p].phase == phase && s.procs[p].length <= |s.procs[p].id|
  }

  predicate Enabled(s: State, l: Label) {
    match l
    case Begin(p, id) => p !in s.procs && id != ""
    case CreateDir(p) => InPhase(s, p, Trying)
    case Check(p) => InPhase(s, p, Checking)
    case OpenMarker(p) => InPhase(s, p, Made)
    case FillMarker(p) => InPhase(s, p, Opened)
    case Crash(p) => p in s.procs
  }

  function Return(s: State, p: nat): State
    requires p in s.procs && s.procs[p].length <= |s.procs[p].id|
  {
    s.(procs := s.procs[p := s.procs[p].(phase := Returned)],
       returned := s.returned + {(s.procs[p].id, s.procs[p].Place())})
  }

  function Step(s: State, l: Label): State
    requires Enabled(s, l)
  {
    match l
    case Begin(p, id) => s.(procs := s.procs[p := Proc(id, First(id), Trying)])
    case CreateDir(p) =>
      var d := s.procs[p].Place();
      if d in s.dirs then s.(procs := s.procs[p := s.procs[p].(phase := Checking)])
      else s.(dirs := s.dirs[d := None], procs := s.procs[p := s.procs[p].(phase := Made)])
    case Check(p) =>
      var c := s.procs[p];
      if c.Place() in s.dirs && s.dirs[c.Place()] == Some(c.id) then Return(s, p)
      else if c.length < |c.id| then s.(procs := s.procs[p := Proc(c.id, c.length + 1, Trying)])
      else s.(procs := s.procs[p := c.(phase := Bailed)])
    case OpenMarker(p) =>
      var d := s.procs[p].Place();
      if d in s.dirs && s.dirs[d].Some? then Return(s, p)
      else s.(dirs := s.dirs[d := Some("")], procs := s.procs[p := s.procs[p].(phase := Opened)])
    case FillMarker(p) => Return(s.(dirs := s.dirs[s.procs[p].Place() := Some(s.procs[p].id)]), p)
    case Crash(p) => s.(procs := s.procs - {p})
  }

  /** Runs, and where they end. */
  predicate Runs(s: State, ls: seq<Label>)
    decreases |ls|
  {
    ls == [] || (Enabled(s, ls[0]) && Runs(Step(s, ls[0]), ls[1..]))
  }

  function End(s: State, ls: seq<Label>): State
    requires Runs(s, ls)
    decreases |ls|
  {
    if ls == [] then s else End(Step(s, ls[0]), ls[1..])
  }

  const INITIAL := State(map[], map[], {})

  // -------------------------------------------------------------------------------- invariant

  predicate Owner(c: Proc) { c.phase == Made || c.phase == Opened }

  ghost predicate ProcFits(s: State, c: Proc) {
    && c.id != "" && First(c.id) <= c.length <= |c.id|
    && (c.phase == Made ==> c.Place() in s.dirs && s.dirs[c.Place()] == None)
    && (c.phase == Opened ==> c.Place() in s.dirs && s.dirs[c.Place()] == Some(""))
  }

  ghost predicate Inv(s: State) {
    && (forall p | p in s.procs :: ProcFits(s, s.procs[p]))
    && (forall p, q | p in s.procs && q in s.procs && p != q && Owner(s.procs[p]) && Owner(s.procs[q]) ::
          s.procs[p].Place() != s.procs[q].Place())
    && (forall d | d in s.dirs :: MarkerFits(d, s.dirs[d]))
    && (forall r | r in s.returned :: r.0 != "" && r.1 in s.dirs && s.dirs[r.1] == Some(r.0))
  }

  ghost predicate MarkerFits(d: string, marker: Option<string>) {
    marker.Some? && marker.value != "" ==> d <= marker.value && First(marker.value) <= |d|
  }

  /** Finished markers stay, and directories never go away. */
  ghost predicate Stays(a: State, b: State) {
    && (forall d | d in a.dirs :: d in b.dirs)
    && (forall d | d in a.dirs && a.dirs[d].Some? && a.dirs[d].value != "" :: b.dirs[d] == a.dirs[d])
    && a.returned <= b.returned
  }

  lemma CreateKeeps(s: State, p: nat)
    requires Inv(s) && Enabled(s, CreateDir(p))
    ensures Inv(Step(s, CreateDir(p))) && Stays(s, Step(s, CreateDir(p)))
  {
    hide First;
  }

  lemma CheckKeeps(s: State, p: nat)
    requires Inv(s) && Enabled(s, Check(p))
    ensures Inv(Step(s, Check(p))) && Stays(s, Step(s, Check(p)))
  {
    hide First;
  }

  lemma OpenKeeps(s: State, p: nat)
    requires Inv(s) && Enabled(s, OpenMarker(p))
    ensures Inv(Step(s, OpenMarker(p))) && Stays(s, Step(s, OpenMarker(p)))
  {
    hide First;
    assert ProcFits(s, s.procs[p]);
  }

  lemma FillKeeps(s: State, p: nat)
    requires Inv(s) && Enabled(s, FillMarker(p))
    ensures Inv(Step(s, FillMarker(p))) && Stays(s, Step(s, FillMarker(p)))
  {
    hide First;
    assert ProcFits(s, s.procs[p]);
  }

  lemma StepKeeps(s: State, l: Label)
    requires Inv(s) && Enabled(s, l)
    ensures Inv(Step(s, l)) && Stays(s, Step(s, l))
  {
    match l {
      case CreateDir(p) => CreateKeeps(s, p);
      case Check(p) => CheckKeeps(s, p);
      case OpenMarker(p) => OpenKeeps(s, p);
      case FillMarker(p) => FillKeeps(s, p);
      case Begin(_, _) =>
      case Crash(_) =>
    }
  }

  lemma {:induction false} RunKeeps(s: State, ls: seq<Label>)
    requires Inv(s) && Runs(s, ls)
    ensures Inv(End(s, ls)) && Stays(s, End(s, ls))
    decreases |ls|
  {
    if ls != [] {
      StepKeeps(s, ls[0]);
      hide Inv, Step;
      RunKeeps(Step(s, ls[0]), ls[1..]);
    }
  }

  // ------------------------------------------------------------------------------ main results

  /** However calls interleave and crash, no directory is returned for two ids, and one that was returned carries its
      id for good: in every later state too. */
  lemma OneOwnerPerDirectory(before: seq<Label>, after: seq<Label>, d: string, i: string, j: string)
    requires Runs(INITIAL, before) && Runs(End(INITIAL, before), after)
    requires (i, d) in End(INITIAL, before).returned && (j, d) in End(End(INITIAL, before), after).returned
    ensures i == j && d <= i
    ensures var t := End(End(INITIAL, before), after); d in t.dirs && t.dirs[d] == Some(i)
  {
    var s := End(INITIAL, before);
    assert Inv(INITIAL);
    RunKeeps(INITIAL, before);
    RunKeeps(s, after);
    hide End, Runs;
    var t := End(s, after);
    assert (i, d) in t.returned && t.dirs[d] == Some(i) && t.dirs[d] == Some(j);
    assert MarkerFits(d, t.dirs[d]);
  }

  /** A written marker is never written again, and names an id its directory is an eligible prefix of. */
  lemma MarkersAreFinal(before: seq<Label>, after: seq<Label>, d: string, m: string)
    requires Runs(INITIAL, before) && Runs(End(INITIAL, before), after) && m != ""
    requires d in End(INITIAL, before).dirs && End(INITIAL, before).dirs[d] == Some(m)
    ensures d <= m && First(m) <= |d|
    ensures d in End(End(INITIAL, before), after).dirs && End(End(INITIAL, before), after).dirs[d] == Some(m)
  {
    assert Inv(INITIAL);
    RunKeeps(INITIAL, before);
    RunKeeps(End(INITIAL, before), after);
    assert MarkerFits(d, End(INITIAL, before).dirs[d]);
  }

  // ------------------------------------------------------------------------------- calls end

  /** How many more steps of its own a call can take. */
  function Remaining(c: Proc): nat
    requires c.length <= |c.id|
  {
    var own := match c.phase case Trying => 3 case Checking => 1 case Made => 2 case Opened => 1 case _ => 0;
    3 * (|c.id| - c.length) + own
  }

  predicate Of(l: Label, p: nat) {
    match l
    case Begin(_, _) => false
    case Crash(_) => false
    case _ => l.p == p
  }

  predicate Renews(l: Label, p: nat) { (l.Begin? || l.Crash?) && l.p == p }

  function CountOf(ls: seq<Label>, p: nat): nat {
    if ls == [] then 0 else (if Of(ls[0], p) then 1 else 0) + CountOf(ls[1..], p)
  }

  lemma StepUses(s: State, l: Label, p: nat)
    requires Inv(s) && Enabled(s, l) && p in s.procs && !Renews(l, p)
    ensures p in Step(s, l).procs && s.procs[p].length <= |s.procs[p].id|
    ensures Step(s, l).procs[p].length <= |Step(s, l).procs[p].id|
    ensures Remaining(Step(s, l).procs[p]) + (if Of(l, p) then 1 else 0) <= Remaining(s.procs[p])
  {
    hide First;
    assert ProcFits(s, s.procs[p]);
  }

  /** Calls do not wait for each other: whatever others do, a call ends within a bounded number of its own steps. */
  lemma {:induction false} CallsEnd(s: State, ls: seq<Label>, p: nat)
    requires Inv(s) && Runs(s, ls) && p in s.procs && forall i | 0 <= i < |ls| :: !Renews(ls[i], p)
    ensures s.procs[p].length <= |s.procs[p].id|
    ensures CountOf(ls, p) <= Remaining(s.procs[p])
    decreases |ls|
  {
    assert ProcFits(s, s.procs[p]);
    if ls != [] {
      StepUses(s, ls[0], p);
      StepKeeps(s, ls[0]);
      hide Inv, Step, Remaining, Of, Renews;
      CallsEnd(Step(s, ls[0]), ls[1..], p);
    }
  }

  // -------------------------------------------------------------------------- one call alone

  /** The directories of a tree with their markers. */
  function MarkersOf(tree: Tree): map<string, Option<string>> { map d | d in tree :: MarkerOf(tree[d]) }

  lemma {:induction false} RunThen(s: State, a: seq<Label>, b: seq<Label>)
    requires Runs(s, a) && Runs(End(s, a), b)
    ensures Runs(s, a + b) && End(s, a + b) == End(End(s, a), b)
    decreases |a|
  {
    hide Step, Enabled;
    if a == [] {
      assert a + b == b;
    } else {
      assert (a + b)[0] == a[0] && (a + b)[1..] == a[1..] + b;
      RunThen(Step(s, a[0]), a[1..], b);
    }
  }

  lemma OneLabel(s: State, a: Label)
    requires Enabled(s, a)
    ensures Runs(s, [a]) && End(s, [a]) == Step(s, a)
  {
    hide Step, Enabled;
    assert [a][1..] == [];
    assert Runs(Step(s, a), []) && End(s, [a]) == End(Step(s, a), []);
  }

  lemma TwoLabels(s: State, a: Label, b: Label)
    requires Enabled(s, a) && Enabled(Step(s, a), b)
    ensures Runs(s, [a, b]) && End(s, [a, b]) == Step(Step(s, a), b)
  {
    hide Step, Enabled;
    OneLabel(Step(s, a), b);
    assert [a, b][1..] == [b];
    assert End(s, [a, b]) == End(Step(s, a), [b]);
  }

  /** A prefix that is free: the call creates and marks it. */
  lemma TakesFree(s: State, p: nat) returns (run: seq<Label>)
    requires InPhase(s, p, Trying) && s.procs[p].Place() !in s.dirs
    ensures Runs(s, run)
    ensures var c := s.procs[p];
            End(s, run) == State(s.dirs[c.Place() := Some(c.id)], s.procs[p := c.(phase := Returned)],
                                 s.returned + {(c.id, c.Place())})
  {
    var c := s.procs[p];
    var s1 := Step(s, CreateDir(p));
    TwoLabels(s, CreateDir(p), OpenMarker(p));
    var s2 := Step(s1, OpenMarker(p));
    assert s2 == State(s.dirs[c.Place() := Some("")], s.procs[p := c.(phase := Opened)], s.returned);
    OneLabel(s2, FillMarker(p));
    run := [CreateDir(p), OpenMarker(p)] + [FillMarker(p)];
    hide Runs, End;
    RunThen(s, [CreateDir(p), OpenMarker(p)], [FillMarker(p)]);
  }

  /** A prefix that is there: the call reads its marker. */
  lemma ReadsTaken(s: State, p: nat) returns (run: seq<Label>)
    requires InPhase(s, p, Trying) && s.procs[p].Place() in s.dirs
    ensures Runs(s, run)
    ensures var c := s.procs[p];
            End(s, run)
            == if s.dirs[c.Place()] == Some(c.id)
               then State(s.dirs, s.procs[p := c.(phase := Returned)], s.returned + {(c.id, c.Place())})
               else if c.length < |c.id| then s.(procs := s.procs[p := Proc(c.id, c.length + 1, Trying)])
               else s.(procs := s.procs[p := c.(phase := Bailed)])
  {
    run := [CreateDir(p), Check(p)];
    TwoLabels(s, CreateDir(p), Check(p));
    hide Runs, End;
  }

  /** A call that nobody interferes with ends as the one-at-a-time model says: it comes back with the directory
      `Locate` names, having marked it if it was free, or fails where that reports a collision. */
  lemma AloneAsLocated(tree: Tree, s: State, p: nat) returns (run: seq<Label>)
    requires s.dirs == MarkersOf(tree) && InPhase(s, p, Trying)
    requires s.procs[p].id != "" && s.procs[p].length == First(s.procs[p].id)
    ensures Runs(s, run)
    ensures var id, t := s.procs[p].id, End(s, run);
            && t.dirs == MarkersOf(Allocated(tree, id)) && p in t.procs
            && match Locate(tree, id)
               case At(d) => t.procs[p].phase == Returned && t.returned == s.returned + {(id, d)}
               case _ => t.procs[p].phase == Bailed && t.returned == s.returned
  {
    var id := s.procs[p].id;
    run := AloneFrom(tree, s, p);
    hide AttachmentStore.Slot, Runs, End, MarkerOf;
    if Locate(tree, id).At? && Locate(tree, id).path !in tree { MarkedNow(tree, Locate(tree, id).path, id); }
  }

  lemma MarkedNow(tree: Tree, d: string, id: string)
    ensures MarkersOf(tree[d := map[MARKER := File(id)]]) == MarkersOf(tree)[d := Some(id)]
  {
  }

  lemma {:induction false} AloneFrom(tree: Tree, s: State, p: nat) returns (run: seq<Label>)
    requires s.dirs == MarkersOf(tree) && InPhase(s, p, Trying)
    ensures Runs(s, run)
    ensures var id, t := s.procs[p].id, End(s, run);
            var n := Slot(tree, id, s.procs[p].length);
            && p in t.procs && t.procs == s.procs[p := t.procs[p]]
            && (n > |id| ==> t.dirs == s.dirs && t.procs[p].phase == Bailed && t.returned == s.returned)
            && (n <= |id| ==> t.procs[p].phase == Returned && t.returned == s.returned + {(id, id[..n])}
                              && t.dirs == if id[..n] in tree then s.dirs else s.dirs[id[..n] := Some(id)])
    decreases |s.procs[p].id| - s.procs[p].length
  {
    var c := s.procs[p];
    hide Runs, End, Step, Enabled, MarkerOf;
    if c.Place() !in s.dirs {
      run := TakesFree(s, p);
    } else {
      run := ReadsTaken(s, p);
      if s.dirs[c.Place()] != Some(c.id) && c.length < |c.id| {
        var rest := AloneFrom(tree, End(s, run), p);
        RunThen(s, run, rest);
        run := run + rest;
      }
    }
  }
}
