/** When one event id keeps one directory (`src/attachment_receive.rs`): always, if its calls take turns; for every
    schedule, only if the id has a single eligible prefix. */
module AttachmentTurns {
  import opened Order
  import opened AttachmentStore
  import opened AttachmentRace

  // --------------------------------------------------------------------- calls that take turns

  predicate Live(c: Proc) { c.phase != Returned && c.phase != Bailed }

  /** No call of an id begins while another one of it is under way; crashed calls are not. */
  ghost predicate InTurn(s: State, l: Label) {
    l.Begin? ==> forall q | q in s.procs && Live(s.procs[q]) :: s.procs[q].id != l.id
  }

  ghost predicate TakesTurns(s: State, ls: seq<Label>)
    requires Runs(s, ls)
    decreases |ls|
  {
    ls == [] || (InTurn(s, ls[0]) && TakesTurns(Step(s, ls[0]), ls[1..]))
  }

  /** Every eligible prefix of `id` shorter than `n` is there and not marked with it. */
  ghost predicate Passed(s: State, id: string, n: nat)
    requires n <= |id|
  {
    forall k | First(id) <= k < n :: id[..k] in s.dirs && s.dirs[id[..k]] != Some(id)
  }

  /** A call under way has passed the shorter prefixes, and one that checks a directory has seen it. */
  ghost predicate OnItsWay(s: State, c: Proc) {
    c.length <= |c.id| && Passed(s, c.id, c.length) && (c.phase == Checking ==> c.Place() in s.dirs)
  }

  /** So has a call that came back. */
  ghost predicate CameBack(s: State, r: (string, string)) { r.1 <= r.0 && Passed(s, r.0, |r.1|) }

  /** A call under way never makes a directory once its id has one, and is not past that one. */
  ghost predicate Behind(c: Proc, r: (string, string)) { c.id == r.0 ==> !Owner(c) && c.length <= |r.1| }

  ghost predicate TurnInv(s: State) {
    && Inv(s)
    && (forall p, q | p in s.procs && q in s.procs && Live(s.procs[p]) && Live(s.procs[q])
                      && s.procs[p].id == s.procs[q].id :: p == q)
    && (forall p | p in s.procs && Live(s.procs[p]) :: OnItsWay(s, s.procs[p]))
    && (forall r | r in s.returned :: CameBack(s, r))
    && (forall p, r | p in s.procs && Live(s.procs[p]) && r in s.returned :: Behind(s.procs[p], r))
  }

  /** What happens to directories keeps prefixes passed, as long as none of them gets the id's own marker. */
  lemma PassedStays(s: State, t: State, id: string, n: nat)
    requires n <= |id| && Passed(s, id, n) && forall d | d in s.dirs :: d in t.dirs
    requires forall k | First(id) <= k < n && id[..k] in t.dirs && t.dirs[id[..k]] == Some(id) ::
               s.dirs[id[..k]] == Some(id)
    ensures Passed(t, id, n)
  {
  }

  /** A directory's owner is at it, so an id's own passed prefixes are not the owner's. */
  lemma NotPassed(c: Proc, n: nat)
    requires c.length <= |c.id| && n <= c.length
    ensures forall k | 0 <= k < n :: c.id[..k] != c.Place()
  {
    forall k | 0 <= k < n ensures c.id[..k] != c.Place() { assert |c.id[..k]| == k; }
  }

  lemma MarkedPlace(s: State, c: Proc, r: (string, string))
    requires Inv(s) && r in s.returned && c.id == r.0 && c.length <= |c.id| && CameBack(s, r) && c.length == |r.1|
    ensures c.Place() == r.1 && c.Place() in s.dirs && s.dirs[c.Place()] == Some(c.id)
  {
    assert r.1 == r.0[..|r.1|];
  }

  /** A step of one call: it may move on, make directories appear, and mark the one it owns. */
  ghost predicate Moves(s: State, t: State, p: nat)
    requires p in s.procs
  {
    var c := s.procs[p];
    && c.length <= |c.id|
    && p in t.procs && t.procs == s.procs[p := t.procs[p]] && t.procs[p].id == c.id
    && (forall d | d in s.dirs :: d in t.dirs)
    && (forall d, i | d in t.dirs && t.dirs[d] == Some(i) && i != "" && !(d in s.dirs && s.dirs[d] == Some(i)) ::
          d == c.Place() && i == c.id && c.phase == Opened)
    && (t.returned == s.returned || (t.returned == s.returned + {(c.id, c.Place())} && !Live(t.procs[p])))
  }

  lemma OtherOnItsWay(s: State, t: State, p: nat, q: nat)
    requires TurnInv(s) && p in s.procs && Live(s.procs[p]) && Moves(s, t, p)
    requires q in s.procs && q != p && Live(s.procs[q])
    ensures OnItsWay(t, s.procs[q])
  {
    var c := s.procs[q];
    assert OnItsWay(s, c) && c.id != s.procs[p].id && ProcFits(s, c);
    hide TurnInv, Inv, First;
    PassedStays(s, t, c.id, c.length);
  }

  lemma StillBack(s: State, t: State, p: nat, r: (string, string))
    requires TurnInv(s) && p in s.procs && Live(s.procs[p]) && Moves(s, t, p) && r in s.returned
    ensures CameBack(t, r)
  {
    var c := s.procs[p];
    assert CameBack(s, r) && r.0 != "" && Behind(c, r);
    hide TurnInv, Inv, First;
    PassedStays(s, t, r.0, |r.1|);
  }

  lemma NowBack(s: State, t: State, p: nat)
    requires TurnInv(s) && p in s.procs && Live(s.procs[p]) && Moves(s, t, p)
    ensures CameBack(t, (s.procs[p].id, s.procs[p].Place()))
  {
    var c := s.procs[p];
    assert OnItsWay(s, c) && ProcFits(s, c);
    hide TurnInv, Inv, First;
    NotPassed(c, c.length);
    assert |c.Place()| == c.length;
    PassedStays(s, t, c.id, c.length);
  }

  lemma MoveTurns(s: State, t: State, p: nat)
    requires TurnInv(s) && Inv(t) && p in s.procs && Live(s.procs[p]) && Moves(s, t, p)
    requires Live(t.procs[p]) ==> OnItsWay(t, t.procs[p]) && forall r | r in s.returned :: Behind(t.procs[p], r)
    ensures TurnInv(t)
  {
    forall q | q in t.procs && Live(t.procs[q]) ensures OnItsWay(t, t.procs[q]) {
      if q != p { OtherOnItsWay(s, t, p, q); }
    }
    forall r | r in t.returned ensures CameBack(t, r) {
      if r in s.returned { StillBack(s, t, p, r); } else { NowBack(s, t, p); }
    }
    hide Inv, OnItsWay, CameBack;
    forall q, r | q in t.procs && Live(t.procs[q]) && r in t.returned ensures Behind(t.procs[q], r) {
      if q != p && r in s.returned { assert Behind(s.procs[q], r); }
    }
  }

  lemma BeginTurns(s: State, p: nat, id: string)
    requires TurnInv(s) && Enabled(s, Begin(p, id)) && InTurn(s, Begin(p, id))
    ensures TurnInv(Step(s, Begin(p, id)))
  {
    var t := Step(s, Begin(p, id));
    StepKeeps(s, Begin(p, id));
    forall r | r in t.returned ensures Behind(t.procs[p], r) {
      assert MarkerFits(r.1, s.dirs[r.1]);
    }
    hide Inv, First, MarkerFits;
    forall q | q in t.procs && Live(t.procs[q]) ensures OnItsWay(t, t.procs[q]) {
      if q != p { assert OnItsWay(s, s.procs[q]); }
    }
    forall r | r in t.returned ensures CameBack(t, r) { assert CameBack(s, r); }
    forall q, r | q in t.procs && Live(t.procs[q]) && r in t.returned ensures Behind(t.procs[q], r) {
      if q != p { assert Behind(s.procs[q], r); }
    }
  }

  lemma CreateTurns(s: State, p: nat)
    requires TurnInv(s) && Enabled(s, CreateDir(p))
    ensures TurnInv(Step(s, CreateDir(p)))
  {
    var c, t := s.procs[p], Step(s, CreateDir(p));
    StepKeeps(s, CreateDir(p));
    assert OnItsWay(s, c) && ProcFits(s, c);
    forall r | r in s.returned ensures Behind(t.procs[p], r) {
      assert Behind(c, r) && CameBack(s, r);
      if c.id == r.0 && c.Place() !in s.dirs { NotFree(s, c, r); }
    }
    hide TurnInv, Inv, First;
    PassedStays(s, t, c.id, c.length);
    MoveTurns(s, t, p);
  }

  /** A prefix no longer than a returned directory exists. */
  lemma NotFree(s: State, c: Proc, r: (string, string))
    requires Inv(s) && r in s.returned && c.id == r.0 && CameBack(s, r)
    requires First(c.id) <= c.length <= |c.id| && c.length <= |r.1|
    ensures c.Place() in s.dirs
  {
    if c.length == |r.1| { MarkedPlace(s, c, r); }
  }

  lemma CheckTurns(s: State, p: nat)
    requires TurnInv(s) && Enabled(s, Check(p))
    ensures TurnInv(Step(s, Check(p)))
  {
    var c, t := s.procs[p], Step(s, Check(p));
    StepKeeps(s, Check(p));
    assert OnItsWay(s, c) && ProcFits(s, c);
    if Live(t.procs[p]) {
      forall r | r in s.returned ensures Behind(t.procs[p], r) {
        assert Behind(c, r) && CameBack(s, r);
        if c.id == r.0 && c.length == |r.1| { MarkedPlace(s, c, r); }
      }
      hide TurnInv, Inv, First;
      assert Passed(t, c.id, c.length + 1);
    }
    hide TurnInv, Inv, First;
    MoveTurns(s, t, p);
  }

  lemma OpenTurns(s: State, p: nat)
    requires TurnInv(s) && Enabled(s, OpenMarker(p))
    ensures TurnInv(Step(s, OpenMarker(p)))
  {
    var c, t := s.procs[p], Step(s, OpenMarker(p));
    StepKeeps(s, OpenMarker(p));
    assert OnItsWay(s, c) && ProcFits(s, c);
    forall r | r in s.returned ensures Behind(t.procs[p], r) { assert Behind(c, r); }
    hide TurnInv, Inv, First;
    PassedStays(s, t, c.id, c.length);
    MoveTurns(s, t, p);
  }

  lemma FillTurns(s: State, p: nat)
    requires TurnInv(s) && Enabled(s, FillMarker(p))
    ensures TurnInv(Step(s, FillMarker(p)))
  {
    StepKeeps(s, FillMarker(p));
    assert ProcFits(s, s.procs[p]);
    hide TurnInv, Inv, First;
    MoveTurns(s, Step(s, FillMarker(p)), p);
  }

  lemma CrashTurns(s: State, p: nat)
    requires TurnInv(s) && Enabled(s, Crash(p))
    ensures TurnInv(Step(s, Crash(p)))
  {
    var t := Step(s, Crash(p));
    StepKeeps(s, Crash(p));
    hide Inv, First;
    forall q | q in t.procs && Live(t.procs[q]) ensures OnItsWay(t, t.procs[q]) { assert OnItsWay(s, s.procs[q]); }
    forall r | r in t.returned ensures CameBack(t, r) { assert CameBack(s, r); }
    hide Behind;
  }

  lemma StepTurns(s: State, l: Label)
    requires TurnInv(s) && Enabled(s, l) && InTurn(s, l)
    ensures TurnInv(Step(s, l))
  {
    hide TurnInv, Step, Enabled, InTurn;
    match l {
      case Begin(p, id) => BeginTurns(s, p, id);
      case CreateDir(p) => CreateTurns(s, p);
      case Check(p) => CheckTurns(s, p);
      case OpenMarker(p) => OpenTurns(s, p);
      case FillMarker(p) => FillTurns(s, p);
      case Crash(p) => CrashTurns(s, p);
    }
  }

  lemma {:induction false} RunTurns(s: State, ls: seq<Label>)
    requires TurnInv(s) && Runs(s, ls) && TakesTurns(s, ls)
    ensures TurnInv(End(s, ls))
    decreases |ls|
  {
    hide TurnInv, Step, Enabled, InTurn;
    if ls != [] {
      StepTurns(s, ls[0]);
      RunTurns(Step(s, ls[0]), ls[1..]);
    }
  }

  lemma NotLonger(s: State, id: string, d: string, e: string)
    requires TurnInv(s) && (id, d) in s.returned && (id, e) in s.returned
    ensures |e| <= |d|
  {
    assert CameBack(s, (id, d)) && CameBack(s, (id, e)) && MarkerFits(d, s.dirs[d]);
    assert d == id[..|d|];
  }

  /** While the calls of an id take turns, other ids' calls and crashes at any point notwithstanding, every call that
      comes back comes back with the same directory. */
  lemma TurnsShareOneDirectory(ls: seq<Label>, id: string, d: string, e: string)
    requires Runs(INITIAL, ls) && TakesTurns(INITIAL, ls)
    requires (id, d) in End(INITIAL, ls).returned && (id, e) in End(INITIAL, ls).returned
    ensures d == e
  {
    assert TurnInv(INITIAL);
    RunTurns(INITIAL, ls);
    var s := End(INITIAL, ls);
    hide Runs, End, TakesTurns;
    assert CameBack(s, (id, d)) && CameBack(s, (id, e));
    NotLonger(s, id, d, e);
    NotLonger(s, id, e, d);
    assert d == id[..|d|] && e == id[..|e|];
  }

  // ------------------------------------------------------------------------ calls that do not

  /** Trees with any given markers. */
  function TreeOf(dirs: map<string, Option<string>>): Tree {
    map d | d in dirs :: if dirs[d].None? then map[] else map[MARKER := File(dirs[d].value)]
  }

  lemma MarkersOfTree(dirs: map<string, Option<string>>)
    ensures MarkersOf(TreeOf(dirs)) == dirs
  {
  }

  /** A prefix of `id` that is free, or its own already. */
  predicate Available(s: State, id: string, m: nat)
    requires m <= |id|
  {
    id[..m] !in s.dirs || s.dirs[id[..m]] == Some(id)
  }

  lemma {:induction false} SlotWithin(tree: Tree, id: string, n: nat, m: nat)
    requires n <= m <= |id| && (id[..m] !in tree || MarkerMatches(tree, id[..m], id))
    ensures n <= Slot(tree, id, n) <= m
    decreases m - n
  {
    hide MarkerMatches;
    if n < m { SlotWithin(tree, id, n + 1, m); }
  }

  /** The owner of a directory marks it and comes back. */
  lemma OwnerReturns(s: State, p: nat) returns (run: seq<Label>)
    requires p in s.procs && Owner(s.procs[p]) && ProcFits(s, s.procs[p])
    ensures Runs(s, run) && End(s, run).returned == s.returned + {(s.procs[p].id, s.procs[p].Place())}
  {
    if s.procs[p].phase == Made {
      TwoLabels(s, OpenMarker(p), FillMarker(p));
      run := [OpenMarker(p), FillMarker(p)];
    } else {
      OneLabel(s, FillMarker(p));
      run := [FillMarker(p)];
    }
    hide Runs, End;
  }

  /** Another call of the id passes a directory whose owner has not marked it. */
  lemma PassesUnmarked(s: State, q: nat) returns (run: seq<Label>)
    requires InPhase(s, q, Trying) || InPhase(s, q, Checking)
    requires s.procs[q].Place() in s.dirs && s.dirs[s.procs[q].Place()] != Some(s.procs[q].id)
    requires s.procs[q].length < |s.procs[q].id|
    ensures Runs(s, run)
    ensures End(s, run) == s.(procs := s.procs[q := Proc(s.procs[q].id, s.procs[q].length + 1, Trying)])
  {
    if s.procs[q].phase == Trying {
      run := ReadsTaken(s, q);
    } else {
      OneLabel(s, Check(q));
      run := [Check(q)];
    }
    hide Runs, End;
  }

  lemma StillOwned(s: State, t: State, p: nat, d: string)
    requires p in s.procs && p in t.procs && t.procs[p] == s.procs[p]
    requires Owner(s.procs[p]) && ProcFits(s, s.procs[p])
    requires d in t.dirs && d != s.procs[p].Place()
    requires t.dirs == s.dirs || t.dirs == s.dirs[d := t.dirs[d]]
    ensures ProcFits(t, t.procs[p])
  {
  }

  /** A prefix that is free, or its own already, stops the search there at the latest. */
  lemma SlotAvailable(s: State, id: string, n: nat, m: nat)
    requires n <= m <= |id| && Available(s, id, m)
    ensures MarkersOf(TreeOf(s.dirs)) == s.dirs && n <= Slot(TreeOf(s.dirs), id, n) <= m
  {
    var tree := TreeOf(s.dirs);
    MarkersOfTree(s.dirs);
    assert id[..m] in tree ==> MarkersOf(tree)[id[..m]] == MarkerOf(tree[id[..m]]);
    SlotWithin(tree, id, n, m);
  }

  /** A call under way alone comes back with a prefix no longer than an available one. */
  lemma FindsAvailable(s: State, q: nat, m: nat) returns (run: seq<Label>, e: string)
    requires InPhase(s, q, Trying) && s.procs[q].length <= m <= |s.procs[q].id| && Available(s, s.procs[q].id, m)
    ensures Runs(s, run) && s.procs[q].length <= |e|
    ensures var id, t := s.procs[q].id, End(s, run);
            && q in t.procs && t.procs == s.procs[q := t.procs[q]] && t.returned == s.returned + {(id, e)}
            && e in t.dirs && (t.dirs == s.dirs || t.dirs == s.dirs[e := Some(id)])
  {
    var id, n := s.procs[q].id, s.procs[q].length;
    var tree := TreeOf(s.dirs);
    SlotAvailable(s, id, n, m);
    hide Runs, End, MarkersOf, TreeOf, AttachmentStore.Slot, MarkerOf;
    run := AloneFrom(tree, s, q);
    e := id[..Slot(tree, id, n)];
    assert e in tree <==> e in s.dirs by { SameKeys(tree); }
  }

  lemma SameKeys(tree: Tree)
    ensures forall d :: d in tree <==> d in MarkersOf(tree)
  {
  }

  /** Whenever one call of an id owns an unmarked directory, another one is at the same prefix, and some longer prefix
      is available, the two can come back with different directories. */
  lemma OverlapSplits(s: State, p: nat, q: nat, m: nat) returns (run: seq<Label>, e: string)
    requires Inv(s) && p in s.procs && Owner(s.procs[p])
    requires q != p && (InPhase(s, q, Trying) || InPhase(s, q, Checking))
    requires s.procs[q].id == s.procs[p].id && s.procs[q].length == s.procs[p].length
    requires s.procs[p].length < m <= |s.procs[p].id| && Available(s, s.procs[p].id, m)
    ensures Runs(s, run) && e != s.procs[p].Place()
    ensures (s.procs[p].id, s.procs[p].Place()) in End(s, run).returned && (s.procs[p].id, e) in End(s, run).returned
  {
    var c := s.procs[p];
    assert ProcFits(s, c);
    var passes := PassesUnmarked(s, q);
    var s1 := s.(procs := s.procs[q := Proc(c.id, c.length + 1, Trying)]);
    assert End(s, passes) == s1;
    assert Available(s1, c.id, m);
    hide Runs, End, Inv, First, Available;
    var finds;
    finds, e := FindsAvailable(s1, q, m);
    assert |c.Place()| == c.length < |e|;
    RunThen(s, passes, finds);
    var s2 := End(s1, finds);
    StillOwned(s, s2, p, e);
    hide ProcFits;
    var marks := OwnerReturns(s2, p);
    RunThen(s, passes + finds, marks);
    run := passes + finds + marks;
  }

  /** For every id with more than one eligible prefix two calls that start together can part. */
  lemma TwoCallsPart(id: string) returns (run: seq<Label>, d: string, e: string)
    requires |id| > 6
    ensures Runs(INITIAL, run) && d != e
    ensures (id, d) in End(INITIAL, run).returned && (id, e) in End(INITIAL, run).returned
  {
    var s2 := State(map[], map[0 := Proc(id, 6, Trying), 1 := Proc(id, 6, Trying)], {});
    var s := State(map[id[..6] := None], map[0 := Proc(id, 6, Made), 1 := Proc(id, 6, Trying)], {});
    TwoLabels(INITIAL, Begin(0, id), Begin(1, id));
    assert End(INITIAL, [Begin(0, id), Begin(1, id)]) == s2;
    assert Enabled(s2, CreateDir(0)) && Step(s2, CreateDir(0)) == s;
    OneLabel(s2, CreateDir(0));
    RunThen(INITIAL, [Begin(0, id), Begin(1, id)], [CreateDir(0)]);
    var start := [Begin(0, id), Begin(1, id)] + [CreateDir(0)];
    assert Inv(INITIAL);
    RunKeeps(INITIAL, start);
    assert |id[..7]| == 7 && |id[..6]| == 6;
    var rest;
    d := id[..6];
    hide Runs, End, Inv;
    rest, e := OverlapSplits(s, 0, 1, 7);
    RunThen(INITIAL, start, rest);
    run := start + rest;
  }

  /** Two calls of the id never come back with different directories. */
  ghost predicate KeepsOneDirectory(id: string) {
    forall run, d, e | Runs(INITIAL, run) && (id, d) in End(INITIAL, run).returned
                       && (id, e) in End(INITIAL, run).returned :: d == e
  }

  /** Under every schedule an id keeps one directory if and only if it has a single eligible prefix. */
  lemma OneDirectoryExactly(id: string)
    ensures KeepsOneDirectory(id) <==> |id| <= 6
  {
    if |id| <= 6 {
      forall run, d, e | Runs(INITIAL, run) && (id, d) in End(INITIAL, run).returned
                         && (id, e) in End(INITIAL, run).returned
        ensures d == e
      {
        WholeId(run, id, d);
        WholeId(run, id, e);
      }
    } else {
      var run, d, e := TwoCallsPart(id);
    }
  }

  lemma WholeId(run: seq<Label>, id: string, d: string)
    requires |id| <= 6 && Runs(INITIAL, run) && (id, d) in End(INITIAL, run).returned
    ensures d == id
  {
    assert Runs(End(INITIAL, run), []) && End(End(INITIAL, run), []) == End(INITIAL, run);
    OneOwnerPerDirectory(run, [], d, id, id);
    assert Inv(INITIAL);
    RunKeeps(INITIAL, run);
    assert MarkerFits(d, End(INITIAL, run).dirs[d]);
    assert id != "";
    assert d == id[..|d|];
  }
}
