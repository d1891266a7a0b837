/** When a call of `event_directory` (`src/attachment_receive.rs`) fails with the collision error although calls
    interleave and crash. */
module AttachmentCollisions {
  import opened Order
  import opened AttachmentStore
  import opened AttachmentRace
  import opened AttachmentTurns

  // ----------------------------------------------------------------- directories left behind

  /** What a crash leaves behind: the id of a call that had created a directory and not marked it, and the directory. */
  function Orphaned(s: State, l: Label): set<(string, string)>
    requires Enabled(s, l)
  {
    if l.Crash? && Owner(s.procs[l.p]) && s.procs[l.p].length <= |s.procs[l.p].id|
    then {(s.procs[l.p].id, s.procs[l.p].Place())}
    else {}
  }

  function Orphans(s: State, ls: seq<Label>): set<(string, string)>
    requires Runs(s, ls)
    decreases |ls|
  {
    if ls == [] then {} else Orphaned(s, ls[0]) + Orphans(Step(s, ls[0]), ls[1..])
  }

  ghost predicate LeftBehind(gone: set<(string, string)>, d: string) { exists i :: (i, d) in gone }

  predicate Unfinished(s: State, d: string) { d in s.dirs && (s.dirs[d] == None || s.dirs[d] == Some("")) }

  predicate HeldBy(s: State, q: nat, d: string) {
    q in s.procs && Owner(s.procs[q]) && s.procs[q].length <= |s.procs[q].id| && s.procs[q].Place() == d
  }

  /** A call under way has created the directory and not marked it. */
  ghost predicate Held(s: State, d: string) { exists q :: HeldBy(s, q, d) }

  predicate Arrived(s: State, c: Proc) { c.phase == Checking && c.length <= |c.id| ==> c.Place() in s.dirs }

  ghost predicate HoldInv(s: State, gone: set<(string, string)>) {
    && Inv(s)
    && (forall p | p in s.procs :: Arrived(s, s.procs[p]))
    && (forall d | Unfinished(s, d) :: LeftBehind(gone, d) || Held(s, d))
    && (forall r | r in gone :: Unfinished(s, r.1) && !Held(s, r.1))
  }

  lemma StillHeld(s: State, t: State, p: nat, d: string)
    requires Held(s, d) && !HeldBy(s, p, d)
    requires forall q | q in s.procs && q != p :: q in t.procs && t.procs[q] == s.procs[q]
    ensures Held(t, d)
  {
    var q :| HeldBy(s, q, d);
    assert HeldBy(t, q, d);
  }

  lemma StillFree(s: State, t: State, p: nat, d: string)
    requires !Held(s, d) && !HeldBy(t, p, d)
    requires forall q | q in t.procs && q != p :: q in s.procs && t.procs[q] == s.procs[q]
    ensures !Held(t, d)
  {
    if Held(t, d) {
      var q :| HeldBy(t, q, d);
      assert HeldBy(s, q, d);
    }
  }

  /** A step of `p` that neither takes nor gives up a directory. */
  lemma QuietHolds(s: State, t: State, p: nat, gone: set<(string, string)>)
    requires HoldInv(s, gone) && Inv(t) && t.dirs == s.dirs
    requires p in s.procs ==> !Owner(s.procs[p])
    requires p in t.procs && !Owner(t.procs[p]) && t.procs == s.procs[p := t.procs[p]] && Arrived(t, t.procs[p])
    ensures HoldInv(t, gone)
  {
    hide Inv, LeftBehind;
    forall q | q in t.procs ensures Arrived(t, t.procs[q]) { assert q != p ==> Arrived(s, s.procs[q]); }
    hide Arrived;
    forall d | Unfinished(t, d) ensures LeftBehind(gone, d) || Held(t, d) {
      assert Unfinished(s, d);
      if Held(s, d) { StillHeld(s, t, p, d); }
    }
    forall r | r in gone ensures Unfinished(t, r.1) && !Held(t, r.1) {
      assert Unfinished(s, r.1);
      StillFree(s, t, p, r.1);
    }
  }

  /** A step of `p` at the directory it holds afterwards, which nobody else has. */
  lemma HolderHolds(s: State, t: State, p: nat, d: string, gone: set<(string, string)>)
    requires HoldInv(s, gone) && Inv(t) && p in s.procs && HeldBy(t, p, d) && !LeftBehind(gone, d)
    requires t.procs == s.procs[p := t.procs[p]] && d in t.dirs && t.dirs == s.dirs[d := t.dirs[d]]
    requires Owner(s.procs[p]) ==> HeldBy(s, p, d)
    ensures HoldInv(t, gone)
  {
    hide Inv;
    forall q | q in t.procs ensures Arrived(t, t.procs[q]) { assert q != p ==> Arrived(s, s.procs[q]); }
    hide Arrived;
    forall e | Unfinished(t, e) ensures LeftBehind(gone, e) || Held(t, e) {
      if e != d {
        assert Unfinished(s, e);
        if Held(s, e) { StillHeld(s, t, p, e); }
      }
    }
    forall r | r in gone ensures Unfinished(t, r.1) && !Held(t, r.1) {
      assert Unfinished(s, r.1) && (r.0, r.1) in gone;
      StillFree(s, t, p, r.1);
    }
  }

  lemma CreateHolds(s: State, p: nat, gone: set<(string, string)>)
    requires HoldInv(s, gone) && Enabled(s, CreateDir(p))
    ensures HoldInv(Step(s, CreateDir(p)), gone)
  {
    var t, d := Step(s, CreateDir(p)), s.procs[p].Place();
    StepKeeps(s, CreateDir(p));
    if d in s.dirs {
      hide HoldInv, Inv;
      QuietHolds(s, t, p, gone);
    } else {
      assert !LeftBehind(gone, d);
      hide HoldInv, Inv, LeftBehind;
      HolderHolds(s, t, p, d, gone);
    }
  }

  lemma CheckHolds(s: State, p: nat, gone: set<(string, string)>)
    requires HoldInv(s, gone) && Enabled(s, Check(p))
    ensures HoldInv(Step(s, Check(p)), gone)
  {
    StepKeeps(s, Check(p));
    hide HoldInv, Inv;
    QuietHolds(s, Step(s, Check(p)), p, gone);
  }

  /** Nobody left behind a directory that a call holds. */
  lemma HeldIsNotLeft(s: State, p: nat, gone: set<(string, string)>)
    requires HoldInv(s, gone) && p in s.procs && Owner(s.procs[p]) && s.procs[p].length <= |s.procs[p].id|
    ensures HeldBy(s, p, s.procs[p].Place()) && !LeftBehind(gone, s.procs[p].Place())
  {
    var d := s.procs[p].Place();
    if LeftBehind(gone, d) {
      var i :| (i, d) in gone;
      assert !Held(s, (i, d).1) && HeldBy(s, p, d);
    }
  }

  lemma OpenHolds(s: State, p: nat, gone: set<(string, string)>)
    requires HoldInv(s, gone) && Enabled(s, OpenMarker(p))
    ensures HoldInv(Step(s, OpenMarker(p)), gone)
  {
    StepKeeps(s, OpenMarker(p));
    assert ProcFits(s, s.procs[p]);
    HeldIsNotLeft(s, p, gone);
    hide HoldInv, Inv, LeftBehind, First;
    HolderHolds(s, Step(s, OpenMarker(p)), p, s.procs[p].Place(), gone);
  }

  lemma FillHolds(s: State, p: nat, gone: set<(string, string)>)
    requires HoldInv(s, gone) && Enabled(s, FillMarker(p))
    ensures HoldInv(Step(s, FillMarker(p)), gone)
  {
    var t, c := Step(s, FillMarker(p)), s.procs[p];
    StepKeeps(s, FillMarker(p));
    assert ProcFits(s, c);
    HeldIsNotLeft(s, p, gone);
    hide Inv, First;
    forall q | q in t.procs ensures Arrived(t, t.procs[q]) { assert q != p ==> Arrived(s, s.procs[q]); }
    hide Arrived;
    forall e | Unfinished(t, e) ensures LeftBehind(gone, e) || Held(t, e) {
      assert e != c.Place() && Unfinished(s, e);
      if Held(s, e) { StillHeld(s, t, p, e); }
    }
    forall r | r in gone ensures Unfinished(t, r.1) && !Held(t, r.1) {
      assert Unfinished(s, r.1) && (r.0, r.1) in gone;
      StillFree(s, t, p, r.1);
    }
  }

  lemma CrashHolds(s: State, p: nat, gone: set<(string, string)>)
    requires HoldInv(s, gone) && Enabled(s, Crash(p))
    ensures HoldInv(Step(s, Crash(p)), gone + Orphaned(s, Crash(p)))
  {
    var t, c, now := Step(s, Crash(p)), s.procs[p], gone + Orphaned(s, Crash(p));
    StepKeeps(s, Crash(p));
    assert ProcFits(s, c);
    forall q | q in t.procs ensures Arrived(t, t.procs[q]) { assert Arrived(s, s.procs[q]); }
    hide Arrived, First;
    forall e | Unfinished(t, e) ensures LeftBehind(now, e) || Held(t, e) {
      assert Unfinished(s, e);
      if LeftBehind(gone, e) {
        var i :| (i, e) in gone;
        assert (i, e) in now;
      } else if HeldBy(s, p, e) {
        assert (c.id, e) in now;
      } else {
        StillHeld(s, t, p, e);
      }
    }
    forall r | r in now ensures Unfinished(t, r.1) && !Held(t, r.1) {
      if r in gone { StillFree(s, t, p, r.1); }
    }
  }

  lemma BeginHolds(s: State, p: nat, id: string, gone: set<(string, string)>)
    requires HoldInv(s, gone) && Enabled(s, Begin(p, id))
    ensures HoldInv(Step(s, Begin(p, id)), gone)
  {
    StepKeeps(s, Begin(p, id));
    hide HoldInv, Inv, First;
    QuietHolds(s, Step(s, Begin(p, id)), p, gone);
  }

  lemma StepHolds(s: State, l: Label, gone: set<(string, string)>)
    requires HoldInv(s, gone) && Enabled(s, l)
    ensures HoldInv(Step(s, l), gone + Orphaned(s, l))
  {
    assert !l.Crash? ==> gone + Orphaned(s, l) == gone;
    hide HoldInv, Step, Enabled, Orphaned;
    match l {
      case Begin(p, id) => BeginHolds(s, p, id, gone);
      case CreateDir(p) => CreateHolds(s, p, gone);
      case Check(p) => CheckHolds(s, p, gone);
      case OpenMarker(p) => OpenHolds(s, p, gone);
      case FillMarker(p) => FillHolds(s, p, gone);
      case Crash(p) => CrashHolds(s, p, gone);
    }
  }

  lemma {:induction false} RunHolds(s: State, ls: seq<Label>, gone: set<(string, string)>)
    requires HoldInv(s, gone) && Runs(s, ls)
    ensures HoldInv(End(s, ls), gone + Orphans(s, ls))
    decreases |ls|
  {
    hide HoldInv, Step, Enabled, Orphaned;
    if ls == [] {
      assert gone + Orphans(s, ls) == gone;
    } else {
      StepHolds(s, ls[0], gone);
      RunHolds(Step(s, ls[0]), ls[1..], gone + Orphaned(s, ls[0]));
      assert gone + Orphans(s, ls) == gone + Orphaned(s, ls[0]) + Orphans(Step(s, ls[0]), ls[1..]);
    }
  }

  /** The directory named by the whole id is marked with a longer id. */
  predicate TakenByLonger(s: State, id: string) {
    id in s.dirs && s.dirs[id].Some? && id < s.dirs[id].value
  }

  lemma WholeNotOwn(s: State, id: string)
    requires Inv(s) && id != "" && id in s.dirs
    ensures s.dirs[id] != Some(id) <==> Unfinished(s, id) || TakenByLonger(s, id)
  {
    hide First;
    if s.dirs[id].Some? && s.dirs[id].value != "" {
      var m := s.dirs[id].value;
      assert MarkerFits(id, s.dirs[id]) && id <= m;
      assert |m| == |id| ==> m == m[..|id|] == id;
    }
  }

  lemma HeldIsUnfinished(s: State, d: string)
    requires Inv(s) && Held(s, d)
    ensures Unfinished(s, d)
  {
    var q :| HeldBy(s, q, d);
    assert ProcFits(s, s.procs[q]);
  }

  lemma CheckBails(s: State, p: nat, gone: set<(string, string)>)
    requires HoldInv(s, gone) && Enabled(s, Check(p))
    ensures var c := s.procs[p];
            Step(s, Check(p)).procs[p].phase == Bailed
            <==> c.length == |c.id| && (LeftBehind(gone, c.id) || Held(s, c.id) || TakenByLonger(s, c.id))
  {
    var c := s.procs[p];
    assert Arrived(s, c) && ProcFits(s, c);
    if c.length == |c.id| {
      assert c.Place() == c.id;
      assert LeftBehind(gone, c.id) ==> Unfinished(s, c.id);
      assert Unfinished(s, c.id) ==> LeftBehind(gone, c.id) || Held(s, c.id);
      hide HoldInv, LeftBehind, Arrived, ProcFits;
      WholeNotOwn(s, c.id);
      if Held(s, c.id) { HeldIsUnfinished(s, c.id); }
    }
  }

  /** Under every schedule, whatever the ids are, a call fails with the collision error exactly when it finds the
      directory named by its whole id created and not marked by a call under way, left unmarked by one that crashed,
      or marked with a longer id. */
  lemma BailsExactly(ls: seq<Label>, p: nat)
    requires Runs(INITIAL, ls) && Enabled(End(INITIAL, ls), Check(p))
    ensures var s := End(INITIAL, ls);
            var c := s.procs[p];
            Step(s, Check(p)).procs[p].phase == Bailed
            <==> && c.length == |c.id|
                 && (LeftBehind(Orphans(INITIAL, ls), c.id) || Held(s, c.id) || TakenByLonger(s, c.id))
  {
    assert HoldInv(INITIAL, {});
    RunHolds(INITIAL, ls, {});
    assert {} + Orphans(INITIAL, ls) == Orphans(INITIAL, ls);
    hide *;
    CheckBails(End(INITIAL, ls), p, Orphans(INITIAL, ls));
  }

  // ------------------------------------------------------- ids of one length, calls in turns

  predicate OneLength(ls: seq<Label>, n: nat) { forall i | 0 <= i < |ls| && ls[i].Begin? :: |ls[i].id| == n }

  /** No call of the id can come back any more: its shorter prefixes are taken, none came back, and none is about to. */
  ghost predicate Stuck(s: State, id: string) {
    && Passed(s, id, |id|)
    && (forall r | r in s.returned :: r.0 != id)
    && (forall q | q in s.procs && s.procs[q].id == id :: !Owner(s.procs[q]))
  }

  ghost predicate Settled(s: State, gone: set<(string, string)>, c: Proc) {
    && (c.phase == Bailed ==> (c.id, c.id) in gone)
    && (c.phase == Returned ==> c.length <= |c.id| && (c.id, c.Place()) in s.returned)
  }

  ghost predicate SameLength(s: State, gone: set<(string, string)>, n: nat) {
    && (forall p | p in s.procs :: |s.procs[p].id| == n)
    && (forall d | d in s.dirs && s.dirs[d].Some? && s.dirs[d].value != "" :: |s.dirs[d].value| == n)
    && (forall r | r in gone :: |r.0| == n && r.1 <= r.0)
  }

  ghost predicate CollideInv(s: State, gone: set<(string, string)>, n: nat) {
    && TurnInv(s) && HoldInv(s, gone) && SameLength(s, gone, n)
    && (forall id | (id, id) in gone :: Stuck(s, id))
    && (forall p | p in s.procs :: Settled(s, gone, s.procs[p]))
  }

  lemma StuckStays(s: State, l: Label, id: string)
    requires Inv(s) && Stuck(s, id) && Unfinished(s, id) && Enabled(s, l) && id != ""
    ensures Stuck(Step(s, l), id)
  {
    if l.p in s.procs {
      var c := s.procs[l.p];
      assert ProcFits(s, c);
      assert c.id == id && c.length == |id| ==> c.Place() == id;
    }
    hide Inv, First;
  }

  lemma StepSameLength(s: State, l: Label, gone: set<(string, string)>, n: nat)
    requires SameLength(s, gone, n) && Enabled(s, l) && (l.Begin? ==> |l.id| == n)
    ensures SameLength(Step(s, l), gone + Orphaned(s, l), n)
  {
    hide First;
  }

  /** Who crashes between making the directory named by its whole id and marking it leaves the id stuck. */
  lemma CrashSticks(s: State, p: nat)
    requires TurnInv(s) && Enabled(s, Crash(p)) && Owner(s.procs[p]) && s.procs[p].length == |s.procs[p].id|
    ensures Stuck(Step(s, Crash(p)), s.procs[p].id)
  {
    var c := s.procs[p];
    assert OnItsWay(s, c);
    forall r | r in s.returned ensures r.0 != c.id { assert Behind(c, r); }
    hide Inv, First;
  }

  lemma BailIsLeft(s: State, p: nat, gone: set<(string, string)>, n: nat)
    requires TurnInv(s) && HoldInv(s, gone) && SameLength(s, gone, n)
    requires Enabled(s, Check(p)) && Step(s, Check(p)).procs[p].phase == Bailed
    ensures (s.procs[p].id, s.procs[p].id) in gone
  {
    var c := s.procs[p];
    CheckBails(s, p, gone);
    hide HoldInv, Step, Enabled, Inv, OnItsWay, CameBack, Behind;
    if LeftBehind(gone, c.id) {
      var i :| (i, c.id) in gone;
      assert (i, c.id).1 <= (i, c.id).0;
      assert i == i[..|c.id|] == c.id;
    }
  }

  lemma StaysStuck(s: State, l: Label, id: string, gone: set<(string, string)>, n: nat)
    requires CollideInv(s, gone, n) && Enabled(s, l) && (l.Begin? ==> |l.id| == n) && (id, id) in gone
    ensures Stuck(Step(s, l), id)
  {
    assert Unfinished(s, (id, id).1) && |(id, id).0| == n && Stuck(s, id);
    assert l.p in s.procs ==> ProcFits(s, s.procs[l.p]);
    hide HoldInv, Step, Stuck, First;
    StuckStays(s, l, id);
  }

  lemma LeftNow(s: State, l: Label, id: string)
    requires TurnInv(s) && Enabled(s, l) && (id, id) in Orphaned(s, l)
    ensures Stuck(Step(s, l), id)
  {
    assert s.procs[l.p].id == s.procs[l.p].Place();
    CrashSticks(s, l.p);
  }

  lemma SettledStays(s: State, l: Label, gone: set<(string, string)>, q: nat)
    requires Enabled(s, l) && q in Step(s, l).procs && (q in s.procs ==> Settled(s, gone, s.procs[q]))
    requires l.Check? && Step(s, l).procs[l.p].phase == Bailed ==> (s.procs[l.p].id, s.procs[l.p].id) in gone
    ensures Settled(Step(s, l), gone + Orphaned(s, l), Step(s, l).procs[q])
  {
    hide First;
  }

  lemma StepCollides(s: State, l: Label, gone: set<(string, string)>, n: nat)
    requires CollideInv(s, gone, n) && Enabled(s, l) && InTurn(s, l) && (l.Begin? ==> |l.id| == n)
    ensures CollideInv(Step(s, l), gone + Orphaned(s, l), n)
  {
    var t, now := Step(s, l), gone + Orphaned(s, l);
    StepTurns(s, l);
    StepHolds(s, l, gone);
    StepSameLength(s, l, gone, n);
    hide TurnInv, HoldInv, SameLength, Stuck, Settled, InTurn;
    forall id | (id, id) in now ensures Stuck(t, id) {
      if (id, id) in gone {
        StaysStuck(s, l, id, gone, n);
      } else {
        LeftNow(s, l, id);
      }
    }
    if l.Check? && t.procs[l.p].phase == Bailed { BailIsLeft(s, l.p, gone, n); }
    forall q | q in t.procs ensures Settled(t, now, t.procs[q]) {
      SettledStays(s, l, gone, q);
    }
  }

  lemma {:induction false} RunCollides(s: State, ls: seq<Label>, gone: set<(string, string)>, n: nat)
    requires CollideInv(s, gone, n) && Runs(s, ls) && TakesTurns(s, ls) && OneLength(ls, n)
    ensures CollideInv(End(s, ls), gone + Orphans(s, ls), n)
    decreases |ls|
  {
    hide CollideInv, Step, Enabled, Orphaned, InTurn;
    if ls == [] {
      assert gone + Orphans(s, ls) == gone;
    } else {
      StepCollides(s, ls[0], gone, n);
      RunCollides(Step(s, ls[0]), ls[1..], gone + Orphaned(s, ls[0]), n);
      assert gone + Orphans(s, ls) == gone + Orphaned(s, ls[0]) + Orphans(Step(s, ls[0]), ls[1..]);
    }
  }

  /** While ids have one length and the calls of an id take turns, a call that is over failed with the collision error
      if and only if an earlier call of its id stopped between making the directory named by the whole id and marking
      it; every other one came back. */
  lemma FailsExactly(ls: seq<Label>, n: nat, p: nat)
    requires Runs(INITIAL, ls) && TakesTurns(INITIAL, ls) && OneLength(ls, n)
    requires p in End(INITIAL, ls).procs && !Live(End(INITIAL, ls).procs[p])
    ensures var c := End(INITIAL, ls).procs[p];
            c.phase == Bailed <==> (c.id, c.id) in Orphans(INITIAL, ls)
  {
    assert CollideInv(INITIAL, {}, n);
    RunCollides(INITIAL, ls, {}, n);
    assert {} + Orphans(INITIAL, ls) == Orphans(INITIAL, ls);
    var s, gone := End(INITIAL, ls), Orphans(INITIAL, ls);
    hide Runs, End, Orphans, TakesTurns, TurnInv, HoldInv;
    var c := s.procs[p];
    assert Settled(s, gone, c);
    if (c.id, c.id) in gone { assert Stuck(s, c.id); }
  }
}
