/** What simultaneous calls of `event_directory` do not promise. */
module AttachmentRaceExample {
  import opened Order
  import opened AttachmentStore
  import opened AttachmentRace

  const RACE := [Begin(0, ID), Begin(1, ID), CreateDir(0), CreateDir(1), Check(1), CreateDir(1),
                 OpenMarker(1), FillMarker(1), OpenMarker(0), FillMarker(0)]

  const ID := "abcdefg"
  const SHORT := "abcdef"

  // The race, two steps at a time.
  const S2 := State(map[], map[0 := Proc(ID, 6, Trying), 1 := Proc(ID, 6, Trying)], {})
  const S4 := State(map[SHORT := None], map[0 := Proc(ID, 6, Made), 1 := Proc(ID, 6, Checking)], {})
  const S6 := State(map[SHORT := None, ID := None], map[0 := Proc(ID, 6, Made), 1 := Proc(ID, 7, Made)], {})
  const S8 := State(map[SHORT := None, ID := Some(ID)], map[0 := Proc(ID, 6, Made), 1 := Proc(ID, 7, Returned)],
                    {(ID, ID)})
  const S10 := State(map[SHORT := Some(ID), ID := Some(ID)],
                     map[0 := Proc(ID, 6, Returned), 1 := Proc(ID, 7, Returned)], {(ID, ID), (ID, SHORT)})

  ghost predicate Leads(s: State, a: Label, b: Label, t: State) {
    Enabled(s, a) && Enabled(Step(s, a), b) && Step(Step(s, a), b) == t
  }

  lemma Prefixes()
    ensures |ID| == 7 && |SHORT| == 6 && ID[..6] == SHORT && ID[..7] == ID && ID != SHORT && First(ID) == 6
  {
  }

  lemma RaceStarts()
    ensures Leads(INITIAL, Begin(0, ID), Begin(1, ID), S2) && Leads(S2, CreateDir(0), CreateDir(1), S4)
  {
    Prefixes();
    hide First;
  }

  lemma RacePasses()
    ensures Leads(S4, Check(1), CreateDir(1), S6)
  {
    Prefixes();
    hide First;
  }

  lemma RaceEnds()
    ensures Leads(S6, OpenMarker(1), FillMarker(1), S8) && Leads(S8, OpenMarker(0), FillMarker(0), S10)
  {
    Prefixes();
    hide First;
  }

  /** Two simultaneous calls for one id can come back with two directories: the second finds the first one's
      directory before its marker is written, and moves on to a longer prefix. */
  lemma OneIdTwoDirectories()
    ensures Runs(INITIAL, RACE)
    ensures (ID, SHORT) in End(INITIAL, RACE).returned && (ID, ID) in End(INITIAL, RACE).returned
  {
    RaceStarts();
    RacePasses();
    RaceEnds();
    hide Leads, Enabled, Step;
    TwoSteps(INITIAL, RACE, 0, S2);
    TwoSteps(S2, RACE, 2, S4);
    TwoSteps(S4, RACE, 4, S6);
    TwoSteps(S6, RACE, 6, S8);
    TwoSteps(S8, RACE, 8, S10);
    assert RACE[10..] == [] && RACE[0..] == RACE;
  }

  lemma TwoSteps(s: State, ls: seq<Label>, n: nat, t: State)
    requires n + 2 <= |ls| && Leads(s, ls[n], ls[n + 1], t)
    ensures Runs(s, ls[n..]) == Runs(t, ls[n + 2..])
    ensures Runs(s, ls[n..]) ==> End(s, ls[n..]) == End(t, ls[n + 2..])
  {
    assert ls[n..][1..] == ls[n + 1..] && ls[n + 1..][1..] == ls[n + 2..];
    hide Enabled, Step;
    assert Runs(s, ls[n..]) == Runs(Step(s, ls[n]), ls[n + 1..]);
  }
}
