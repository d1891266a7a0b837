/** Composing configuration profiles (`src/harness/codex_profile.rs`): an overlay merged into a base, table by table. */
module DeepMerge {
  import opened Order

  /** A TOML value; everything that is not a table is a leaf. */
  datatype Value = Leaf(text: string) | Table(entries: map<string, Value>)

  function Merge(base: Value, overlay: Value): Value
    decreases base
  {
    if base.Table? && overlay.Table? then
      Table(map k | k in base.entries.Keys + overlay.entries.Keys ::
              if k !in overlay.entries then base.entries[k]
              else if k !in base.entries then overlay.entries[k]
              else Merge(base.entries[k], overlay.entries[k]))
    else overlay
  }

  /** The base with the keys in `done` already merged. */
  function Partly(base: Value, overlay: Value, done: set<string>): map<string, Value>
    requires base.Table? && overlay.Table? && done <= overlay.entries.Keys
  {
    map k | k in base.entries.Keys + done ::
      if k !in done then base.entries[k]
      else if k !in base.entries then overlay.entries[k]
      else Merge(base.entries[k], overlay.entries[k])
  }

  ghost predicate Lists(keys: seq<string>, all: set<string>) { NoDup(keys) && forall k :: k in keys <==> k in all }

  method KeysInOrder(m: map<string, Value>) returns (keys: seq<string>)
    ensures Lists(keys, m.Keys) && Sorted(keys, StrLe)
  {
    AscendingSorted(m.Keys);
    return Ascending(m.Keys);
  }

  method DeepMerge(base: Value, overlay: Value) returns (r: Value)
    ensures r == Merge(base, overlay)
    decreases base
  {
    if !base.Table? || !overlay.Table? { return overlay; }
    hide Merge, Partly, Taken, Lists;
    var entries := base.entries;
    var keys := KeysInOrder(overlay.entries);
    PartlyEnds(base, overlay);
    TakenEnds(keys, overlay.entries.Keys);
    var i := 0;
    while i < |keys|
      invariant 0 <= i <= |keys| && Taken(keys, i) <= overlay.entries.Keys
      invariant entries == Partly(base, overlay, Taken(keys, i))
    {
      var key := keys[i];
      TakenStep(keys, i, overlay.entries.Keys);
      PartlyStep(base, overlay, Taken(keys, i), key);
      var merged := overlay.entries[key];
      if key in entries { merged := DeepMerge(entries[key], merged); }
      entries := entries[key := merged];
      i := i + 1;
    }
    return Table(entries);
  }

  ghost function Taken(keys: seq<string>, n: nat): set<string>
    requires n <= |keys|
  {
    set j | 0 <= j < n :: keys[j]
  }

  lemma TakenStep(keys: seq<string>, i: nat, all: set<string>)
    requires Lists(keys, all) && i < |keys|
    ensures keys[i] in all && keys[i] !in Taken(keys, i) && Taken(keys, i + 1) == Taken(keys, i) + {keys[i]}
  {
    assert keys[i] in keys;
  }

  lemma TakenEnds(keys: seq<string>, all: set<string>)
    requires Lists(keys, all)
    ensures Taken(keys, 0) == {} && Taken(keys, |keys|) == all
  {
    assert forall j | 0 <= j < |keys| :: keys[j] in keys;
    forall k | k in all ensures k in Taken(keys, |keys|) { assert k in keys; }
  }

  lemma PartlyStep(base: Value, overlay: Value, done: set<string>, key: string)
    requires base.Table? && overlay.Table? && done <= overlay.entries.Keys && key in overlay.entries && key !in done
    ensures var before, v := Partly(base, overlay, done), overlay.entries[key];
            && (key in before <==> key in base.entries)
            && (key in before ==> before[key] == base.entries[key])
            && Partly(base, overlay, done + {key}) == before[key := if key in before then Merge(before[key], v) else v]
  {
    hide Merge;
  }

  lemma PartlyEnds(base: Value, overlay: Value)
    requires base.Table? && overlay.Table?
    ensures Partly(base, overlay, {}) == base.entries
    ensures Table(Partly(base, overlay, overlay.entries.Keys)) == Merge(base, overlay)
  {
    assert Partly(base, overlay, overlay.entries.Keys) == Merge(base, overlay).entries;
  }

  // ---------------------------------------------------------------------------- at every path

  /** The value a path of keys leads to. */
  function At(v: Value, path: seq<string>): Option<Value>
    decreases |path|
  {
    if path == [] then Some(v)
    else if v.Table? && path[0] in v.entries then At(v.entries[path[0]], path[1..])
    else None
  }

  /** Some prefix of the path, or the path itself, leads to a leaf. */
  function Shadows(v: Value, path: seq<string>): bool
    decreases |path|
  {
    v.Leaf? || (path != [] && path[0] in v.entries && Shadows(v.entries[path[0]], path[1..]))
  }

  /** What is at each path of a merge: the overlay where it has anything but a table, the two merged where both have
      tables, and the base exactly where the overlay neither has anything nor a leaf on the way. */
  lemma {:induction false} MergedAt(base: Value, overlay: Value, path: seq<string>)
    ensures At(Merge(base, overlay), path) ==
              match At(overlay, path)
              case Some(v) => if At(base, path).Some? then Some(Merge(At(base, path).value, v)) else Some(v)
              case None => if Shadows(overlay, path) then None else At(base, path)
    decreases |path|
  {
    if path != [] && base.Table? && overlay.Table? {
      var k := path[0];
      if k in base.entries && k in overlay.entries { MergedAt(base.entries[k], overlay.entries[k], path[1..]); }
    }
  }

  /** A leaf of the base survives exactly where the overlay has nothing and no leaf on the way; the overlay's leaves are
      always there. */
  lemma LeavesOfAMerge(base: Value, overlay: Value, path: seq<string>, text: string)
    ensures At(overlay, path) == Some(Leaf(text)) ==> At(Merge(base, overlay), path) == Some(Leaf(text))
    ensures At(base, path) == Some(Leaf(text)) && At(overlay, path).None? ==>
              (At(Merge(base, overlay), path) == Some(Leaf(text)) <==> !Shadows(overlay, path))
    ensures At(Merge(base, overlay), path) == Some(Leaf(text)) ==>
              At(overlay, path) == Some(Leaf(text)) || (At(overlay, path).None? && At(base, path) == Some(Leaf(text)))
  {
    MergedAt(base, overlay, path);
  }

  // ------------------------------------------------------------------------------- algebra

  lemma {:induction false} MergeIdempotent(v: Value)
    ensures Merge(v, v) == v
    decreases v
  {
    if v.Table? {
      forall k | k in v.entries ensures Merge(v.entries[k], v.entries[k]) == v.entries[k] {
        MergeIdempotent(v.entries[k]);
      }
      assert Merge(v, v).entries == v.entries;
    }
  }

  const EMPTY := Table(map[])

  /** The empty table is neutral on tables, on either side; over a leaf it wins. */
  lemma EmptyIsNeutral(v: Value)
    ensures v.Table? ==> Merge(EMPTY, v) == v && Merge(v, EMPTY) == v
    ensures v.Leaf? ==> Merge(EMPTY, v) == v && Merge(v, EMPTY) == EMPTY
  {
    if v.Table? {
      assert Merge(EMPTY, v).entries == v.entries;
      assert Merge(v, EMPTY).entries == v.entries;
    }
  }

  /** `c` already says something at every leaf of `a` and every table below both is covered in turn. */
  predicate Covered(a: Value, c: Value)
    decreases a
  {
    a.Leaf? || c.Leaf? || forall k | k in a.entries :: k in c.entries && Covered(a.entries[k], c.entries[k])
  }

  lemma {:induction false} CoveredExactly(a: Value, c: Value)
    ensures Merge(a, c) == c <==> Covered(a, c)
    decreases a
  {
    if a.Table? && c.Table? {
      forall k | k in a.entries && k in c.entries
        ensures Merge(a.entries[k], c.entries[k]) == c.entries[k] <==> Covered(a.entries[k], c.entries[k])
      {
        CoveredExactly(a.entries[k], c.entries[k]);
      }
      var m := Merge(a, c);
      if Covered(a, c) {
        assert m.entries == c.entries;
      } else {
        var k :| k in a.entries && !(k in c.entries && Covered(a.entries[k], c.entries[k]));
        assert k in m.entries;
      }
    }
  }

  /** Grouping matters here: a leaf between two tables, the outer one of which leaves something of the inner one
      uncovered. */
  ghost predicate Clash(a: Value, b: Value, c: Value, path: seq<string>) {
    && At(a, path).Some? && At(b, path).Some? && At(c, path).Some?
    && At(a, path).value.Table? && At(b, path).value.Leaf? && At(c, path).value.Table?
    && !Covered(At(a, path).value, At(c, path).value)
  }

  /** The same by recursion. */
  predicate Free(a: Value, b: Value, c: Value)
    decreases a
  {
    if a.Table? && b.Table? && c.Table? then
      forall k | k in a.entries && k in b.entries && k in c.entries :: Free(a.entries[k], b.entries[k], c.entries[k])
    else a.Table? && b.Leaf? && c.Table? ==> Covered(a, c)
  }

  lemma {:induction false} FreeIsNoClash(a: Value, b: Value, c: Value)
    ensures Free(a, b, c) <==> forall path :: !Clash(a, b, c, path)
    decreases a
  {
    if a.Table? && b.Table? && c.Table? {
      forall k | k in a.entries && k in b.entries && k in c.entries
        ensures Free(a.entries[k], b.entries[k], c.entries[k])
                <==> forall path :: !Clash(a.entries[k], b.entries[k], c.entries[k], path)
      {
        FreeIsNoClash(a.entries[k], b.entries[k], c.entries[k]);
      }
      hide Covered, Free;
      forall path ensures Clash(a, b, c, path) <==> path != [] && ClashBelow(a, b, c, path[0], path[1..]) {}
      if k, path :| k in a.entries && k in b.entries && k in c.entries
                    && Clash(a.entries[k], b.entries[k], c.entries[k], path) {
        assert ([k] + path)[1..] == path;
        assert Clash(a, b, c, [k] + path);
      }
    } else {
      assert Clash(a, b, c, []) <==> a.Table? && b.Leaf? && c.Table? && !Covered(a, c);
    }
  }

  ghost predicate ClashBelow(a: Value, b: Value, c: Value, k: string, path: seq<string>) {
    && a.Table? && b.Table? && c.Table? && k in a.entries && k in b.entries && k in c.entries
    && Clash(a.entries[k], b.entries[k], c.entries[k], path)
  }

  /** Merging is associative exactly where nothing clashes. */
  lemma AssociativeExactly(a: Value, b: Value, c: Value)
    ensures Merge(Merge(a, b), c) == Merge(a, Merge(b, c)) <==> forall path :: !Clash(a, b, c, path)
  {
    FreeIsNoClash(a, b, c);
    AssociativeIfFree(a, b, c);
  }

  lemma {:induction false} AssociativeIfFree(a: Value, b: Value, c: Value)
    ensures Merge(Merge(a, b), c) == Merge(a, Merge(b, c)) <==> Free(a, b, c)
    decreases a
  {
    if a.Table? && b.Table? && c.Table? {
      forall k | k in a.entries && k in b.entries && k in c.entries
        ensures Merge(Merge(a.entries[k], b.entries[k]), c.entries[k])
                == Merge(a.entries[k], Merge(b.entries[k], c.entries[k]))
                <==> Free(a.entries[k], b.entries[k], c.entries[k])
      {
        AssociativeIfFree(a.entries[k], b.entries[k], c.entries[k]);
      }
      AssociativeTables(a, b, c);
    } else if a.Table? && b.Leaf? && c.Table? {
      CoveredExactly(a, c);
    }
  }

  lemma MergeEntry(a: Value, b: Value, k: string)
    requires a.Table? && b.Table?
    ensures Merge(a, b).Table? && (k in Merge(a, b).entries <==> k in a.entries || k in b.entries)
    ensures k in a.entries && k !in b.entries ==> Merge(a, b).entries[k] == a.entries[k]
    ensures k !in a.entries && k in b.entries ==> Merge(a, b).entries[k] == b.entries[k]
    ensures k in a.entries && k in b.entries ==> Merge(a, b).entries[k] == Merge(a.entries[k], b.entries[k])
  {
  }

  /** Grouping does not matter under the key `k`. */
  ghost predicate AgreeAt(a: Value, b: Value, c: Value, k: string)
    requires a.Table? && b.Table? && c.Table?
  {
    k in a.entries && k in b.entries && k in c.entries ==>
      Merge(Merge(a.entries[k], b.entries[k]), c.entries[k]) == Merge(a.entries[k], Merge(b.entries[k], c.entries[k]))
  }

  lemma AssociativeEntry(a: Value, b: Value, c: Value, k: string)
    requires a.Table? && b.Table? && c.Table?
    ensures Merge(Merge(a, b), c).Table? && Merge(a, Merge(b, c)).Table?
    ensures k in Merge(Merge(a, b), c).entries <==> k in Merge(a, Merge(b, c)).entries
    ensures k in Merge(Merge(a, b), c).entries ==>
              (Merge(Merge(a, b), c).entries[k] == Merge(a, Merge(b, c)).entries[k] <==> AgreeAt(a, b, c, k))
    ensures k in a.entries ==> k in Merge(Merge(a, b), c).entries
    ensures k !in a.entries ==> AgreeAt(a, b, c, k)
  {
    hide Merge;
    MergeEntry(a, b, k);
    MergeEntry(b, c, k);
    MergeEntry(Merge(a, b), c, k);
    MergeEntry(a, Merge(b, c), k);
  }

  lemma AssociativeTables(a: Value, b: Value, c: Value)
    requires a.Table? && b.Table? && c.Table?
    ensures Merge(Merge(a, b), c) == Merge(a, Merge(b, c)) <==> forall k | k in a.entries :: AgreeAt(a, b, c, k)
  {
    hide Merge, AgreeAt;
    var l, r := Merge(Merge(a, b), c), Merge(a, Merge(b, c));
    AssociativeEntry(a, b, c, "");
    forall k
      ensures k in l.entries <==> k in r.entries
      ensures k in l.entries ==>
                (l.entries[k] == r.entries[k] <==> AgreeAt(a, b, c, k))
      ensures k in a.entries ==> k in l.entries
      ensures k !in a.entries ==> AgreeAt(a, b, c, k)
    {
      AssociativeEntry(a, b, c, k);
    }
    assert l == r <==> l.entries == r.entries;
    assert l.entries == r.entries <==> forall k | k in l.entries :: l.entries[k] == r.entries[k];
  }

  /** In particular when no path leads to a table in one argument and to a leaf in another. */
  lemma AssociativeWhenShapesAgree(a: Value, b: Value, c: Value)
    requires forall path | At(a, path).Some? && At(b, path).Some? ::
               At(a, path).value.Table? == At(b, path).value.Table?
    ensures Merge(Merge(a, b), c) == Merge(a, Merge(b, c))
  {
    AssociativeExactly(a, b, c);
  }

  /** Three profiles whose grouping matters. */
  lemma GroupingCanMatter()
    ensures var a, b, c := Table(map["x" := Table(map["y" := Leaf("1")])]), Table(map["x" := Leaf("2")]),
                           Table(map["x" := EMPTY]);
            Merge(Merge(a, b), c) != Merge(a, Merge(b, c))
  {
    var a, b, c := Table(map["x" := Table(map["y" := Leaf("1")])]), Table(map["x" := Leaf("2")]),
                   Table(map["x" := EMPTY]);
    assert !Covered(a.entries["x"], EMPTY) by { assert "y" in a.entries["x"].entries; }
    assert At(a, ["x"]) == Some(a.entries["x"]) && At(b, ["x"]) == Some(Leaf("2")) && At(c, ["x"]) == Some(EMPTY);
    assert Clash(a, b, c, ["x"]);
    AssociativeExactly(a, b, c);
  }
}
