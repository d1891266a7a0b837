/** Channel paths lead back to their channel, and creating a child splits its path into the parent's path and its
    name. */
module ChannelRefLaws {
  import opened Order
  import opened Chars
  import opened Groups
  import opened ChannelRef

  /** One path segment: not empty, no slash, nothing to trim. */
  predicate Plain(s: string) { s != "" && '/' !in s && Trimmed(s) }

  ghost predicate AllPlain(segments: seq<string>) { forall i | 0 <= i < |segments| :: Plain(segments[i]) }

  /** Root ids are segments without a leading '#'; other channels have a segment for a name, not their own id, that no
      sibling shares. */
  ghost predicate WellNamed(g: Projection) {
    && (forall h | Known(g, h) && IsRoot(g, h) :: Plain(h) && h[0] != '#')
    && (forall h | Known(g, h) && !IsRoot(g, h) :: Plain(ChannelOf(g, h).name) && ChannelOf(g, h).name != h)
    && (forall h, k | Known(g, h) && Known(g, k) && !IsRoot(g, h) && Parent(g, h) == Parent(g, k)
                      && ChannelOf(g, h).name == ChannelOf(g, k).name :: h == k)
  }

  // ------------------------------------------------------------------------ when there is a path

  /** A channel has a path exactly when fewer than `n` links lead to a root and every channel on the way has a name. */
  lemma {:induction false} PathExactly(g: Projection, h: string, n: nat)
    ensures PathTo(g, h, n).Some? <==> exists m | 0 <= m < n :: NamedClimb(g, h, m)
    decreases n
  {
    hide HumanName;
    RootsAreKnown(g, h);
    if n > 0 && Known(g, h) {
      if IsRoot(g, h) {
        assert NamedClimb(g, h, 0);
      } else {
        var p := ChannelOf(g, h).parent;
        PathExactly(g, p, n - 1);
        forall m | 0 <= m ensures HumanName(g, h).Some? && NamedClimb(g, p, m) <==> NamedClimb(g, h, m + 1) {
          ClimbStep(g, h, m);
        }
        assert !NamedClimb(g, h, 0);
        if exists m | 0 <= m < n - 1 :: NamedClimb(g, p, m) {
          var m :| 0 <= m < n - 1 && NamedClimb(g, p, m);
          assert HumanName(g, h).Some? ==> NamedClimb(g, h, m + 1);
        }
        if exists m | 0 <= m < n :: NamedClimb(g, h, m) {
          var m :| 0 <= m < n && NamedClimb(g, h, m);
          assert NamedClimb(g, p, m - 1) by { assert NamedClimb(g, h, m - 1 + 1); }
        }
      }
    } else if n > 0 {
      forall m | 0 <= m < n ensures !NamedClimb(g, h, m) {
        if Up(g, h, m).Some? && m > 0 { UpBelow(g, h, 0, m); }
      }
    }
  }

  ghost predicate NamedClimb(g: Projection, h: string, m: nat) {
    && Up(g, h, m).Some? && IsRoot(g, Up(g, h, m).value)
    && forall j | 0 <= j < m :: Named(g, Up(g, h, j))
  }

  ghost predicate Named(g: Projection, h: Option<string>) {
    h.Some? && Known(g, h.value) && HumanName(g, h.value).Some?
  }

  lemma ClimbStep(g: Projection, h: string, m: nat)
    requires Known(g, h) && !IsRoot(g, h)
    ensures HumanName(g, h).Some? && NamedClimb(g, ChannelOf(g, h).parent, m) <==> NamedClimb(g, h, m + 1)
  {
    hide HumanName;
    var p := ChannelOf(g, h).parent;
    assert Up(g, h, 0) == Some(h) && Up(g, h, 1) == Some(p);
    forall j: nat ensures Up(g, p, j) == Up(g, h, j + 1) { UpAbove(g, h, 1, j); }
    if NamedClimb(g, h, m + 1) {
      forall j | 0 <= j < m ensures Named(g, Up(g, p, j)) { assert Named(g, Up(g, h, j + 1)); }
      assert Named(g, Up(g, h, 0));
    }
    if HumanName(g, h).Some? && NamedClimb(g, p, m) {
      forall j | 0 <= j < m + 1 ensures Named(g, Up(g, h, j)) {
        if j > 0 { assert Named(g, Up(g, p, j - 1)); assert Up(g, p, j - 1) == Up(g, h, j); }
      }
    }
  }

  // ------------------------------------------------------------------------------- walking back

  lemma {:induction false} FirstMatchFinds(g: Projection, ids: seq<string>, h: string)
    requires WellNamed(g) && Known(g, h) && !IsRoot(g, h) && h in ids
    ensures FirstMatch(g, ids, ChannelOf(g, h).parent, ChannelOf(g, h).name) == Some(h)
  {
    if ids[0] != h { FirstMatchFinds(g, ids[1..], h); }
  }

  lemma NameFindsChild(g: Projection, h: string)
    requires WellNamed(g) && Known(g, h) && !IsRoot(g, h)
    ensures ChannelIdForName(g, ChannelOf(g, h).parent, ChannelOf(g, h).name) == Some(h)
    ensures HumanName(g, h) == Some(ChannelOf(g, h).name)
  {
    FirstMatchFinds(g, Ascending(g.Keys), h);
    TrimmedStays(ChannelOf(g, h).name);
  }

  lemma {:induction false} WalkMore(g: Projection, h: string, names: seq<string>, name: string)
    requires Walk(g, h, names).Some?
    ensures Walk(g, h, names + [name]) == ChannelIdForName(g, Walk(g, h, names).value, name)
    decreases |names|
  {
    hide ChannelIdForName;
    if names == [] {
      assert names + [name] == [name] && [name][1..] == [];
    } else {
      assert (names + [name])[1..] == names[1..] + [name];
      WalkMore(g, ChannelIdForName(g, h, names[0]).value, names[1..], name);
    }
  }

  lemma {:induction false} PathWalksBack(g: Projection, h: string, n: nat)
    requires WellNamed(g) && PathTo(g, h, n).Some?
    ensures var path := PathTo(g, h, n).value;
            && Walk(g, path.root, path.names) == Some(h)
            && AllPlain([path.root] + path.names) && path.root[0] != '#'
    decreases n
  {
    PathStep(g, h, n);
    hide PathTo, HumanName, ChannelIdForName, Plain, WellNamed;
    if !IsRoot(g, h) {
      var p, name := ChannelOf(g, h).parent, ChannelOf(g, h).name;
      var above := PathTo(g, p, n - 1).value;
      PathWalksBack(g, p, n - 1);
      NameFindsChild(g, h);
      hide Walk, IsRoot, Known;
      WalkMore(g, above.root, above.names, name);
      assert [above.root] + (above.names + [name]) == [above.root] + above.names + [name];
    }
  }

  /** The last step of a path, and what names it. */
  lemma PathStep(g: Projection, h: string, n: nat)
    requires WellNamed(g) && PathTo(g, h, n).Some?
    ensures Known(g, h) && n > 0
    ensures IsRoot(g, h) ==> PathTo(g, h, n) == Some(Path(h, [])) && Plain(h) && h[0] != '#'
    ensures !IsRoot(g, h) ==> Plain(ChannelOf(g, h).name) && PathTo(g, ChannelOf(g, h).parent, n - 1).Some?
    ensures !IsRoot(g, h) ==> var above := PathTo(g, ChannelOf(g, h).parent, n - 1).value;
                              PathTo(g, h, n) == Some(Path(above.root, above.names + [ChannelOf(g, h).name]))
  {
    RootsAreKnown(g, h);
    if !IsRoot(g, h) { NameFindsChild(g, h); }
  }

  // -------------------------------------------------------------------------- paths as strings

  lemma JoinPrefix(p: string, x: string, rest: seq<string>)
    ensures Join([p + x] + rest, "/") == p + Join([x] + rest, "/")
  {
    assert ([p + x] + rest)[1..] == rest && ([x] + rest)[1..] == rest;
  }

  lemma {:induction false} DescendJoins(x: string, names: seq<string>)
    ensures Descend(x, names) == Join([x] + names, "/")
    decreases |names|
  {
    if names == [] {
      assert [x] + [] == [x];
    } else {
      var a, rest := names[0], names[1..];
      DescendJoins(x + "/" + a, rest);
      JoinPrefix(x + "/", a, rest);
      assert ([x] + names)[1..] == names == [a] + rest;
    }
  }

  lemma FormatJoins(root: string, names: seq<string>)
    requires root != "" && root[0] != '#'
    ensures FormatChannelRef(root, names) == "#" + Join([root] + names, "/")
  {
    DescendJoins("#" + root, names);
    JoinPrefix("#", root, names);
  }

  lemma {:induction false} SegmentsOfOne(x: string)
    requires '/' !in x
    ensures Segments(x) == [x]
  {
    if x != "" {
      SegmentsOfOne(x[1..]);
      assert [x[0]] + x[1..] == x;
    }
  }

  lemma {:induction false} SegmentsFirst(x: string, t: string)
    requires '/' !in x
    ensures Segments(x + "/" + t) == [x] + Segments(t)
  {
    if x == "" {
      assert x + "/" + t == "/" + t && ("/" + t)[1..] == t;
    } else {
      SegmentsFirst(x[1..], t);
      assert (x + "/" + t)[1..] == x[1..] + "/" + t && (x + "/" + t)[0] == x[0];
      assert [x[0]] + x[1..] == x && ([x[1..]] + Segments(t))[1..] == Segments(t);
    }
  }

  lemma {:induction false} SegmentsJoin(segments: seq<string>)
    requires segments != [] && forall i | 0 <= i < |segments| :: '/' !in segments[i]
    ensures Segments(Join(segments, "/")) == segments
  {
    if |segments| == 1 {
      SegmentsOfOne(segments[0]);
    } else {
      SegmentsJoin(segments[1..]);
      SegmentsFirst(segments[0], Join(segments[1..], "/"));
    }
  }

  /** Resolving a path: its first segment is the root, the others are names. */
  function Resolve(g: Projection, reference: string): Option<string> {
    if reference == "" then None else var segments := Segments(reference[1..]); Walk(g, segments[0], segments[1..])
  }

  lemma RefText(g: Projection, h: string)
    requires WellNamed(g) && PathTo(g, h, MAX_CHANNEL_REF_DEPTH).Some?
    ensures var path := PathTo(g, h, MAX_CHANNEL_REF_DEPTH).value;
            RefOf(g, h) == "#" + Join([path.root] + path.names, "/")
            && Segments(RefOf(g, h)[1..]) == [path.root] + path.names
  {
    var path := PathTo(g, h, MAX_CHANNEL_REF_DEPTH).value;
    PathWalksBack(g, h, MAX_CHANNEL_REF_DEPTH);
    assert forall i | 0 <= i < |[path.root] + path.names| :: Plain(([path.root] + path.names)[i]);
    assert Plain(([path.root] + path.names)[0]);
    hide PathTo, FormatChannelRef, Join, Segments, Trimmed;
    FormatJoins(path.root, path.names);
    SegmentsJoin([path.root] + path.names);
    assert ("#" + Join([path.root] + path.names, "/"))[1..] == Join([path.root] + path.names, "/");
  }

  /** A printed path resolves to the channel it was printed for. */
  lemma PathsResolve(g: Projection, h: string)
    requires WellNamed(g) && PathTo(g, h, MAX_CHANNEL_REF_DEPTH).Some?
    ensures Resolve(g, RefOf(g, h)) == Some(h)
  {
    var path := PathTo(g, h, MAX_CHANNEL_REF_DEPTH).value;
    RefText(g, h);
    PathWalksBack(g, h, MAX_CHANNEL_REF_DEPTH);
    hide PathTo, RefOf, Join, Segments, Walk, WellNamed;
    assert ([path.root] + path.names)[1..] == path.names;
  }

  /** So no two channels share a path. */
  lemma PathsAreInjective(g: Projection, h: string, k: string)
    requires WellNamed(g) && PathTo(g, h, MAX_CHANNEL_REF_DEPTH).Some? && PathTo(g, k, MAX_CHANNEL_REF_DEPTH).Some?
    requires RefOf(g, h) == RefOf(g, k)
    ensures h == k
  {
    hide PathTo, RefOf, Resolve, WellNamed;
    PathsResolve(g, h);
    PathsResolve(g, k);
  }

  // ----------------------------------------------------------------------------- creating a child

  lemma {:induction false} LooseSlashes(s: string)
    ensures DoubleSlash(s) ==> "" in Segments(s)[1..]
    ensures s != "" && s[|s| - 1] == '/' ==> |Segments(s)| > 1 && Segments(s)[|Segments(s)| - 1] == ""
  {
    if s != "" {
      LooseSlashes(s[1..]);
      if DoubleSlash(s) {
        var i :| 0 <= i < |s| - 1 && s[i] == '/' && s[i + 1] == '/';
        if i > 0 { assert s[1..][i - 1] == '/' && s[1..][i] == '/'; }
      }
    }
  }

  lemma {:induction false} JoinEnds(segments: seq<string>)
    requires segments != [] && forall i | 0 <= i < |segments| :: segments[i] != ""
    ensures Join(segments, "/") != "" && Join(segments, "/")[0] == segments[0][0]
    ensures var last := segments[|segments| - 1]; Join(segments, "/")[|Join(segments, "/")| - 1] == last[|last| - 1]
  {
    if |segments| > 1 {
      var rest := Join(segments[1..], "/");
      assert Join(segments, "/") == segments[0] + "/" + rest;
      hide Join;
      JoinEnds(segments[1..]);
    }
  }

  lemma CanonicalShape(segments: seq<string>, path: string)
    requires segments != [] && AllPlain(segments) && path == "#" + Join(segments, "/")
    ensures Trimmed(path) && path[|path| - 1] != '/' && !DoubleSlash(path)
  {
    var t := Join(segments, "/");
    var last := segments[|segments| - 1];
    assert Plain(last) && forall i | 0 <= i < |segments| :: Plain(segments[i]);
    JoinEnds(segments);
    SegmentsJoin(segments);
    hide Join, Trimmed, DoubleSlash;
    assert path[1..] == t && path[|path| - 1] == last[|last| - 1];
    assert Segments(path)[1..] == segments[1..];
    LooseSlashes(path);
    assert Trimmed(path) by { EndsTrimmed(path, last); }
  }

  lemma EndsTrimmed(path: string, last: string)
    requires path != "" && path[0] == '#' && last != "" && Trimmed(last) && path[|path| - 1] == last[|last| - 1]
    ensures Trimmed(path)
  {
  }

  lemma SplitWith(path: string, segments: seq<string>)
    requires path != "" && path[0] == '#' && path[|path| - 1] != '/' && !DoubleSlash(path) && Trim(path) == path
    requires Trims(Segments(path[1..])) == segments && "" !in segments && |segments| >= 2
    ensures SplitCreatePath(path)
         == Some((FormatChannelRef(Join(segments[..|segments| - 1], "/"), []), segments[|segments| - 1]))
  {
    hide Trim, DoubleSlash, Trims, Segments, Join, FormatChannelRef;
  }

  lemma PlainParts(segments: seq<string>)
    requires AllPlain(segments)
    ensures forall i | 0 <= i < |segments| :: segments[i] != "" && '/' !in segments[i]
  {
    assert forall i | 0 <= i < |segments| :: Plain(segments[i]);
  }

  lemma SplitCanonical(segments: seq<string>)
    requires |segments| >= 2 && AllPlain(segments) && segments[0][0] != '#'
    ensures SplitCreatePath("#" + Join(segments, "/"))
         == Some(("#" + Join(segments[..|segments| - 1], "/"), segments[|segments| - 1]))
  {
    hide *;
    var path, rest := "#" + Join(segments, "/"), segments[..|segments| - 1];
    PlainParts(segments);
    CanonicalShape(segments, path);
    TrimmedStays(path);
    SegmentsJoin(segments);
    assert path[1..] == Join(segments, "/");
    TrimsStay(segments);
    SplitWith(path, segments);
    JoinEnds(rest);
    assert rest[0] == segments[0];
    FormatAlone(Join(rest, "/"));
  }

  lemma FormatAlone(x: string)
    requires x != "" && x[0] != '#'
    ensures FormatChannelRef(x, []) == "#" + x
  {
  }

  lemma TrimsStay(segments: seq<string>)
    requires AllPlain(segments)
    ensures Trims(segments) == segments && "" !in segments
  {
    forall i | 0 <= i < |segments| ensures Trim(segments[i]) == segments[i] {
      assert Plain(segments[i]);
      TrimmedStays(segments[i]);
    }
  }

  lemma {:induction false} PathMore(g: Projection, h: string, n: nat)
    requires PathTo(g, h, n).Some?
    ensures PathTo(g, h, n + 1) == PathTo(g, h, n)
    decreases n
  {
    hide HumanName, IsRoot;
    if !IsRoot(g, h) { PathMore(g, ChannelOf(g, h).parent, n - 1); }
  }

  /** Creating at a child's path means: its name, under the parent's own path. */
  lemma SplitInvertsPath(g: Projection, h: string)
    requires WellNamed(g) && PathTo(g, h, MAX_CHANNEL_REF_DEPTH).Some? && !IsRoot(g, h)
    ensures Known(g, h)
    ensures SplitCreatePath(RefOf(g, h)) == Some((RefOf(g, ChannelOf(g, h).parent), ChannelOf(g, h).name))
  {
    var n := MAX_CHANNEL_REF_DEPTH;
    PathStep(g, h, n);
    hide *;
    var p, name := ChannelOf(g, h).parent, ChannelOf(g, h).name;
    PathMore(g, p, n - 1);
    var above := PathTo(g, p, n).value;
    PathWalksBack(g, h, n);
    RefText(g, h);
    RefText(g, p);
    var segments := [above.root] + (above.names + [name]);
    assert segments[..|segments| - 1] == [above.root] + above.names;
    SplitCanonical(segments);
  }
}
