/** Channel paths (`src/channel_ref.rs`): `#root/child/grandchild` for a channel, and back. */
module ChannelRef {
  import opened Order
  import opened Chars
  import opened Fabric
  import opened Groups

  const MAX_CHANNEL_REF_DEPTH := 32

  /** `Channel::human_name`. */
  function HumanName(g: Projection, h: string): Option<string>
    requires Known(g, h)
  {
    var name := Trim(ChannelOf(g, h).name);
    if name == "" || (ChannelOf(g, h).parent != "" && name == h) then None else Some(name)
  }

  function Descend(reference: string, descendants: seq<string>): string
    decreases |descendants|
  {
    if descendants == [] then reference else Descend(reference + "/" + descendants[0], descendants[1..])
  }

  function FormatChannelRef(workspace: string, descendants: seq<string>): string {
    Descend(RootRef(workspace), descendants)
  }

  function Reverse(s: seq<string>): seq<string> { if s == [] then [] else Reverse(s[1..]) + [s[0]] }

  datatype Path = Path(root: string, names: seq<string>)

  /** The root above `h` and the names down to `h`, looking at `n` channels at most. */
  function PathTo(g: Projection, h: string, n: nat): Option<Path>
    decreases n
  {
    if n == 0 || !Known(g, h) then None
    else if IsRoot(g, h) then Some(Path(h, []))
    else if HumanName(g, h).None? then None
    else
      var above := PathTo(g, ChannelOf(g, h).parent, n - 1);
      if above.None? then None else Some(Path(above.value.root, above.value.names + [HumanName(g, h).value]))
  }

  /** What `full_channel_ref` returns: the empty string where there is no path. */
  function RefOf(g: Projection, h: string): string {
    var path := PathTo(g, h, MAX_CHANNEL_REF_DEPTH);
    if path.None? then "" else FormatChannelRef(path.value.root, path.value.names)
  }

  method FullChannelRef(g: Projection, h: string) returns (reference: string)
    ensures reference == RefOf(g, h)
  {
    hide FormatChannelRef, HumanName, IsRoot, Known;
    var parts, cur := [], h;
    var i := 0;
    ExtendedNone(PathTo(g, h, MAX_CHANNEL_REF_DEPTH));
    while i < MAX_CHANNEL_REF_DEPTH
      invariant 0 <= i <= MAX_CHANNEL_REF_DEPTH
      invariant PathTo(g, h, MAX_CHANNEL_REF_DEPTH)
                == Extended(PathTo(g, cur, MAX_CHANNEL_REF_DEPTH - i), Reverse(parts))
    {
      RootsAreKnown(g, cur);
      if !Known(g, cur) { return ""; }
      if IsRoot(g, cur) {
        assert [] + Reverse(parts) == Reverse(parts);
        return FormatChannelRef(cur, Reverse(parts));
      }
      var name := HumanName(g, cur);
      if name.None? { return ""; }
      ReversePush(parts, name.value);
      ExtendedTwice(PathTo(g, ChannelOf(g, cur).parent, MAX_CHANNEL_REF_DEPTH - i - 1), name.value, Reverse(parts));
      parts := parts + [name.value];
      cur := ChannelOf(g, cur).parent;
      i := i + 1;
    }
    return "";
  }

  function Extended(path: Option<Path>, names: seq<string>): Option<Path> {
    if path.None? then None else Some(Path(path.value.root, path.value.names + names))
  }

  lemma ExtendedNone(path: Option<Path>)
    ensures Extended(path, []) == path
  {
    if path.Some? { assert path.value.names + [] == path.value.names; }
  }

  lemma ExtendedTwice(path: Option<Path>, name: string, names: seq<string>)
    ensures Extended(Extended(path, [name]), names) == Extended(path, [name] + names)
  {
    if path.Some? { assert path.value.names + [name] + names == path.value.names + ([name] + names); }
  }

  lemma {:induction false} ReversePush(s: seq<string>, x: string)
    ensures Reverse(s + [x]) == [x] + Reverse(s)
  {
    if s == [] {
      assert [] + [x] == [x];
    } else {
      ReversePush(s[1..], x);
      assert (s + [x])[1..] == s[1..] + [x];
    }
  }

  // ----------------------------------------------------------------------------- and back

  /** `channel_id_for_name`: the first match in id order. */
  function FirstMatch(g: Projection, ids: seq<string>, parent: string, name: string): Option<string> {
    if ids == [] then None
    else if Known(g, ids[0]) && ChannelOf(g, ids[0]).parent == parent && ChannelOf(g, ids[0]).name == name
            then Some(ids[0])
    else FirstMatch(g, ids[1..], parent, name)
  }

  function ChannelIdForName(g: Projection, parent: string, name: string): Option<string> {
    if parent == "" || name == "" then None else FirstMatch(g, Ascending(g.Keys), parent, name)
  }

  /** Following names down from a channel. */
  function Walk(g: Projection, h: string, names: seq<string>): Option<string>
    decreases |names|
  {
    if names == [] then Some(h)
    else
      var child := ChannelIdForName(g, h, names[0]);
      if child.None? then None else Walk(g, child.value, names[1..])
  }

  function Trims(segments: seq<string>): seq<string> {
    seq(|segments|, i requires 0 <= i < |segments| => Trim(segments[i]))
  }

  predicate DoubleSlash(s: string) { exists i | 0 <= i < |s| - 1 :: s[i] == '/' && s[i + 1] == '/' }

  /** `split_create_path`: the parent's path and the new channel's name; `None` where it reports an error. */
  function SplitCreatePath(input: string): Option<(string, string)> {
    var path := Trim(input);
    if path == "" || path[0] != '#' || path[|path| - 1] == '/' || DoubleSlash(path) then None
    else
      var segments := Trims(Segments(path[1..]));
      if "" in segments || |segments| < 2 then None
      else Some((FormatChannelRef(Join(segments[..|segments| - 1], "/"), []), segments[|segments| - 1]))
  }
}
