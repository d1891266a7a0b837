/** The element tree that is read from a printed document. */
module DocumentTree {
  import opened Chars
  import opened Fabric
  import opened Xml
  import opened Document
  import opened DocumentReader

  // ----------------------------------------------------------------------- nodes as elements

  function Put(e: Element, n: Node): Element
    decreases n, 1
  {
    match n
    case Escaped(s) => AddText(e, s)
    case Literal(s) => AddText(e, s)
    case Elem(name, attrs, kids) => AddKid(e, PutAll(Element(name, attrs, "", [], ""), kids))
    case Empty(name, attrs) => AddKid(e, Element(name, attrs, "", [], ""))
  }

  function PutAll(e: Element, ns: seq<Node>): Element
    decreases ns, 0
  {
    if ns == [] then e else PutAll(Put(e, ns[0]), ns[1..])
  }

  function Leaf(name: string, attrs: seq<Attribute>): Element { Element(name, attrs, "", [], "") }

  /** The element of a tag with its contents. */
  function Whole(name: string, attrs: seq<Attribute>, kids: seq<Node>): Element { PutAll(Leaf(name, attrs), kids) }

  lemma TextTwice(e: Element, a: string, b: string)
    ensures AddText(AddText(e, a), b) == AddText(e, a + b) && AddText(e, "") == e
  {
    if e.kids == [] {
      assert e.text + a + b == e.text + (a + b) && e.text + "" == e.text;
    } else {
      var n := |e.kids| - 1;
      assert e.kids[n].tail + a + b == e.kids[n].tail + (a + b) && e.kids[n].tail + "" == e.kids[n].tail;
      assert e.kids[n := e.kids[n].(tail := e.kids[n].tail + "")] == e.kids;
    }
  }

  lemma {:induction false} FeedAppend(open: seq<Element>, a: seq<Event>, b: seq<Event>)
    ensures FeedAll(open, a + b) == FeedAll(FeedAll(open, a), b)
    decreases |a|
  {
    hide Feed;
    if a == [] {
      assert a + b == b;
    } else {
      FeedAppend(Feed(open, a[0]), a[1..], b);
      assert (a + b)[1..] == a[1..] + b;
    }
  }

  lemma FeedOne(open: seq<Element>, event: Event)
    ensures FeedAll(open, [event]) == Feed(open, event)
  {
    hide Feed;
    assert [event][1..] == [];
  }

  lemma {:induction false} FeedText(open: seq<Element>, e: Element, s: string)
    ensures FeedAll(open + [e], Characters(s)) == open + [AddText(e, s)]
    decreases |s|
  {
    if s == "" {
      TextTwice(e, "", "");
    } else {
      var c, rest := s[0], s[1..];
      var next := AddText(e, [c]);
      assert Feed(open + [e], Char(c)) == open + [next];
      assert Characters(s)[1..] == Characters(rest);
      hide AddText;
      FeedText(open, next, rest);
      TextTwice(e, [c], rest);
      assert [c] + rest == s;
    }
  }

  lemma FeedTag(open: seq<Element>, e: Element, name: string, attrs: seq<Attribute>)
    ensures Feed(open + [e], Open(name, attrs)) == open + [e] + [Leaf(name, attrs)]
  {
  }

  lemma FeedEnd(open: seq<Element>, e: Element, kid: Element, name: string)
    ensures Feed(open + [e] + [kid], Event.Close(name)) == open + [AddKid(e, kid)]
  {
  }

  lemma {:induction false} FeedNode(open: seq<Element>, e: Element, n: Node)
    ensures FeedAll(open + [e], Events(n)) == open + [Put(e, n)]
    decreases n, 1
  {
    match n {
      case Escaped(s) => FeedText(open, e, s);
      case Literal(s) => FeedText(open, e, s);
      case Elem(name, attrs, kids) =>
        var leaf, whole := Leaf(name, attrs), Whole(name, attrs, kids);
        FeedTag(open, e, name, attrs);
        FeedOne(open + [e], Open(name, attrs));
        FeedNodes(open + [e], leaf, kids);
        FeedEnd(open, e, whole, name);
        FeedOne(open + [e] + [whole], Event.Close(name));
        FeedAppend(open + [e], [Open(name, attrs)] + EventsAll(kids), [Event.Close(name)]);
        FeedAppend(open + [e], [Open(name, attrs)], EventsAll(kids));
      case Empty(name, attrs) =>
        var leaf := Leaf(name, attrs);
        FeedTag(open, e, name, attrs);
        FeedOne(open + [e], Open(name, attrs));
        FeedEnd(open, e, leaf, name);
        FeedOne(open + [e] + [leaf], Event.Close(name));
        FeedAppend(open + [e], [Open(name, attrs)], [Event.Close(name)]);
    }
  }

  lemma {:induction false} FeedNodes(open: seq<Element>, e: Element, ns: seq<Node>)
    ensures FeedAll(open + [e], EventsAll(ns)) == open + [PutAll(e, ns)]
    decreases ns, 0
  {
    hide Put, Events;
    if ns != [] {
      FeedNode(open, e, ns[0]);
      FeedNodes(open, Put(e, ns[0]), ns[1..]);
      FeedAppend(open + [e], Events(ns[0]), EventsAll(ns[1..]));
    }
  }

  /** A document's tree has one root, with the document's contents. */
  lemma RootOf(name: string, attrs: seq<Attribute>, kids: seq<Node>)
    ensures Roots(Events(Elem(name, attrs, kids))) == [Whole(name, attrs, kids)]
  {
    FeedNode([], PAGE, Elem(name, attrs, kids));
    assert [] + [PAGE] == [PAGE];
    hide FeedAll, Events, PutAll;
    assert PAGE.kids + [Whole(name, attrs, kids)] == [Whole(name, attrs, kids)];
  }

  lemma {:induction false} PutAppend(e: Element, a: seq<Node>, b: seq<Node>)
    ensures PutAll(e, a + b) == PutAll(PutAll(e, a), b)
    decreases |a|
  {
    hide Put;
    if a == [] {
      assert a + b == b;
    } else {
      PutAppend(Put(e, a[0]), a[1..], b);
      assert (a + b)[1..] == a[1..] + b;
    }
  }

  lemma PutOne(e: Element, n: Node)
    ensures PutAll(e, [n]) == Put(e, n)
  {
    hide Put;
    assert [n][1..] == [];
  }

  lemma {:induction false} PutKeeps(e: Element, ns: seq<Node>)
    ensures var r := PutAll(e, ns); r.name == e.name && r.attrs == e.attrs && r.tail == e.tail
    decreases |ns|
  {
    if ns != [] { PutKeeps(Put(e, ns[0]), ns[1..]); }
  }

  // ----------------------------------------------------------------- what is found in children

  ghost predicate IgnoresTail<T(!new)>(f: Element -> seq<T>) {
    forall e: Element, t: string :: f(e.(tail := t)) == f(e)
  }

  /** What `f` finds in the elements among the nodes. */
  function OfNode<T>(f: Element -> seq<T>, n: Node): seq<T> {
    match n
    case Elem(name, attrs, kids) => f(Whole(name, attrs, kids))
    case Empty(name, attrs) => f(Leaf(name, attrs))
    case _ => []
  }

  function OfNodes<T>(f: Element -> seq<T>, ns: seq<Node>): seq<T> {
    if ns == [] then [] else OfNode(f, ns[0]) + OfNodes(f, ns[1..])
  }

  lemma {:induction false} CollectMore<T>(f: Element -> seq<T>, kids: seq<Element>, kid: Element)
    ensures Collect(f, kids + [kid]) == Collect(f, kids) + f(kid)
    decreases |kids|
  {
    if kids == [] {
      assert kids + [kid] == [kid] && [kid][1..] == [];
    } else {
      var first, rest := kids[0], kids[1..];
      assert (kids + [kid])[0] == first && (kids + [kid])[1..] == rest + [kid];
      assert Collect(f, kids + [kid]) == f(first) + Collect(f, rest + [kid]);
      assert Collect(f, kids) == f(first) + Collect(f, rest);
      hide Collect;
      CollectMore(f, rest, kid);
      assert f(first) + (Collect(f, rest) + f(kid)) == f(first) + Collect(f, rest) + f(kid);
    }
  }

  lemma CollectText<T(!new)>(f: Element -> seq<T>, e: Element, s: string)
    requires IgnoresTail(f)
    ensures Collect(f, AddText(e, s).kids) == Collect(f, e.kids)
  {
    if e.kids != [] {
      var n := |e.kids| - 1;
      var front, last := e.kids[..n], e.kids[n];
      CollectMore(f, front, last);
      CollectMore(f, front, last.(tail := last.tail + s));
      assert e.kids == front + [last];
      assert AddText(e, s).kids == front + [last.(tail := last.tail + s)];
    }
  }

  lemma CollectPut<T(!new)>(f: Element -> seq<T>, e: Element, n: Node)
    requires IgnoresTail(f)
    ensures Collect(f, Put(e, n).kids) == Collect(f, e.kids) + OfNode(f, n)
  {
    match n {
      case Escaped(s) => CollectText(f, e, s); assert Collect(f, e.kids) + [] == Collect(f, e.kids);
      case Literal(s) => CollectText(f, e, s); assert Collect(f, e.kids) + [] == Collect(f, e.kids);
      case Elem(name, attrs, kids) => CollectMore(f, e.kids, Whole(name, attrs, kids));
      case Empty(name, attrs) => CollectMore(f, e.kids, Leaf(name, attrs));
    }
  }

  lemma {:induction false} CollectPutAll<T(!new)>(f: Element -> seq<T>, e: Element, ns: seq<Node>)
    requires IgnoresTail(f)
    ensures Collect(f, PutAll(e, ns).kids) == Collect(f, e.kids) + OfNodes(f, ns)
    decreases |ns|
  {
    hide Put, OfNode, IgnoresTail;
    if ns == [] {
      assert Collect(f, e.kids) + [] == Collect(f, e.kids);
    } else {
      CollectPut(f, e, ns[0]);
      CollectPutAll(f, Put(e, ns[0]), ns[1..]);
      var a, b, c := Collect(f, e.kids), OfNode(f, ns[0]), OfNodes(f, ns[1..]);
      assert a + b + c == a + (b + c);
    }
  }

  /** What is found in the children of a tag. */
  lemma CollectWhole<T(!new)>(f: Element -> seq<T>, name: string, attrs: seq<Attribute>, kids: seq<Node>)
    requires IgnoresTail(f)
    ensures Collect(f, Whole(name, attrs, kids).kids) == OfNodes(f, kids)
  {
    CollectPutAll(f, Leaf(name, attrs), kids);
    assert [] + OfNodes(f, kids) == OfNodes(f, kids);
  }

  lemma {:induction false} OfNodesAppend<T>(f: Element -> seq<T>, a: seq<Node>, b: seq<Node>)
    ensures OfNodes(f, a + b) == OfNodes(f, a) + OfNodes(f, b)
    decreases |a|
  {
    hide OfNode;
    if a == [] {
      assert a + b == b && [] + OfNodes(f, b) == OfNodes(f, b);
    } else {
      var first, rest := a[0], a[1..];
      assert (a + b)[0] == first && (a + b)[1..] == rest + b;
      assert OfNodes(f, a + b) == OfNode(f, first) + OfNodes(f, rest + b);
      assert OfNodes(f, a) == OfNode(f, first) + OfNodes(f, rest);
      hide OfNodes;
      OfNodesAppend(f, rest, b);
      assert OfNode(f, first) + (OfNodes(f, rest) + OfNodes(f, b))
             == OfNode(f, first) + OfNodes(f, rest) + OfNodes(f, b);
    }
  }

  lemma OfTwo<T>(f: Element -> seq<T>, a: Node, b: Node)
    ensures OfNodes(f, [a]) == OfNode(f, a)
    ensures OfNodes(f, [a, b]) == OfNode(f, a) + OfNode(f, b)
  {
    hide OfNode;
    assert [a][1..] == [] && [a, b][1..] == [b] && [b][1..] == [];
    assert OfNodes(f, [b]) == OfNode(f, b) + [];
    assert OfNode(f, a) + [] == OfNode(f, a) && OfNode(f, b) + [] == OfNode(f, b);
  }

  lemma {:induction false} OfEach<T, U>(f: Element -> seq<T>, g: U -> seq<Node>, h: U -> seq<T>, rows: seq<U>)
    requires forall i | 0 <= i < |rows| :: OfNodes(f, g(rows[i])) == h(rows[i])
    ensures OfNodes(f, Each(g, rows)) == Flat(h, rows)
  {
    hide OfNode;
    if rows != [] {
      OfEach(f, g, h, rows[1..]);
      OfNodesAppend(f, g(rows[0]), Each(g, rows[1..]));
    }
  }

  lemma {:induction false} TextOnly<T>(f: Element -> seq<T>, ns: seq<Node>)
    requires forall i | 0 <= i < |ns| :: ns[i].Escaped? || ns[i].Literal?
    ensures OfNodes(f, ns) == []
  {
    if ns != [] { TextOnly(f, ns[1..]); }
  }

  // ------------------------------------------------------------------------------------ lines

  lemma {:induction false} LineEndFirst(a: string, b: string)
    ensures LineEnd(a + "\n" + b) == LineEnd(a)
  {
    if a == "" {
      assert a + "\n" + b == ['\n'] + b;
    } else if a[0] != '\n' {
      assert (a + "\n" + b)[1..] == a[1..] + "\n" + b;
      LineEndFirst(a[1..], b);
    }
  }

  lemma {:induction false} LinesBreak(a: string, b: string)
    ensures LinesOf(a + "\n" + b) == LinesOf(a) + LinesOf(b)
    decreases |a|
  {
    var n, all := LineEnd(a), a + "\n" + b;
    LineEndFirst(a, b);
    hide LineEnd, TrimStart;
    var line := TrimStart(a[..n], ' ');
    var first := if line == "" then [] else [line];
    assert all[..n] == a[..n];
    if n == |a| {
      assert all[n + 1..] == b;
    } else {
      assert all[n + 1..] == a[n + 1..] + "\n" + b;
      LinesBreak(a[n + 1..], b);
      assert first + (LinesOf(a[n + 1..]) + LinesOf(b)) == first + LinesOf(a[n + 1..]) + LinesOf(b);
    }
  }

  lemma {:induction false} Indented(k: nat, s: string)
    ensures TrimStart(Spaces(k) + s, ' ') == TrimStart(s, ' ')
  {
    if k == 0 {
      assert Spaces(0) + s == s;
    } else {
      assert (Spaces(k) + s)[1..] == Spaces(k - 1) + s;
      Indented(k - 1, s);
    }
  }

  lemma {:induction false} LineEndIndented(k: nat, s: string)
    ensures LineEnd(Spaces(k) + s) == k + LineEnd(s)
  {
    if k == 0 {
      assert Spaces(0) + s == s;
    } else {
      assert (Spaces(k) + s)[1..] == Spaces(k - 1) + s;
      LineEndIndented(k - 1, s);
    }
  }

  lemma LinesUnfold(s: string, n: nat, line: string)
    requires n == LineEnd(s) && line == TrimStart(s[..n], ' ')
    ensures LinesOf(s) == (if line == "" then [] else [line]) + if n == |s| then [] else LinesOf(s[n + 1..])
  {
  }

  lemma SliceBehind(a: string, s: string, n: nat)
    requires n <= |s|
    ensures (a + s)[..|a| + n] == a + s[..n] && (n < |s| ==> (a + s)[|a| + n + 1..] == s[n + 1..])
  {
  }

  lemma LinesIndented(k: nat, s: string)
    ensures LinesOf(Spaces(k) + s) == LinesOf(s)
  {
    hide *;
    var n, a := LineEnd(s), Spaces(k);
    LineEndIndented(k, s);
    Indented(k, s[..n]);
    SliceBehind(a, s, n);
    LinesUnfold(s, n, TrimStart(s[..n], ' '));
    LinesUnfold(a + s, k + n, TrimStart(a + s[..n], ' '));
  }

  /** A text that goes on in a new line. */
  lemma LinesMore(a: string, k: nat, s: string)
    ensures LinesOf(a + ("\n" + Spaces(k) + s)) == LinesOf(a) + LinesOf(s)
  {
    assert a + ("\n" + Spaces(k) + s) == a + "\n" + (Spaces(k) + s);
    LinesBreak(a, Spaces(k) + s);
    LinesIndented(k, s);
  }

  lemma NoLines()
    ensures LinesOf("") == []
  {
  }

  lemma {:induction false} TailsMore(kids: seq<Element>, kid: Element)
    ensures TailLines(kids + [kid]) == TailLines(kids) + LinesOf(kid.tail)
    decreases |kids|
  {
    if kids == [] {
      assert kids + [kid] == [kid] && [kid][1..] == [];
    } else {
      var rest := kids[1..];
      assert (kids + [kid])[0] == kids[0] && (kids + [kid])[1..] == rest + [kid];
      TailsMore(rest, kid);
      hide LinesOf;
      assert LinesOf(kids[0].tail) + (TailLines(rest) + LinesOf(kid.tail))
          == LinesOf(kids[0].tail) + TailLines(rest) + LinesOf(kid.tail);
    }
  }

  lemma OwnLinesKid(e: Element, kid: Element)
    requires kid.tail == ""
    ensures OwnLines(AddKid(e, kid)) == OwnLines(e)
  {
    TailsMore(e.kids, kid);
    NoLines();
    hide LinesOf;
    assert TailLines(e.kids) + [] == TailLines(e.kids);
  }

  lemma OwnLinesText(e: Element, k: nat, s: string)
    ensures OwnLines(AddText(e, "\n" + Spaces(k) + s)) == OwnLines(e) + LinesOf(s)
  {
    hide LinesOf;
    var more := "\n" + Spaces(k) + s;
    if e.kids == [] {
      LinesMore(e.text, k, s);
      assert TailLines([]) == [];
    } else {
      var n := |e.kids| - 1;
      var front, last := e.kids[..n], e.kids[n];
      LinesMore(last.tail, k, s);
      TailsMore(front, last);
      TailsMore(front, last.(tail := last.tail + more));
      assert e.kids == front + [last] && AddText(e, more).kids == front + [last.(tail := last.tail + more)];
      hide TailLines;
      Regrouped(LinesOf(e.text), TailLines(front), LinesOf(last.tail), LinesOf(s));
    }
  }

  lemma Regrouped(a: seq<string>, b: seq<string>, c: seq<string>, d: seq<string>)
    ensures a + (b + (c + d)) == a + (b + c) + d
  {
  }
}
