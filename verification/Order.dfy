/** Orders the program relies on: byte-wise string order (the key order of every `BTreeMap`)
    and the stable sorts of the standard library. */
module Order {

  datatype Option<+T> = None | Some(value: T)

  predicate StrLt(a: string, b: string) {
    b != "" && (a == "" || a[0] < b[0] || (a[0] == b[0] && StrLt(a[1..], b[1..])))
  }

  predicate StrLe(a: string, b: string) { a == b || StrLt(a, b) }

  lemma {:induction false} StrTotal(a: string, b: string)
    ensures StrLe(a, b) || StrLe(b, a)
    ensures !(StrLt(a, b) && StrLt(b, a)) && !StrLt(a, a)
  {
    if a != "" {
      StrTotal(a[1..], a[1..]);
      if b != "" && a[0] == b[0] {
        StrTotal(a[1..], b[1..]);
        assert a == [a[0]] + a[1..] && b == [b[0]] + b[1..];
      }
    }
  }

  lemma {:induction false} StrTrans(a: string, b: string, c: string)
    requires StrLe(a, b) && StrLe(b, c)
    ensures StrLe(a, c)
    ensures StrLt(a, b) || StrLt(b, c) ==> StrLt(a, c)
  {
    if a != "" && StrLt(a, b) && StrLt(b, c) && a[0] == b[0] == c[0] {
      StrTrans(a[1..], b[1..], c[1..]);
    }
  }

  /** The first difference decides, and a proper prefix comes first. */
  lemma {:induction false} StrLtExactly(a: string, b: string)
    ensures StrLt(a, b) <==> a < b || exists n :: 0 <= n < |a| && n < |b| && a[..n] == b[..n] && a[n] < b[n]
  {
    if a != "" && b != "" {
      if a[0] == b[0] {
        var x, y := a[1..], b[1..];
        StrLtExactly(x, y);
        assert a == [a[0]] + x && b == [b[0]] + y;
        if n :| 0 <= n < |x| && n < |y| && x[..n] == y[..n] && x[n] < y[n] {
          assert a[..n + 1] == [a[0]] + x[..n] && b[..n + 1] == [b[0]] + y[..n];
        }
        if n :| 0 <= n < |a| && n < |b| && a[..n] == b[..n] && a[n] < b[n] {
          assert x[..n - 1] == a[..n][1..] && y[..n - 1] == b[..n][1..];
          assert x[n - 1] == a[n] && y[n - 1] == b[n];
        }
      } else {
        assert a[..0] == b[..0];
      }
    }
  }

  lemma StrLeIsTotal()
    ensures Total(StrLe)
    ensures forall a, b | StrLe(a, b) && StrLe(b, a) :: a == b
  {
    forall a, b ensures (StrLe(a, b) || StrLe(b, a)) && !(StrLt(a, b) && StrLt(b, a)) { StrTotal(a, b); }
    forall a, b, c | StrLe(a, b) && StrLe(b, c) ensures StrLe(a, c) { StrTrans(a, b, c); }
  }

  ghost predicate Total<T(!new)>(le: (T, T) -> bool) {
    && (forall a, b :: le(a, b) || le(b, a))
    && (forall a, b, c | le(a, b) && le(b, c) :: le(a, c))
  }

  ghost predicate Sorted<T>(s: seq<T>, le: (T, T) -> bool) {
    forall i, j | 0 <= i < j < |s| :: le(s[i], s[j])
  }

  ghost predicate NoDup<T>(s: seq<T>) {
    forall i, j | 0 <= i < j < |s| :: s[i] != s[j]
  }

  /** Insertion keeps the new element before its equals, which is what makes `Sort` stable. */
  function Insert<T>(x: T, s: seq<T>, le: (T, T) -> bool): (r: seq<T>)
    ensures multiset(r) == multiset{x} + multiset(s)
  {
    if s == [] || le(x, s[0]) then [x] + s
    else
      assert s == [s[0]] + s[1..];
      [s[0]] + Insert(x, s[1..], le)
  }

  function Sort<T>(s: seq<T>, le: (T, T) -> bool): (r: seq<T>)
    ensures multiset(r) == multiset(s)
    ensures |r| == |s|
  {
    if s == [] then []
    else
      assert s == [s[0]] + s[1..];
      var r := Insert(s[0], Sort(s[1..], le), le);
      assert |r| == |multiset(r)|;
      r
  }

  lemma {:induction false} InsertSorted<T(!new)>(x: T, s: seq<T>, le: (T, T) -> bool)
    requires Total(le) && Sorted(s, le)
    ensures Sorted(Insert(x, s, le), le)
  {
    if s != [] && !le(x, s[0]) {
      InsertSorted(x, s[1..], le);
      var r := Insert(x, s[1..], le);
      forall y | y in r ensures le(s[0], y) {
        assert y in multiset(r);
      }
    }
  }

  lemma {:induction false} SortSorted<T(!new)>(s: seq<T>, le: (T, T) -> bool)
    requires Total(le)
    ensures Sorted(Sort(s, le), le)
  {
    if s != [] {
      SortSorted(s[1..], le);
      InsertSorted(s[0], Sort(s[1..], le), le);
    }
  }

  /** Sorting a sorted sequence changes nothing. */
  lemma {:induction false} SortIdentity<T>(s: seq<T>, le: (T, T) -> bool)
    requires Sorted(s, le)
    ensures Sort(s, le) == s
  {
    if s != [] { SortIdentity(s[1..], le); }
  }

  lemma TailMultiset<T>(s: seq<T>)
    requires s != []
    ensures multiset(s[1..]) == multiset(s) - multiset{s[0]}
  {
    assert s == [s[0]] + s[1..];
  }

  lemma SameHead<T>(a: seq<T>, b: seq<T>, le: (T, T) -> bool)
    requires Sorted(a, le) && Sorted(b, le) && multiset(a) == multiset(b) && a != []
    requires forall x, y | x in a && y in a && le(x, y) && le(y, x) :: x == y
    ensures b != [] && a[0] == b[0]
    ensures multiset(a[1..]) == multiset(b[1..])
  {
    MultisetMembers(a, b);
    assert a[0] in b;
    var i :| 0 <= i < |b| && b[i] == a[0];
    assert b[0] in a;
    var j :| 0 <= j < |a| && a[j] == b[0];
    assert i == 0 || le(b[0], b[i]);
    assert j == 0 || le(a[0], a[j]);
    TailMultiset(a);
    TailMultiset(b);
  }

  /** Two sorted sequences of the same elements agree when the order separates the elements. */
  lemma {:induction false} SortedUnique<T(!new)>(a: seq<T>, b: seq<T>, le: (T, T) -> bool)
    requires Sorted(a, le) && Sorted(b, le) && multiset(a) == multiset(b)
    requires forall x, y | x in a && y in a && le(x, y) && le(y, x) :: x == y
    ensures a == b
  {
    assert |a| == |multiset(a)| == |multiset(b)| == |b|;
    if a != [] {
      SameHead(a, b, le);
      assert forall x | x in a[1..] :: x in a;
      SortedUnique(a[1..], b[1..], le);
      assert a == [a[0]] + a[1..] && b == [b[0]] + b[1..];
    }
  }

  lemma MultisetMembers<T>(a: seq<T>, b: seq<T>)
    requires multiset(a) == multiset(b)
    ensures forall x :: x in a <==> x in b
  {
    forall x ensures x in a <==> x in b { assert x in a <==> x in multiset(a); assert x in b <==> x in multiset(b); }
  }

  lemma {:induction false} LeastExists(s: set<string>) returns (x: string)
    requires s != {}
    ensures x in s && forall y | y in s :: StrLe(x, y)
    decreases |s|
  {
    x :| x in s;
    StrLeIsTotal();
    if s != {x} {
      assert s - {x} != {};
      var z := LeastExists(s - {x});
      if !StrLe(x, z) { x := z; }
      assert forall y | y in s :: y == x || y in s - {x} || StrLe(z, y);
    }
  }

  lemma {:induction false} SubsetSize<T>(a: set<T>, b: set<T>)
    requires a <= b
    ensures |a| <= |b|
  {
    if a != {} {
      var x :| x in a;
      SubsetSize(a - {x}, b - {x});
    }
  }

  predicate IsLeast(x: string, s: set<string>) { x in s && forall y | y in s :: StrLe(x, y) }

  lemma LeastUnique(s: set<string>)
    requires s != {}
    ensures exists x :: IsLeast(x, s)
    ensures forall x, y | IsLeast(x, s) && IsLeast(y, s) :: x == y
  {
    var x := LeastExists(s);
    assert IsLeast(x, s);
    StrLeIsTotal();
  }

  /** The keys of a `BTreeMap`, or the elements of a `BTreeSet`, in iteration order. */
  function Ascending(s: set<string>): (r: seq<string>)
    ensures forall x :: x in r <==> x in s
    ensures NoDup(r)
    ensures |r| == |s|
    decreases |s|
  {
    if s == {} then []
    else
      LeastUnique(s);
      var x :| IsLeast(x, s);
      [x] + Ascending(s - {x})
  }

  lemma {:induction false} AscendingSorted(s: set<string>)
    ensures Sorted(Ascending(s), StrLe)
    decreases |s|
  {
    if s != {} {
      LeastUnique(s);
      var x :| IsLeast(x, s);
      AscendingSorted(s - {x});
    }
  }
}
