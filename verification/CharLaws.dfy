/** What trimming and splitting into words mean. */
module CharLaws {
  import opened Chars

  predicate Blank(s: string) { forall i | 0 <= i < |s| :: IsWhitespace(s[i]) }

  /** A run of other characters. */
  predicate IsWord(s: string) { s != "" && forall i | 0 <= i < |s| :: !IsWhitespace(s[i]) }

  lemma {:induction false} TrimLeftDrops(s: string) returns (a: string)
    ensures s == a + TrimLeft(s) && Blank(a)
  {
    if s != "" && IsWhitespace(s[0]) {
      var rest := s[1..];
      a := TrimLeftDrops(rest);
      a := [s[0]] + a;
      assert s == [s[0]] + rest;
    } else {
      a := "";
    }
  }

  lemma {:induction false} TrimRightDrops(s: string) returns (b: string)
    ensures s == TrimRight(s) + b && Blank(b)
  {
    if s != "" && IsWhitespace(s[|s| - 1]) {
      var rest := s[..|s| - 1];
      b := TrimRightDrops(rest);
      b := b + [s[|s| - 1]];
      assert s == rest + [s[|s| - 1]];
    } else {
      b := "";
    }
  }

  /** Trimming removes whitespace at both ends, and all of it. */
  lemma TrimExactly(s: string) returns (a: string, b: string)
    ensures Trimmed(Trim(s)) && s == a + Trim(s) + b && Blank(a) && Blank(b)
  {
    a := TrimLeftDrops(s);
    var t := TrimLeft(s);
    b := TrimRightDrops(t);
    var r := TrimRight(t);
    assert r <= t && Trimmed(r);
    hide *;
    assert a + r + b == a + (r + b);
  }

  // ------------------------------------------------------------------------------------ words

  lemma {:induction false} TrimLeftBlank(a: string, b: string)
    requires Blank(a)
    ensures TrimLeft(a + b) == TrimLeft(b)
    decreases |a|
  {
    if a == "" {
      assert a + b == b;
    } else {
      assert (a + b)[0] == a[0] && (a + b)[1..] == a[1..] + b;
      TrimLeftBlank(a[1..], b);
    }
  }

  lemma WordsBlank(a: string, b: string)
    requires Blank(a)
    ensures Words(a + b) == Words(b)
  {
    TrimLeftBlank(a, b);
  }

  lemma {:induction false} WordLengthOf(w: string, b: string)
    requires (forall i | 0 <= i < |w| :: !IsWhitespace(w[i])) && (b == "" || IsWhitespace(b[0]))
    ensures WordLength(w + b) == |w|
  {
    if w == "" {
      assert w + b == b;
    } else {
      assert (w + b)[0] == w[0] && (w + b)[1..] == w[1..] + b;
      WordLengthOf(w[1..], b);
    }
  }

  /** A word, then whitespace or nothing. */
  lemma WordsFirst(w: string, b: string)
    requires IsWord(w) && (b == "" || IsWhitespace(b[0]))
    ensures Words(w + b) == [w] + Words(b)
  {
    WordLengthOf(w, b);
    assert (w + b)[0] == w[0];
    assert TrimLeft(w + b) == w + b;
    assert (w + b)[..|w|] == w && (w + b)[|w|..] == b;
  }

  lemma NoWords()
    ensures Words("") == []
  {
  }

  lemma {:induction false} WordLengthSplits(s: string) returns (w: string, b: string)
    ensures s == w + b && |w| == WordLength(s) && (forall i | 0 <= i < |w| :: !IsWhitespace(w[i]))
    ensures b == "" || IsWhitespace(b[0])
  {
    if s != "" && !IsWhitespace(s[0]) {
      var rest := s[1..];
      w, b := WordLengthSplits(rest);
      w := [s[0]] + w;
      assert s == [s[0]] + rest;
    } else {
      w, b := "", s;
    }
  }

  lemma WordsUnfold(s: string)
    ensures var t := TrimLeft(s);
            Words(s) == if t == "" then [] else [t[..WordLength(t)]] + Words(t[WordLength(t)..])
  {
    hide TrimLeft, WordLength;
  }

  lemma WordIsThere(s: string)
    requires TrimLeft(s) != ""
    ensures WordLength(TrimLeft(s)) > 0
  {
    TrimLeftStarts(s);
  }

  lemma {:induction false} TrimLeftStarts(s: string)
    ensures TrimLeft(s) == "" || !IsWhitespace(TrimLeft(s)[0])
  {
    if s != "" && IsWhitespace(s[0]) { TrimLeftStarts(s[1..]); }
  }

  /** A text is blank, or whitespace, a word, and the rest. */
  lemma FirstWord(s: string) returns (a: string, w: string, b: string)
    ensures if TrimLeft(s) == "" then Blank(s) && Words(s) == []
            else
              && s == a + w + b && Blank(a) && IsWord(w) && (b == "" || IsWhitespace(b[0]))
              && Words(s) == [w] + Words(b)
  {
    a := TrimLeftDrops(s);
    var t := TrimLeft(s);
    w, b := WordLengthSplits(t);
    WordsUnfold(s);
    if t == "" {
      assert a + "" == a;
    } else {
      WordIsThere(s);
      assert IsWord(w);
      hide *;
      assert t[..|w|] == w && t[|w|..] == b;
      assert a + w + b == a + (w + b);
    }
  }

  /** Whitespace separates words. */
  lemma {:induction false} WordsBreak(s: string, c: char, b: string)
    requires IsWhitespace(c)
    ensures Words(s + [c] + b) == Words(s) + Words(b)
    decreases |s|
  {
    var x, w, rest := FirstWord(s);
    hide Words, TrimLeft, IsWhitespace;
    if TrimLeft(s) == "" {
      WordsBlank(s + [c], b);
      assert [] + Words(b) == Words(b);
    } else {
      assert s + [c] + b == x + (w + (rest + [c] + b));
      WordsBlank(x, w + (rest + [c] + b));
      assert (rest + [c] + b)[0] == if rest == "" then c else rest[0];
      WordsFirst(w, rest + [c] + b);
      WordsBreak(rest, c, b);
      assert [w] + (Words(rest) + Words(b)) == [w] + Words(rest) + Words(b);
    }
  }

  /** Words are runs of other characters. */
  lemma {:induction false} WordsAreWords(s: string)
    ensures forall w | w in Words(s) :: IsWord(w)
    decreases |s|
  {
    var x, w, rest := FirstWord(s);
    hide Words, TrimLeft, IsWhitespace;
    if TrimLeft(s) != "" { WordsAreWords(rest); }
  }

  lemma {:induction false} WordsBlankEnd(s: string, b: string)
    requires Blank(b)
    ensures Words(s + b) == Words(s)
    decreases |b|
  {
    hide Words, IsWhitespace;
    if b == "" {
      assert s + b == s;
    } else {
      assert s + b == s + [b[0]] + b[1..];
      WordsBreak(s, b[0], b[1..]);
      WordsBlankEnd("", b[1..]);
      NoWords();
      assert "" + b[1..] == b[1..] && Words(s) + [] == Words(s);
    }
  }

  lemma WordsOfTrim(s: string)
    ensures Words(Trim(s)) == Words(s)
  {
    var a, b := TrimExactly(s);
    assert s == a + (Trim(s) + b);
    WordsBlank(a, Trim(s) + b);
    WordsBlankEnd(Trim(s), b);
  }

  /** Words joined with single spaces are found again. */
  lemma {:induction false} WordsOfJoin(ws: seq<string>)
    requires forall w | w in ws :: IsWord(w)
    ensures Words(Join(ws, " ")) == ws
    decreases |ws|
  {
    hide Words, IsWord;
    if ws == [] {
      NoWords();
    } else {
      var w, rest := ws[0], ws[1..];
      assert w in ws && ws == [w] + rest;
      if rest == [] {
        OneWord(w);
      } else {
        OneWord(w);
        WordsBreak(w, ' ', Join(rest, " "));
        WordsOfJoin(rest);
        assert Join(ws, " ") == w + [' '] + Join(rest, " ");
      }
    }
  }

  lemma OneWord(w: string)
    requires IsWord(w)
    ensures Words(w) == [w]
  {
    WordsFirst(w, "");
    NoWords();
    assert w + "" == w && [w] + [] == [w];
  }
}
