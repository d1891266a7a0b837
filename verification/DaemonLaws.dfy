/** What the stream client guarantees: splitting the stream does not matter, every callback comes at most once, and a
    call ends with exactly its own frames. */
module DaemonLaws {
  import opened Order
  import opened Daemon

  function Concat(chunks: seq<string>): string { if chunks == [] then "" else chunks[0] + Concat(chunks[1..]) }

  /** What follows the first line that does not parse. */
  function AfterBad(parse: Parser, t: string): Option<string>
    decreases |t|
  {
    var n := Newline(t);
    if n == |t| then None
    else if t[..n] == "" || parse(t[..n]).Some? then AfterBad(parse, t[n + 1..])
    else Some(t[n + 1..])
  }

  /** What follows the last complete line. */
  function Left(t: string): string
    decreases |t|
  {
    var n := Newline(t);
    if n == |t| then t else Left(t[n + 1..])
  }

  /** Everything but the unread text. */
  function Seen(c: Conn): Conn { c.(buffer := "") }

  predicate Inert(c: Conn) { !c.handshake && c.pending.None? && c.subscription.None? }

  lemma {:induction false} NewlineFirst(a: string, b: string)
    ensures Newline(a) < |a| ==> Newline(a + b) == Newline(a)
  {
    if a != "" && a[0] != '\n' {
      assert (a + b)[1..] == a[1..] + b;
      NewlineFirst(a[1..], b);
    }
  }

  lemma LineFirst(a: string, b: string)
    requires Newline(a) < |a|
    ensures Newline(a + b) == Newline(a) < |a + b|
    ensures (a + b)[..Newline(a)] == a[..Newline(a)] && (a + b)[Newline(a) + 1..] == a[Newline(a) + 1..] + b
  {
    hide Newline;
    NewlineFirst(a, b);
    SplitFirst(a, b, Newline(a));
  }

  lemma SplitFirst(a: string, b: string, n: nat)
    requires n < |a|
    ensures (a + b)[..n] == a[..n] && (a + b)[n + 1..] == a[n + 1..] + b
  {
  }

  lemma TakeIgnoresBuffer(c: Conn, f: Frame, t: string)
    ensures Take(c.(buffer := t), f) == Take(c, f).(buffer := t) && Take(c, f).buffer == c.buffer
  {
  }

  // ------------------------------------------------------------------------- reading in parts

  lemma {:induction false} GoodThenMore(parse: Parser, c: Conn, b: string)
    requires AfterBad(parse, c.buffer).None?
    ensures Fed(parse, Drain(parse, c), b) == Fed(parse, c, b)
    ensures Drain(parse, c).buffer == Left(c.buffer)
    decreases |c.buffer|
  {
    hide Drain, Take;
    var a := c.buffer;
    DrainUnfolds(parse, c);
    DrainUnfolds(parse, c.(buffer := a + b));
    var n := Newline(a);
    if n < |a| {
      LineFirst(a, b);
      var next := c.(buffer := a[n + 1..]);
      if a[..n] == "" {
        GoodThenMore(parse, next, b);
      } else {
        var f := parse(a[..n]).value;
        TakeIgnoresBuffer(next, f, a[n + 1..] + b);
        TakeIgnoresBuffer(next, f, a[n + 1..]);
        GoodThenMore(parse, Take(next, f), b);
      }
    }
  }

  lemma {:induction false} BadThenMore(parse: Parser, c: Conn, b: string)
    requires AfterBad(parse, c.buffer).Some?
    ensures Inert(Drain(parse, c)) && Drain(parse, c).buffer == AfterBad(parse, c.buffer).value
    ensures Fed(parse, c, b) == Drain(parse, c).(buffer := AfterBad(parse, c.buffer).value + b)
    decreases |c.buffer|
  {
    hide Drain, Take;
    var a := c.buffer;
    DrainUnfolds(parse, c);
    DrainUnfolds(parse, c.(buffer := a + b));
    var n := Newline(a);
    LineFirst(a, b);
    var next := c.(buffer := a[n + 1..]);
    if a[..n] == "" {
      BadThenMore(parse, next, b);
    } else if parse(a[..n]).Some? {
      var f := parse(a[..n]).value;
      TakeIgnoresBuffer(next, f, a[n + 1..] + b);
      TakeIgnoresBuffer(next, f, a[n + 1..]);
      BadThenMore(parse, Take(next, f), b);
    }
  }

  lemma InertTakes(c: Conn, f: Frame)
    requires Inert(c)
    ensures Take(c, f) == c
  {
  }

  lemma InertFails(c: Conn, reason: string)
    requires Inert(c)
    ensures Failed(c, reason) == c
  {
    assert c.log + [] + [] + [] == c.log;
  }

  lemma {:induction false} InertReads(parse: Parser, c: Conn)
    requires Inert(c)
    ensures Seen(Drain(parse, c)) == Seen(c) && Inert(Drain(parse, c))
    ensures if Newline(c.buffer) == |c.buffer| then Drain(parse, c) == c else |Drain(parse, c).buffer| < |c.buffer|
    decreases |c.buffer|
  {
    hide Drain, Take, Failed;
    DrainUnfolds(parse, c);
    var n := Newline(c.buffer);
    if n < |c.buffer| {
      var line, next := c.buffer[..n], c.(buffer := c.buffer[n + 1..]);
      if parse(line).Some? { InertTakes(next, parse(line).value); }
      InertFails(next, INVALID_JSON);
      if line == "" || parse(line).Some? { InertReads(parse, next); }
    }
  }

  lemma FedTwice(parse: Parser, c: Conn, a: string, b: string)
    ensures Seen(Fed(parse, Fed(parse, c, a), b)) == Seen(Fed(parse, c, a + b))
    ensures AfterBad(parse, c.buffer + a).None? ==> Fed(parse, Fed(parse, c, a), b) == Fed(parse, c, a + b)
    ensures AfterBad(parse, c.buffer + a).Some? ==>
              var r := AfterBad(parse, c.buffer + a).value + b;
              Fed(parse, c, a + b).buffer == r
              && if Newline(r) == |r| then Fed(parse, Fed(parse, c, a), b) == Fed(parse, c, a + b)
                 else |Fed(parse, Fed(parse, c, a), b).buffer| < |r|
  {
    hide Drain, AfterBad, Newline;
    var d := c.(buffer := c.buffer + a);
    assert c.buffer + (a + b) == c.buffer + a + b;
    assert Fed(parse, d, b) == Fed(parse, c, a + b);
    if AfterBad(parse, d.buffer).None? {
      GoodThenMore(parse, d, b);
    } else {
      BadThenMore(parse, d, b);
      InertReads(parse, Drain(parse, d).(buffer := AfterBad(parse, d.buffer).value + b));
    }
  }

  /** However the stream is split, the same callbacks are invoked in the same order and the same requests remain:
      good lines and bad. */
  lemma {:induction false} SplittingIsInvisible(parse: Parser, c: Conn, chunks: seq<string>)
    requires chunks != [] || Newline(c.buffer) == |c.buffer|
    ensures Seen(FedAll(parse, c, chunks)) == Seen(Fed(parse, c, Concat(chunks)))
    decreases |chunks|
  {
    if chunks == [] {
      assert c.buffer + "" == c.buffer;
      DrainUnfolds(parse, c);
    } else if |chunks| == 1 {
      assert chunks[0] + "" == chunks[0];
    } else {
      hide Drain, Fed, Seen;
      SplittingIsInvisible(parse, Fed(parse, c, chunks[0]), chunks[1..]);
      FedTwice(parse, c, chunks[0], Concat(chunks[1..]));
    }
  }

  // -------------------------------------------------------------------- and when even the buffer

  /** No line that fails to parse is followed by another complete line. */
  predicate Calm(parse: Parser, t: string) {
    var rest := AfterBad(parse, t);
    rest.None? || Newline(rest.value) == |rest.value|
  }

  lemma {:induction false} LeftOver(parse: Parser, u: string, b: string)
    requires AfterBad(parse, u).None?
    ensures AfterBad(parse, u + b) == AfterBad(parse, Left(u) + b)
    ensures Newline(Left(u)) == |Left(u)|
    decreases |u|
  {
    var n := Newline(u);
    hide Newline;
    if n < |u| {
      LineFirst(u, b);
      LeftOver(parse, u[n + 1..], b);
    }
  }

  lemma {:induction false} BadStays(parse: Parser, u: string, b: string)
    requires AfterBad(parse, u).Some?
    ensures AfterBad(parse, u + b) == Some(AfterBad(parse, u).value + b)
    decreases |u|
  {
    var n := Newline(u);
    LineFirst(u, b);
    if u[..n] == "" || parse(u[..n]).Some? { BadStays(parse, u[n + 1..], b); }
  }

  lemma NoLineNoBad(parse: Parser, t: string)
    requires Newline(t) == |t|
    ensures Calm(parse, t)
  {
  }

  /** After one chunk of a calm stream, what remains is calm too. */
  lemma CalmAfter(parse: Parser, c: Conn, a: string, b: string)
    requires Calm(parse, c.buffer + (a + b))
    ensures Calm(parse, Fed(parse, c, a).buffer + b)
    ensures Newline(Fed(parse, c, a).buffer) == |Fed(parse, c, a).buffer|
    ensures AfterBad(parse, c.buffer + a).Some? ==>
              var r := AfterBad(parse, c.buffer + a).value + b; Newline(r) == |r|
  {
    hide Drain, AfterBad, Newline;
    var d := c.(buffer := c.buffer + a);
    assert c.buffer + (a + b) == d.buffer + b;
    if AfterBad(parse, d.buffer).None? {
      GoodThenMore(parse, d, "");
      LeftOver(parse, d.buffer, b);
    } else {
      BadThenMore(parse, d, "");
      BadStays(parse, d.buffer, b);
      var r := AfterBad(parse, d.buffer).value;
      NoLineNoBad(parse, r + b);
      NewlineFirst(r, b);
    }
  }

  lemma {:induction false} CalmSplits(parse: Parser, c: Conn, chunks: seq<string>)
    requires Newline(c.buffer) == |c.buffer| && Calm(parse, c.buffer + Concat(chunks))
    ensures FedAll(parse, c, chunks) == Fed(parse, c, Concat(chunks))
    decreases |chunks|
  {
    if chunks == [] {
      assert c.buffer + "" == c.buffer;
      DrainUnfolds(parse, c);
    } else {
      hide Drain, Fed, AfterBad, Calm;
      var a, b := chunks[0], Concat(chunks[1..]);
      CalmAfter(parse, c, a, b);
      FedTwice(parse, c, a, b);
      CalmSplits(parse, Fed(parse, c, a), chunks[1..]);
    }
  }

  /** A text that is one complete line, then more. */
  lemma OneLine(parse: Parser, line: string, b: string)
    requires line != "" && Newline(line) == |line| - 1
    ensures var body := line[..|line| - 1];
            AfterBad(parse, line + b) == if body == "" || parse(body).Some? then AfterBad(parse, b) else Some(b)
  {
    LineFirst(line, b);
    assert line[|line|..] + b == b;
  }

  lemma FirstLine(t: string) returns (line: string, b: string)
    requires Newline(t) < |t|
    ensures t == line + b && line != "" && Newline(line) == |line| - 1
  {
    var n := Newline(t);
    line, b := t[..n + 1], t[n + 1..];
    assert line[n] == t[n] && forall i | 0 <= i < n :: line[i] == t[i];
    hide Newline;
    NewlineIs(line, n);
  }

  /** The text up to the first line that does not parse, that line included, and what follows. */
  lemma {:induction false} CutAfterBad(parse: Parser, t: string) returns (u: string, rest: string)
    requires AfterBad(parse, t).Some?
    ensures t == u + rest && AfterBad(parse, t) == Some(rest) && AfterBad(parse, u) == Some("")
    ensures u != "" && u[|u| - 1] == '\n'
    decreases |t|
  {
    var line, b := FirstLine(t);
    var body := line[..|line| - 1];
    OneLine(parse, line, b);
    hide AfterBad, Newline;
    if body == "" || parse(body).Some? {
      var v;
      v, rest := CutAfterBad(parse, b);
      OneLine(parse, line, v);
      u := line + v;
      Regroup(line, v, rest);
    } else {
      u, rest := line, b;
      BadLine(parse, line);
    }
  }

  lemma Regroup(a: string, b: string, c: string)
    requires b != ""
    ensures a + (b + c) == a + b + c && a + b != "" && (a + b)[|a + b| - 1] == b[|b| - 1]
  {
  }

  lemma BadLine(parse: Parser, line: string)
    requires line != "" && Newline(line) == |line| - 1
    requires var body := line[..|line| - 1]; body != "" && parse(body).None?
    ensures AfterBad(parse, line) == Some("") && line[|line| - 1] == '\n'
  {
    hide AfterBad;
    OneLine(parse, line, "");
    assert line + "" == line;
  }

  lemma {:induction false} NewlineIs(t: string, n: nat)
    requires n < |t| && t[n] == '\n' && forall i | 0 <= i < n :: t[i] != '\n'
    ensures Newline(t) == n
  {
    if n > 0 { NewlineIs(t[1..], n - 1); }
  }

  /** A stream that is not calm has a splitting that leaves other text unread: after the bad line. */
  lemma NotCalmDiffers(parse: Parser, c: Conn, s: string) returns (chunks: seq<string>)
    requires Newline(c.buffer) == |c.buffer| && !Calm(parse, c.buffer + s)
    ensures Concat(chunks) == s && FedAll(parse, c, chunks) != Fed(parse, c, s)
  {
    var a, rest := SplitAfterBad(parse, c.buffer, s);
    chunks := [a, rest];
    assert chunks[1..] == [rest] && chunks[1..][1..] == [];
    hide Drain, AfterBad, Newline, Fed;
    assert Concat([rest]) == rest by { assert rest + "" == rest; }
    assert "" + rest == rest;
    FedTwice(parse, c, a, rest);
    assert FedAll(parse, c, chunks) == FedAll(parse, Fed(parse, c, a), [rest]) == Fed(parse, Fed(parse, c, a), rest);
  }

  lemma SplitAfterBad(parse: Parser, buffer: string, s: string) returns (a: string, rest: string)
    requires Newline(buffer) == |buffer| && !Calm(parse, buffer + s)
    ensures a + rest == s && AfterBad(parse, buffer + a) == Some("") && Newline(rest) < |rest|
  {
    var u;
    u, rest := CutAfterBad(parse, buffer + s);
    assert forall i | 0 <= i < |buffer| :: buffer[i] != '\n';
    hide AfterBad, Newline;
    a := CutIn(buffer, s, u, rest);
  }

  lemma CutIn(buffer: string, s: string, u: string, rest: string) returns (a: string)
    requires buffer + s == u + rest && u != "" && u[|u| - 1] == '\n' && '\n' !in buffer
    ensures u == buffer + a && a + rest == s
  {
    var t := buffer + s;
    assert t[|u| - 1] == '\n' && forall i | 0 <= i < |buffer| :: t[i] == buffer[i];
    assert |u| > |buffer|;
    assert buffer == u[..|buffer|] by { assert t[..|buffer|] == buffer; }
    a := u[|buffer|..];
    assert s == t[|buffer|..];
  }

  /** Even the unread text is the same for every splitting exactly when no line that fails to parse is followed by
      another complete line. */
  lemma SplittingIsExact(parse: Parser, c: Conn, s: string)
    requires Newline(c.buffer) == |c.buffer|
    ensures (forall chunks | Concat(chunks) == s :: FedAll(parse, c, chunks) == Fed(parse, c, s))
            <==> Calm(parse, c.buffer + s)
  {
    hide Fed, FedAll, Concat, Calm, Newline;
    if Calm(parse, c.buffer + s) {
      forall chunks | Concat(chunks) == s ensures FedAll(parse, c, chunks) == Fed(parse, c, s) {
        CalmSplits(parse, c, chunks);
      }
    } else {
      var chunks := NotCalmDiffers(parse, c, s);
    }
  }

  // ---------------------------------------------------------------------- callbacks come once

  /** What happens to a connection; an abort rejects the promise of the pending call itself. */
  datatype Op = Chunk(text: string) | DoCall | DoSubscribe | Abort | Lost(reason: string)

  predicate Refused(c: Conn) { c.pending.Some? || c.subscription.Some? }

  function IdOf(e: Event): Option<nat> { if e.Opened? then None else Some(e.id) }

  /** The abort listener is there until the promise is settled, and runs once. */
  ghost predicate Abortable(c: Conn) { c.pending.Some? && Aborted(c.pending.value.id) !in c.log }

  ghost function After(parse: Parser, c: Conn, op: Op): Conn {
    match op
    case Chunk(text) => Fed(parse, c, text)
    case DoCall => if Refused(c) then c else c.(nextId := c.nextId + 1, pending := Some(Pending(c.nextId, [])))
    case DoSubscribe => if Refused(c) then c else c.(nextId := c.nextId + 1, subscription := Some(c.nextId))
    case Abort => if Abortable(c) then Logged(c, Aborted(c.pending.value.id)) else c
    case Lost(reason) => Failed(c, reason)
  }

  ghost function Run(parse: Parser, c: Conn, ops: seq<Op>): Conn
    decreases |ops|
  {
    if ops == [] then c else Run(parse, After(parse, c, ops[0]), ops[1..])
  }

  /** May `b` not come after `a`? The handshake is answered once; a call's `resolve` or `reject` runs once and nothing
      of that id follows; a subscriber hears nothing after its end; an abort listener runs once. */
  predicate Clash(a: Event, b: Event) {
    || (a.Opened? && b.Opened?)
    || (!a.Opened? && IdOf(a) == IdOf(b) && (a.Settled? || a.Ended? || (a.Aborted? && !b.Settled?)
                                             || (a.Item? && !b.Item? && !b.Ended?)))
  }

  ghost predicate Orderly(log: seq<Event>) { forall i, j | 0 <= i < j < |log| :: !Clash(log[i], log[j]) }

  ghost predicate OnlyAborted(log: seq<Event>, id: nat) {
    forall i | 0 <= i < |log| && IdOf(log[i]) == Some(id) :: log[i].Aborted?
  }

  ghost predicate OnlyItems(log: seq<Event>, id: nat) {
    forall i | 0 <= i < |log| && IdOf(log[i]) == Some(id) :: log[i].Item?
  }

  ghost predicate Inv(c: Conn) {
    && Orderly(c.log)
    && (forall i | 0 <= i < |c.log| && !c.log[i].Opened? :: c.log[i].id < c.nextId)
    && (c.handshake ==> forall i | 0 <= i < |c.log| :: !c.log[i].Opened?)
    && (c.pending.Some? ==> c.pending.value.id < c.nextId && OnlyAborted(c.log, c.pending.value.id))
    && (c.subscription.Some? ==>
          c.pending.None? && c.subscription.value < c.nextId && OnlyItems(c.log, c.subscription.value))
  }

  lemma OrderlyMore(log: seq<Event>, e: Event)
    requires Orderly(log) && forall i | 0 <= i < |log| :: !Clash(log[i], e)
    ensures Orderly(log + [e])
  {
    hide Clash;
    var all := log + [e];
    forall i, j | 0 <= i < j < |all| ensures !Clash(all[i], all[j]) {
      assert all[i] == log[i];
    }
  }

  lemma SubscriptionInv(c: Conn, f: Frame)
    requires Inv(c) && c.subscription.Some?
    ensures Inv(ToSubscription(c, c.subscription.value, f))
  {
    var d := ToSubscription(c, c.subscription.value, f);
    if d.log != c.log { OrderlyMore(c.log, d.log[|c.log|]); }
    hide Orderly, Clash;
  }

  lemma PendingInv(c: Conn, f: Frame)
    requires Inv(c) && c.pending.Some?
    ensures Inv(ToPending(c, c.pending.value, f))
  {
    var d := ToPending(c, c.pending.value, f);
    if d.log != c.log { OrderlyMore(c.log, d.log[|c.log|]); }
    hide Orderly, Clash;
  }

  lemma TakeInv(c: Conn, f: Frame)
    requires Inv(c)
    ensures Inv(Take(c, f))
  {
    if c.handshake {
      OrderlyMore(c.log, Take(c, f).log[|c.log|]);
      hide Orderly, Clash, Handled;
    } else {
      if c.subscription.Some? { SubscriptionInv(c, f); }
      if c.pending.Some? { PendingInv(c, f); }
      hide Inv, ToSubscription, ToPending;
    }
  }

  lemma FailedInv(c: Conn, reason: string)
    requires Inv(c)
    ensures Inv(Failed(c, reason))
  {
    var log := c.log;
    if c.handshake {
      OrderlyMore(log, Opened(Some(reason)));
      log := log + [Opened(Some(reason))];
    }
    if c.pending.Some? {
      OrderlyMore(log, Settled(c.pending.value.id, Rejected(reason)));
      log := log + [Settled(c.pending.value.id, Rejected(reason))];
    }
    if c.subscription.Some? {
      OrderlyMore(log, Ended(c.subscription.value, Some(reason)));
      log := log + [Ended(c.subscription.value, Some(reason))];
    }
    assert Failed(c, reason).log == log;
  }

  lemma {:induction false} DrainInv(parse: Parser, c: Conn)
    requires Inv(c)
    ensures Inv(Drain(parse, c))
    decreases |c.buffer|
  {
    hide Drain, Take, Failed, Orderly;
    DrainUnfolds(parse, c);
    var n := Newline(c.buffer);
    if n < |c.buffer| {
      var line, next := c.buffer[..n], c.(buffer := c.buffer[n + 1..]);
      assert Inv(next);
      hide Inv;
      if line == "" {
        DrainInv(parse, next);
      } else if parse(line).Some? {
        TakeInv(next, parse(line).value);
        TakeIgnoresBuffer(next, parse(line).value, "");
        DrainInv(parse, Take(next, parse(line).value));
      } else {
        FailedInv(next, INVALID_JSON);
      }
    }
  }

  lemma AfterInv(parse: Parser, c: Conn, op: Op)
    requires Inv(c)
    ensures Inv(After(parse, c, op))
  {
    hide Drain, Failed, Orderly;
    match op {
      case Chunk(text) =>
        assert Inv(c.(buffer := c.buffer + text));
        DrainInv(parse, c.(buffer := c.buffer + text));
      case Abort => if Abortable(c) { OrderlyMore(c.log, Aborted(c.pending.value.id)); }
      case Lost(reason) => FailedInv(c, reason);
      case _ =>
    }
  }

  lemma {:induction false} RunInv(parse: Parser, c: Conn, ops: seq<Op>)
    requires Inv(c)
    ensures Inv(Run(parse, c, ops))
    decreases |ops|
  {
    hide Inv, After;
    if ops != [] {
      AfterInv(parse, c, ops[0]);
      RunInv(parse, After(parse, c, ops[0]), ops[1..]);
    }
  }

  /** Over every run of chunks, calls, subscriptions, aborts and losses: the handshake is answered at most once, every
      call settles at most once and never before its abort, and no subscriber hears anything after its end. */
  lemma CallbacksComeOnce(parse: Parser, ops: seq<Op>)
    ensures Orderly(Run(parse, OPENING, ops).log)
  {
    RunInv(parse, OPENING, ops);
  }

  // ----------------------------------------------------------------- a request and its own frames

  /** The frames of the complete lines, blank ones aside. */
  function Frames(parse: Parser, t: string): seq<Frame>
    requires AfterBad(parse, t).None?
    decreases |t|
  {
    var n := Newline(t);
    if n == |t| then [] else (if t[..n] == "" then [] else [parse(t[..n]).value]) + Frames(parse, t[n + 1..])
  }

  function TakeAll(c: Conn, fs: seq<Frame>): Conn
    decreases |fs|
  {
    if fs == [] then c else TakeAll(Take(c, fs[0]), fs[1..])
  }

  lemma {:induction false} TakeAllIgnoresBuffer(c: Conn, fs: seq<Frame>, t: string)
    ensures TakeAll(c.(buffer := t), fs) == TakeAll(c, fs).(buffer := t)
    decreases |fs|
  {
    hide Take;
    if fs != [] {
      TakeIgnoresBuffer(c, fs[0], t);
      TakeAllIgnoresBuffer(Take(c, fs[0]), fs[1..], t);
    }
  }

  lemma {:induction false} DrainTakes(parse: Parser, c: Conn)
    requires AfterBad(parse, c.buffer).None?
    ensures Drain(parse, c) == TakeAll(c, Frames(parse, c.buffer)).(buffer := Left(c.buffer))
    decreases |c.buffer|
  {
    hide Drain, Take;
    DrainUnfolds(parse, c);
    var n := Newline(c.buffer);
    if n < |c.buffer| {
      var line, rest := c.buffer[..n], c.buffer[n + 1..];
      var next := c.(buffer := rest);
      var fs := Frames(parse, rest);
      TakeAllIgnoresBuffer(c, fs, rest);
      if line == "" {
        assert Frames(parse, c.buffer) == fs;
        DrainTakes(parse, next);
      } else {
        var f := parse(line).value;
        TakeIgnoresBuffer(next, f, rest);
        TakeIgnoresBuffer(c, f, rest);
        TakeAllIgnoresBuffer(Take(c, f), fs, rest);
        DrainTakes(parse, Take(next, f));
        assert Frames(parse, c.buffer) == [f] + fs && ([f] + fs)[1..] == fs;
      }
    }
  }

  function Own(fs: seq<Frame>, id: nat): seq<Frame> {
    if fs == [] then [] else (if fs[0].id == Some(id) then [fs[0]] else []) + Own(fs[1..], id)
  }

  function ItemOf(f: Frame): seq<Value> { if f.item.Some? then [f.item.value] else [] }

  /** The items of the frames that carry one. */
  function Items(fs: seq<Frame>): seq<Value> {
    if fs == [] then [] else ItemOf(fs[0]) + Items(fs[1..])
  }

  /** The frames that end a call: an error, or without an item an end or a result. */
  predicate Closes(f: Frame) { f.error.Some? || (f.item.None? && (f.end || f.ok.Some?)) }

  function FirstClose(fs: seq<Frame>): (n: nat)
    ensures n <= |fs| && (forall i | 0 <= i < n :: !Closes(fs[i])) && (n < |fs| ==> Closes(fs[n]))
  {
    if fs == [] || Closes(fs[0]) then 0 else 1 + FirstClose(fs[1..])
  }

  /** What an error frame says, or the standard text when it says nothing. */
  function ErrorText(error: string): string { if error != "" then error else "Mosaico daemon request failed." }

  function Verdict(f: Frame, items: seq<Value>): Outcome
    requires Closes(f)
  {
    if f.error.Some? then Rejected(ErrorText(f.error.value))
    else if f.end then Streamed(items) else Resolved(f.ok.value)
  }

  lemma {:induction false} IdleTakesNothing(c: Conn, fs: seq<Frame>)
    requires Inert(c)
    ensures TakeAll(c, fs) == c
    decreases |fs|
  {
    if fs != [] {
      InertTakes(c, fs[0]);
      IdleTakesNothing(c, fs[1..]);
    }
  }

  lemma OneFrame(c: Conn, f: Frame)
    requires !c.handshake && c.pending.Some? && c.subscription.None?
    ensures var p := c.pending.value;
            && (f.id != Some(p.id) ==> Take(c, f) == c)
            && (f.id == Some(p.id) && !Closes(f) ==>
                  Take(c, f) == c.(pending := Some(p.(items := p.items + ItemOf(f)))))
            && (f.id == Some(p.id) && Closes(f) ==>
                  Take(c, f) == c.(pending := None, log := c.log + [Settled(p.id, Verdict(f, p.items))]))
  {
    var p := c.pending.value;
    assert p.items + [] == p.items;
  }

  /** A call ends with the first of its own frames that closes it, and a streamed call resolves to the items of its own
      frames before that one, in order; frames of other ids change nothing. */
  lemma {:induction false} CallGetsItsFrames(c: Conn, fs: seq<Frame>)
    requires !c.handshake && c.pending.Some? && c.subscription.None?
    ensures var p, own := c.pending.value, Own(fs, c.pending.value.id);
            var n := FirstClose(own);
            TakeAll(c, fs)
            == if n == |own| then c.(pending := Some(p.(items := p.items + Items(own))))
               else c.(pending := None, log := c.log + [Settled(p.id, Verdict(own[n], p.items + Items(own[..n])))])
    decreases |fs|
  {
    var p := c.pending.value;
    if fs == [] {
      assert p.items + Items([]) == p.items;
    } else {
      var f := fs[0];
      var own, rest := Own(fs, p.id), Own(fs[1..], p.id);
      OneFrame(c, f);
      hide Take, Verdict;
      if f.id != Some(p.id) {
        assert own == rest;
        CallGetsItsFrames(c, fs[1..]);
      } else {
        assert own == [f] + rest && own[1..] == rest;
        if Closes(f) {
          assert own[..0] == [] && p.items + [] == p.items;
          IdleTakesNothing(Take(c, f), fs[1..]);
        } else {
          CallGetsItsFrames(Take(c, f), fs[1..]);
          ItemsStep(f, rest, FirstClose(rest), p.items);
        }
      }
    }
  }

  lemma ItemsStep(f: Frame, rest: seq<Frame>, n: nat, items: seq<Value>)
    requires n <= |rest|
    ensures items + ItemOf(f) + Items(rest) == items + Items([f] + rest)
    ensures items + ItemOf(f) + Items(rest[..n]) == items + Items(([f] + rest)[..n + 1])
  {
    hide *;
    assert ([f] + rest)[..n + 1] == [f] + rest[..n];
    ItemsFirst(f, rest, items);
    ItemsFirst(f, rest[..n], items);
  }

  lemma ItemsFirst(f: Frame, rest: seq<Frame>, items: seq<Value>)
    ensures items + ItemOf(f) + Items(rest) == items + Items([f] + rest)
  {
    assert ([f] + rest)[1..] == rest;
    assert Items([f] + rest) == ItemOf(f) + Items(rest);
    hide Items, ItemOf;
  }

  /** From bytes to outcome: however a stream of good lines is split, the pending call ends as its own frames say. */
  lemma StreamSettlesTheCall(parse: Parser, c: Conn, chunks: seq<string>)
    requires Newline(c.buffer) == |c.buffer| && AfterBad(parse, c.buffer + Concat(chunks)).None?
    requires !c.handshake && c.pending.Some? && c.subscription.None?
    ensures var p := c.pending.value;
            var own := Own(Frames(parse, c.buffer + Concat(chunks)), p.id);
            var n, d := FirstClose(own), FedAll(parse, c, chunks);
            && d.log == c.log + (if n == |own| then [] else [Settled(p.id, Verdict(own[n], p.items + Items(own[..n])))])
            && d.pending == (if n == |own| then Some(p.(items := p.items + Items(own))) else None)
  {
    var t := c.buffer + Concat(chunks);
    hide Drain, TakeAll, Own, FirstClose, Verdict, Frames, AfterBad, Newline;
    CalmSplits(parse, c, chunks);
    var fs := Frames(parse, t);
    DrainTakes(parse, c.(buffer := t));
    TakeAllIgnoresBuffer(c, fs, t);
    CallGetsItsFrames(c, fs);
  }
}
