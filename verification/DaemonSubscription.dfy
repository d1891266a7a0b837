/** What a subscriber of the stream client hears (`integrations/pi/daemon.ts`): over every run exactly the items of its
    own frames, in order, and the end of the subscription once. */
module DaemonSubscription {
  import opened Order
  import opened Daemon
  import opened DaemonLaws

  // ------------------------------------------------------------------------ what the stream says

  /** What reaches the requests of a connection: a parsed line, or the reason the connection fails. */
  datatype Signal = Good(frame: Frame) | Broken(reason: string)

  /** What one reading takes from a text: its complete lines, up to the first that does not parse. */
  function Signals(parse: Parser, t: string): seq<Signal>
    decreases |t|
  {
    var n := Newline(t);
    if n == |t| then []
    else if t[..n] == "" then Signals(parse, t[n + 1..])
    else
      match parse(t[..n])
      case None => [Broken(INVALID_JSON)]
      case Some(f) => [Good(f)] + Signals(parse, t[n + 1..])
  }

  /** What one reading leaves unread. */
  function Unread(parse: Parser, t: string): string {
    match AfterBad(parse, t)
    case Some(rest) => rest
    case None => Left(t)
  }

  /** What one operation sends to the requests when some text is unread, and what it leaves unread. */
  function Sent(parse: Parser, unread: string, op: Op): seq<Signal> {
    match op
    case Chunk(text) => Signals(parse, unread + text)
    case Lost(reason) => [Broken(reason)]
    case _ => []
  }

  function Kept(parse: Parser, unread: string, op: Op): string {
    if op.Chunk? then Unread(parse, unread + op.text) else unread
  }

  function SignalsOf(parse: Parser, unread: string, ops: seq<Op>): seq<Signal>
    decreases |ops|
  {
    if ops == [] then [] else Sent(parse, unread, ops[0]) + SignalsOf(parse, Kept(parse, unread, ops[0]), ops[1..])
  }

  // ------------------------------------------------------------------ what a subscriber should hear

  /** The signals that concern a subscription: its own frames, and the connection's failures. */
  predicate Concerns(s: Signal, k: nat) { s.Broken? || s.frame.id == Some(k) }

  function Mine(ss: seq<Signal>, k: nat): seq<Signal> {
    if ss == [] then [] else (if Concerns(ss[0], k) then [ss[0]] else []) + Mine(ss[1..], k)
  }

  /** A failure ends a subscription, and so does a frame without an item that has an error or an end. */
  predicate Finishes(s: Signal) { s.Broken? || (s.frame.item.None? && (s.frame.error.Some? || s.frame.end)) }

  function FirstFinish(ss: seq<Signal>): (n: nat)
    ensures n <= |ss| && (forall i | 0 <= i < n :: !Finishes(ss[i])) && (n < |ss| ==> Finishes(ss[n]))
  {
    if ss == [] || Finishes(ss[0]) then 0 else 1 + FirstFinish(ss[1..])
  }

  function Failure(s: Signal): Option<string> {
    match s
    case Broken(reason) => Some(reason)
    case Good(f) => if f.error.Some? then Some(ErrorText(f.error.value)) else None
  }

  function ItemHeard(s: Signal, k: nat): seq<Event> {
    if s.Good? && s.frame.item.Some? then [Item(k, s.frame.item.value)] else []
  }

  function ItemsHeard(ss: seq<Signal>, k: nat): seq<Event> {
    if ss == [] then [] else ItemHeard(ss[0], k) + ItemsHeard(ss[1..], k)
  }

  /** Every item up to the first signal that ends the subscription, then that end. */
  function Told(own: seq<Signal>, k: nat): seq<Event> {
    var n := FirstFinish(own);
    ItemsHeard(own[..n], k) + if n == |own| then [] else [Ended(k, Failure(own[n]))]
  }

  /** The first line answers the handshake and reaches no request. */
  function AfterHandshake(ss: seq<Signal>, handshake: bool): seq<Signal> {
    if handshake && ss != [] && ss[0].Good? then ss[1..] else ss
  }

  /** The callbacks of one request. */
  function Heard(log: seq<Event>, k: nat): seq<Event> {
    if log == [] then []
    else Heard(log[..|log| - 1], k) + if IdOf(log[|log| - 1]) == Some(k) then [log[|log| - 1]] else []
  }

  lemma HeardMore(log: seq<Event>, e: Event, k: nat)
    ensures Heard(log + [e], k) == Heard(log, k) + if IdOf(e) == Some(k) then [e] else []
  {
    assert (log + [e])[..|log|] == log;
  }

  // ------------------------------------------------------------------------ reading is obeying

  function Obey(c: Conn, s: Signal): Conn {
    match s
    case Good(f) => Take(c, f)
    case Broken(reason) => Failed(c, reason)
  }

  function ObeyAll(c: Conn, ss: seq<Signal>): Conn
    decreases |ss|
  {
    if ss == [] then c else ObeyAll(Obey(c, ss[0]), ss[1..])
  }

  lemma ObeyIgnoresBuffer(c: Conn, s: Signal, t: string)
    ensures Obey(c.(buffer := t), s) == Obey(c, s).(buffer := t) && Obey(c, s).buffer == c.buffer
  {
    if s.Good? { TakeIgnoresBuffer(c, s.frame, t); }
    hide Take;
  }

  lemma {:induction false} ObeyAllIgnoresBuffer(c: Conn, ss: seq<Signal>, t: string)
    ensures ObeyAll(c.(buffer := t), ss) == ObeyAll(c, ss).(buffer := t)
    decreases |ss|
  {
    hide Obey;
    if ss != [] {
      ObeyIgnoresBuffer(c, ss[0], t);
      ObeyAllIgnoresBuffer(Obey(c, ss[0]), ss[1..], t);
    }
  }

  /** One line of a reading. */
  lemma SignalsUnfold(parse: Parser, t: string)
    ensures var n := Newline(t);
            if n == |t| then Signals(parse, t) == [] && Unread(parse, t) == t
            else
              var line, rest := t[..n], t[n + 1..];
              if line != "" && parse(line).None? then
                Signals(parse, t) == [Broken(INVALID_JSON)] && Unread(parse, t) == rest
              else
                && Unread(parse, t) == Unread(parse, rest)
                && Signals(parse, t)
                   == (if line == "" then [] else [Good(parse(line).value)]) + Signals(parse, rest)
  {
    hide Newline;
    var n := Newline(t);
    if n < |t| { assert [] + Signals(parse, t[n + 1..]) == Signals(parse, t[n + 1..]); }
  }

  lemma ObeyFirst(c: Conn, s: Signal, ss: seq<Signal>)
    ensures ObeyAll(c, [s] + ss) == ObeyAll(Obey(c, s), ss)
  {
    hide Obey;
    assert ([s] + ss)[1..] == ss;
  }

  lemma LineObeyed(c: Conn, s: Signal, ss: seq<Signal>, rest: string, u: string)
    ensures ObeyAll(Obey(c.(buffer := rest), s), ss).(buffer := u) == ObeyAll(c, [s] + ss).(buffer := u)
    ensures Obey(c.(buffer := rest), s).buffer == rest
  {
    hide Obey, ObeyAll;
    ObeyFirst(c, s, ss);
    ObeyIgnoresBuffer(c, s, rest);
    ObeyIgnoresBuffer(c.(buffer := rest), s, rest);
    ObeyAllIgnoresBuffer(Obey(c, s), ss, rest);
  }

  lemma {:induction false} DrainObeys(parse: Parser, c: Conn)
    ensures Drain(parse, c) == ObeyAll(c, Signals(parse, c.buffer)).(buffer := Unread(parse, c.buffer))
    decreases |c.buffer|
  {
    hide Newline, Drain, Take, Failed, Signals, Unread, ObeyAll;
    DrainUnfolds(parse, c);
    SignalsUnfold(parse, c.buffer);
    var n := Newline(c.buffer);
    if n == |c.buffer| {
      NoSignal(c);
    } else {
      var line, rest := c.buffer[..n], c.buffer[n + 1..];
      var next, ss, u := c.(buffer := rest), Signals(parse, rest), Unread(parse, rest);
      if line == "" {
        assert [] + ss == ss;
        ObeyAllIgnoresBuffer(c, ss, rest);
        DrainObeys(parse, next);
      } else if parse(line).None? {
        OneSignal(c, Broken(INVALID_JSON));
        ObeyIgnoresBuffer(c, Broken(INVALID_JSON), rest);
        ObeyIgnoresBuffer(next, Broken(INVALID_JSON), rest);
      } else {
        var s := Good(parse(line).value);
        LineObeyed(c, s, ss, rest, u);
        assert Obey(next, s) == Take(next, s.frame);
        hide Obey;
        DrainObeys(parse, Take(next, s.frame));
      }
    }
  }

  lemma NoSignal(c: Conn)
    ensures ObeyAll(c, []) == c
  {
  }

  lemma OneSignal(c: Conn, s: Signal)
    ensures ObeyAll(c, [s]) == Obey(c, s)
  {
    hide Obey;
    assert [s][1..] == [];
  }

  // -------------------------------------------------------------------- listening, then done

  predicate Listening(c: Conn, k: nat) { c.subscription == Some(k) && c.pending.None? && k < c.nextId }

  predicate Done(c: Conn, k: nat) {
    k < c.nextId && c.subscription != Some(k) && (c.pending.Some? ==> c.pending.value.id != k)
  }

  lemma FailedHeard(c: Conn, reason: string, k: nat)
    requires c.pending.Some? ==> c.pending.value.id != k
    ensures Heard(Failed(c, reason).log, k)
            == if c.subscription == Some(k) then Heard(c.log, k) + [Ended(k, Some(reason))] else Heard(c.log, k)
  {
    var greeted := if c.handshake then [Opened(Some(reason))] else [];
    var settled := if c.pending.Some? then [Settled(c.pending.value.id, Rejected(reason))] else [];
    var ended := if c.subscription.Some? then [Ended(c.subscription.value, Some(reason))] else [];
    var log1 := c.log + greeted;
    var log2 := log1 + settled;
    assert Failed(c, reason).log == log2 + ended;
    hide Heard, Failed;
    HeardAtMostOne(c.log, greeted, k);
    HeardAtMostOne(log1, settled, k);
    HeardAtMostOne(log2, ended, k);
  }

  lemma HeardAtMostOne(log: seq<Event>, es: seq<Event>, k: nat)
    requires |es| <= 1
    ensures Heard(log + es, k) == if es != [] && IdOf(es[0]) == Some(k) then Heard(log, k) + es else Heard(log, k)
  {
    if es == [] {
      assert log + es == log;
    } else {
      assert es == [es[0]];
      HeardMore(log, es[0], k);
    }
  }

  lemma OtherHeard(c: Conn, f: Frame, k: nat)
    requires c.pending.Some? ==> c.pending.value.id != k
    requires c.handshake || c.subscription != Some(k) || f.id != Some(k)
    ensures Heard(Take(c, f).log, k) == Heard(c.log, k)
  {
    var log := Take(c, f).log;
    if log != c.log {
      var e := log[|c.log|];
      assert log == c.log + [e] && IdOf(e) != Some(k);
      hide *;
      HeardMore(c.log, e, k);
    }
  }

  lemma OwnHeard(c: Conn, f: Frame, k: nat)
    requires !c.handshake && c.subscription == Some(k) && f.id == Some(k)
    ensures Heard(Take(c, f).log, k)
            == Heard(c.log, k) + if Finishes(Good(f)) then [Ended(k, Failure(Good(f)))] else ItemHeard(Good(f), k)
  {
    var told := if Finishes(Good(f)) then [Ended(k, Failure(Good(f)))] else ItemHeard(Good(f), k);
    assert Take(c, f).log == c.log + told && |told| <= 1 && (told != [] ==> IdOf(told[0]) == Some(k));
    hide Heard, Take;
    HeardAtMostOne(c.log, told, k);
    assert told == [] ==> Heard(c.log, k) + told == Heard(c.log, k);
  }

  lemma TakeHeard(c: Conn, f: Frame, k: nat)
    requires c.pending.Some? ==> c.pending.value.id != k
    ensures Heard(Take(c, f).log, k)
            == if c.handshake || c.subscription != Some(k) || f.id != Some(k) then Heard(c.log, k)
               else if Finishes(Good(f)) then Heard(c.log, k) + [Ended(k, Failure(Good(f)))]
               else Heard(c.log, k) + ItemHeard(Good(f), k)
  {
    hide *;
    if c.handshake || c.subscription != Some(k) || f.id != Some(k) { OtherHeard(c, f, k); } else { OwnHeard(c, f, k); }
  }

  /** What one signal does to a subscription. */
  lemma ObeyListening(c: Conn, s: Signal, k: nat)
    requires Listening(c, k)
    ensures var d := Obey(c, s);
            if (c.handshake && s.Good?) || !Concerns(s, k) then Listening(d, k) && Heard(d.log, k) == Heard(c.log, k)
            else if Finishes(s) then Done(d, k) && Heard(d.log, k) == Heard(c.log, k) + [Ended(k, Failure(s))]
            else Listening(d, k) && Heard(d.log, k) == Heard(c.log, k) + ItemHeard(s, k)
    ensures !Obey(c, s).handshake
  {
    match s {
      case Broken(reason) => FailedHeard(c, reason, k);
      case Good(f) => TakeHeard(c, f, k);
    }
    hide Heard;
  }

  lemma ObeyDone(c: Conn, s: Signal, k: nat)
    requires Done(c, k)
    ensures Done(Obey(c, s), k) && Heard(Obey(c, s).log, k) == Heard(c.log, k)
  {
    match s {
      case Broken(reason) => FailedHeard(c, reason, k);
      case Good(f) => TakeHeard(c, f, k);
    }
    hide Heard;
  }

  lemma {:induction false} ObeyAllDone(c: Conn, ss: seq<Signal>, k: nat)
    requires Done(c, k)
    ensures Done(ObeyAll(c, ss), k) && Heard(ObeyAll(c, ss).log, k) == Heard(c.log, k)
    decreases |ss|
  {
    hide Obey, Done, Heard;
    if ss != [] {
      ObeyDone(c, ss[0], k);
      ObeyAllDone(Obey(c, ss[0]), ss[1..], k);
    }
  }

  predicate Over(own: seq<Signal>) { FirstFinish(own) < |own| }

  lemma MineFirst(s: Signal, rest: seq<Signal>, k: nat)
    ensures Mine([s] + rest, k) == if Concerns(s, k) then [s] + Mine(rest, k) else Mine(rest, k)
  {
    assert ([s] + rest)[1..] == rest;
  }

  /** One more signal in front. */
  lemma ToldFirst(s: Signal, rest: seq<Signal>, k: nat)
    ensures Finishes(s) ==> Over([s] + rest) && Told([s] + rest, k) == [Ended(k, Failure(s))]
    ensures !Finishes(s) ==> Over([s] + rest) == Over(rest) && Told([s] + rest, k) == ItemHeard(s, k) + Told(rest, k)
  {
    var all := [s] + rest;
    assert all[1..] == rest;
    if !Finishes(s) {
      var n := FirstFinish(rest);
      assert FirstFinish(all) == 1 + n;
      assert all[..1 + n] == [s] + rest[..n];
      assert ([s] + rest[..n])[1..] == rest[..n];
      assert ItemsHeard(all[..1 + n], k) == ItemHeard(s, k) + ItemsHeard(rest[..n], k);
    }
  }

  lemma {:induction false} ObeyAllListening(c: Conn, ss: seq<Signal>, k: nat)
    requires Listening(c, k)
    ensures var own := Mine(AfterHandshake(ss, c.handshake), k);
            && Heard(ObeyAll(c, ss).log, k) == Heard(c.log, k) + Told(own, k)
            && if Over(own) then Done(ObeyAll(c, ss), k)
               else Listening(ObeyAll(c, ss), k) && ObeyAll(c, ss).handshake == (c.handshake && ss == [])
    decreases |ss|
  {
    if ss == [] {
      NothingTold(k);
    } else {
      var s, rest := ss[0], ss[1..];
      assert ss == [s] + rest;
      ObeyListening(c, s, k);
      hide Obey, Heard, Told, Over, Done, Listening, ItemHeard, Failure;
      MineFirst(s, rest, k);
      ToldFirst(s, Mine(rest, k), k);
      hide Mine, Finishes, Concerns;
      var d := Obey(c, s);
      assert AfterHandshake(rest, d.handshake) == rest;
      if (c.handshake && s.Good?) || !Concerns(s, k) {
        ObeyAllListening(d, rest, k);
      } else if Finishes(s) {
        ObeyAllDone(d, rest, k);
      } else {
        ObeyAllListening(d, rest, k);
        Associate(Heard(c.log, k), ItemHeard(s, k), Told(Mine(rest, k), k));
      }
    }
  }

  lemma Associate(a: seq<Event>, b: seq<Event>, c: seq<Event>)
    ensures a + b + c == a + (b + c)
  {
  }

  lemma NothingTold(k: nat)
    ensures Told([], k) == [] && !Over([])
  {
  }

  // -------------------------------------------------------------------------------- whole runs

  lemma Behead(a: seq<Signal>, b: seq<Signal>)
    requires a != []
    ensures a == [a[0]] + a[1..] && a + b == [a[0]] + (a[1..] + b)
  {
  }

  lemma {:induction false} MineCat(a: seq<Signal>, b: seq<Signal>, k: nat)
    ensures Mine(a + b, k) == Mine(a, k) + Mine(b, k)
    decreases |a|
  {
    if a == [] {
      assert a + b == b && [] + Mine(b, k) == Mine(b, k);
    } else {
      hide *;
      var s, rest := a[0], a[1..];
      var all, mine, more := rest + b, Mine(rest, k), Mine(b, k);
      Behead(a, b);
      MineFirst(s, rest, k);
      MineFirst(s, all, k);
      MineCat(rest, b, k);
      if Concerns(s, k) {
        Behead([s] + mine, more);
        assert ([s] + mine)[1..] == mine;
      }
    }
  }

  lemma {:induction false} ToldCat(a: seq<Signal>, b: seq<Signal>, k: nat)
    ensures Told(a + b, k) == if Over(a) then Told(a, k) else Told(a, k) + Told(b, k)
    ensures Over(a + b) == (Over(a) || Over(b))
    decreases |a|
  {
    if a == [] {
      NothingTold(k);
      assert a + b == b && [] + Told(b, k) == Told(b, k);
    } else {
      hide *;
      var s, rest := a[0], a[1..];
      var all := rest + b;
      Behead(a, b);
      ToldFirst(s, rest, k);
      ToldFirst(s, all, k);
      ToldCat(rest, b, k);
      Associate(ItemHeard(s, k), Told(rest, k), Told(b, k));
    }
  }

  lemma {:induction false} RunDone(parse: Parser, c: Conn, ops: seq<Op>, k: nat)
    requires Done(c, k)
    ensures Heard(Run(parse, c, ops).log, k) == Heard(c.log, k)
    decreases |ops|
  {
    if ops != [] {
      AfterDone(parse, c, ops[0], k);
      hide After, Done, Heard;
      RunDone(parse, After(parse, c, ops[0]), ops[1..], k);
    }
  }

  lemma AfterDone(parse: Parser, c: Conn, op: Op, k: nat)
    requires Done(c, k)
    ensures Done(After(parse, c, op), k) && Heard(After(parse, c, op).log, k) == Heard(c.log, k)
  {
    hide Drain, Failed, ObeyAll;
    match op {
      case Chunk(text) =>
        var d := c.(buffer := c.buffer + text);
        DrainObeys(parse, d);
        ObeyAllDone(d, Signals(parse, d.buffer), k);
      case Abort => if Abortable(c) { HeardMore(c.log, Aborted(c.pending.value.id), k); }
      case Lost(reason) => ObeyDone(c, Broken(reason), k);
      case _ =>
    }
  }

  /** What one operation makes a subscriber hear: the signals it sends, nothing else. */
  lemma AfterListening(parse: Parser, c: Conn, op: Op, k: nat)
    requires Listening(c, k)
    ensures var d, sent := After(parse, c, op), Sent(parse, c.buffer, op);
            var own := Mine(AfterHandshake(sent, c.handshake), k);
            && d.buffer == Kept(parse, c.buffer, op)
            && Heard(d.log, k) == Heard(c.log, k) + Told(own, k)
            && if Over(own) then Done(d, k) else Listening(d, k) && d.handshake == (c.handshake && sent == [])
  {
    hide Drain, Failed, ObeyAll, Heard, Signals, Unread;
    match op {
      case Chunk(text) =>
        var d := c.(buffer := c.buffer + text);
        DrainObeys(parse, d);
        ObeyAllListening(d, Signals(parse, d.buffer), k);
      case Lost(reason) =>
        OneSignal(c, Broken(reason));
        ObeyAllListening(c, [Broken(reason)], k);
        ObeyIgnoresBuffer(c, Broken(reason), c.buffer);
      case _ => NothingTold(k);
    }
  }

  lemma HandshakeCat(a: seq<Signal>, b: seq<Signal>, h: bool)
    ensures AfterHandshake(a + b, h) == AfterHandshake(a, h) + AfterHandshake(b, h && a == [])
  {
    assert a == [] ==> a + b == b;
    assert a != [] ==> (a + b)[0] == a[0] && (a + b)[1..] == a[1..] + b;
  }

  /** Over every run that follows a subscription, whatever else happens on the connection, the subscriber hears exactly
      the items of its own frames in order, up to the first frame that ends it or the failure of the connection,
      then that end with its reason, and nothing after. */
  lemma {:induction false} SubscriberHears(parse: Parser, c: Conn, ops: seq<Op>, k: nat)
    requires Listening(c, k)
    ensures var own := Mine(AfterHandshake(SignalsOf(parse, c.buffer, ops), c.handshake), k);
            Heard(Run(parse, c, ops).log, k) == Heard(c.log, k) + Told(own, k)
    decreases |ops|
  {
    hide After, Listening, Done, Heard, Sent, Kept;
    if ops == [] {
      NothingTold(k);
    } else {
      var d, rest := After(parse, c, ops[0]), ops[1..];
      var a, b := Sent(parse, c.buffer, ops[0]), SignalsOf(parse, Kept(parse, c.buffer, ops[0]), rest);
      AfterListening(parse, c, ops[0], k);
      hide Told, Over, Mine, AfterHandshake;
      var h := c.handshake && a == [];
      HandshakeCat(a, b, c.handshake);
      MineCat(AfterHandshake(a, c.handshake), AfterHandshake(b, h), k);
      var own := Mine(AfterHandshake(a, c.handshake), k);
      ToldCat(own, Mine(AfterHandshake(b, h), k), k);
      if Over(own) {
        RunDone(parse, d, rest, k);
      } else {
        SubscriberHears(parse, d, rest, k);
        Associate(Heard(c.log, k), Told(own, k), Told(Mine(AfterHandshake(b, h), k), k));
      }
    }
  }

  /** From the opening of a connection on: an accepted subscription hears what is its own, from an empty start. */
  lemma SubscriptionGetsItsFrames(parse: Parser, before: seq<Op>, after: seq<Op>)
    requires !Refused(Run(parse, OPENING, before))
    ensures var c := Run(parse, OPENING, before);
            var own := Mine(AfterHandshake(SignalsOf(parse, c.buffer, after), c.handshake), c.nextId);
            Heard(Run(parse, After(parse, c, DoSubscribe), after).log, c.nextId) == Told(own, c.nextId)
  {
    var c := Run(parse, OPENING, before);
    RunInv(parse, OPENING, before);
    HeardNothing(c.log, c.nextId);
    hide Run, Heard, Told, Mine, AfterHandshake, SignalsOf;
    SubscriberHears(parse, After(parse, c, DoSubscribe), after, c.nextId);
  }

  lemma {:induction false} HeardNothing(log: seq<Event>, k: nat)
    requires forall i | 0 <= i < |log| && !log[i].Opened? :: log[i].id < k
    ensures Heard(log, k) == []
  {
    if log != [] { HeardNothing(log[..|log| - 1], k); }
  }

  // -------------------------------------------------------------------------------- the handshake

  /** The answers to the handshake. */
  function Greetings(log: seq<Event>): seq<Event> {
    if log == [] then [] else Greetings(log[..|log| - 1]) + if log[|log| - 1].Opened? then [log[|log| - 1]] else []
  }

  lemma GreetingsMore(log: seq<Event>, e: Event)
    ensures Greetings(log + [e]) == Greetings(log) + if e.Opened? then [e] else []
  {
    assert (log + [e])[..|log|] == log;
  }

  /** The first signal of all answers the handshake: a frame of this protocol, another one, or a failure. */
  function Greeted(ss: seq<Signal>): seq<Event> {
    if ss == [] then []
    else
      match ss[0]
      case Broken(reason) => [Opened(Some(reason))]
      case Good(f) => [Opened(if f.protocol == Some(72) then None else Some(INCOMPATIBLE))]
  }

  lemma GreetingsAtMostOne(log: seq<Event>, es: seq<Event>)
    requires |es| <= 1
    ensures Greetings(log + es) == Greetings(log) + if es != [] && es[0].Opened? then es else []
  {
    if es == [] {
      assert log + es == log && Greetings(log) + [] == Greetings(log);
    } else {
      assert es == [es[0]];
      GreetingsMore(log, es[0]);
    }
  }

  lemma FailedGreets(c: Conn, reason: string)
    ensures Greetings(Failed(c, reason).log) == Greetings(c.log) + if c.handshake then [Opened(Some(reason))] else []
  {
    var greeted := if c.handshake then [Opened(Some(reason))] else [];
    var settled := if c.pending.Some? then [Settled(c.pending.value.id, Rejected(reason))] else [];
    var ended := if c.subscription.Some? then [Ended(c.subscription.value, Some(reason))] else [];
    var log1 := c.log + greeted;
    var log2 := log1 + settled;
    assert Failed(c, reason).log == log2 + ended;
    hide Greetings, Failed;
    GreetingsAtMostOne(c.log, greeted);
    GreetingsAtMostOne(log1, settled);
    GreetingsAtMostOne(log2, ended);
    var g := Greetings(log1);
    assert g + [] == g && Greetings(c.log) + [] == Greetings(c.log);
  }

  lemma TakeGreets(c: Conn, f: Frame)
    ensures Greetings(Take(c, f).log) == Greetings(c.log) + if c.handshake then Greeted([Good(f)]) else []
    ensures !Take(c, f).handshake
  {
    var log := Take(c, f).log;
    assert Greetings(c.log) + [] == Greetings(c.log);
    if log != c.log {
      var e := log[|c.log|];
      assert log == c.log + [e] && (c.handshake ==> [e] == Greeted([Good(f)])) && (e.Opened? <==> c.handshake);
      hide *;
      GreetingsMore(c.log, e);
    }
  }

  lemma ObeyGreets(c: Conn, s: Signal)
    ensures Greetings(Obey(c, s).log) == Greetings(c.log) + if c.handshake then Greeted([s]) else []
    ensures !Obey(c, s).handshake
  {
    match s {
      case Broken(reason) => FailedGreets(c, reason);
      case Good(f) => TakeGreets(c, f);
    }
    hide Greetings;
  }

  lemma {:induction false} ObeyAllGreets(c: Conn, ss: seq<Signal>)
    ensures Greetings(ObeyAll(c, ss).log) == Greetings(c.log) + if c.handshake then Greeted(ss) else []
    ensures ObeyAll(c, ss).handshake == (c.handshake && ss == [])
    decreases |ss|
  {
    hide Obey, Greetings;
    assert Greetings(c.log) + [] == Greetings(c.log);
    if ss != [] {
      ObeyGreets(c, ss[0]);
      ObeyAllGreets(Obey(c, ss[0]), ss[1..]);
      var g := Greetings(Obey(c, ss[0]).log);
      assert g + [] == g && Greeted(ss) == Greeted([ss[0]]);
    }
  }

  lemma AfterGreets(parse: Parser, c: Conn, op: Op)
    ensures var d, sent := After(parse, c, op), Sent(parse, c.buffer, op);
            && d.buffer == Kept(parse, c.buffer, op)
            && Greetings(d.log) == Greetings(c.log) + (if c.handshake then Greeted(sent) else [])
            && d.handshake == (c.handshake && sent == [])
  {
    hide Drain, Failed, ObeyAll, Greetings, Signals, Unread, Greeted;
    assert Greetings(c.log) + [] == Greetings(c.log);
    match op {
      case Chunk(text) =>
        var d := c.(buffer := c.buffer + text);
        DrainObeys(parse, d);
        ObeyAllGreets(d, Signals(parse, d.buffer));
      case Lost(reason) =>
        OneSignal(c, Broken(reason));
        ObeyAllGreets(c, [Broken(reason)]);
        ObeyIgnoresBuffer(c, Broken(reason), c.buffer);
      case Abort =>
        GreetedNothing();
        if Abortable(c) { GreetingsMore(c.log, Aborted(c.pending.value.id)); }
      case _ => GreetedNothing();
    }
  }

  lemma GreetedNothing()
    ensures Greeted([]) == []
  {
  }

  lemma {:induction false} RunGreets(parse: Parser, c: Conn, ops: seq<Op>)
    ensures Greetings(Run(parse, c, ops).log)
            == Greetings(c.log) + if c.handshake then Greeted(SignalsOf(parse, c.buffer, ops)) else []
    decreases |ops|
  {
    hide After, Sent, Kept, Greetings;
    assert Greetings(c.log) + [] == Greetings(c.log);
    if ops != [] {
      var d, rest := After(parse, c, ops[0]), ops[1..];
      var a, b := Sent(parse, c.buffer, ops[0]), SignalsOf(parse, Kept(parse, c.buffer, ops[0]), rest);
      AfterGreets(parse, c, ops[0]);
      RunGreets(parse, d, rest);
      assert a != [] ==> Greeted(a + b) == Greeted(a);
      assert a == [] ==> a + b == b;
      hide Greeted;
      var g := Greetings(d.log);
      assert g + [] == g;
      if a == [] { GreetedNothing(); }
    }
  }

  /** Over every run the handshake is answered by the very first signal, whatever it is, and by nothing else: success
      only for a frame of protocol 72. */
  lemma HandshakeAnswered(parse: Parser, ops: seq<Op>)
    ensures Greetings(Run(parse, OPENING, ops).log) == Greeted(SignalsOf(parse, "", ops))
  {
    RunGreets(parse, OPENING, ops);
    assert Greetings([]) == [];
    assert [] + Greeted(SignalsOf(parse, "", ops)) == Greeted(SignalsOf(parse, "", ops));
  }
}
