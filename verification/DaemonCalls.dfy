/** How a call of the stream client ends (`integrations/pi/daemon.ts`): over every run by the first of its own frames
    that closes it, or by the failure of the connection. */
module DaemonCalls {
  import opened Order
  import opened Daemon
  import opened DaemonLaws
  import opened DaemonSubscription

  // ----------------------------------------------------------------------- how a call should end

  /** A failure closes a call, and so does a frame with an error, or without an item one with an end or a result. */
  predicate Closing(s: Signal) { s.Broken? || Closes(s.frame) }

  function ItemsBy(s: Signal): seq<Value> { if s.Good? then ItemOf(s.frame) else [] }

  function Answer(s: Signal, items: seq<Value>): Outcome
    requires Closing(s)
  {
    if s.Broken? then Rejected(s.reason) else Verdict(s.frame, items)
  }

  /** The first closing signal settles the call; a stream has collected the items before it. */
  function Answers(own: seq<Signal>, k: nat, items: seq<Value>): seq<Event>
    decreases |own|
  {
    if own == [] then []
    else if Closing(own[0]) then [Settled(k, Answer(own[0], items))]
    else Answers(own[1..], k, items + ItemsBy(own[0]))
  }

  /** The settlements among the callbacks of a call; what is left are its aborts. */
  function Settlements(es: seq<Event>): seq<Event> {
    if es == [] then []
    else Settlements(es[..|es| - 1]) + if es[|es| - 1].Settled? then [es[|es| - 1]] else []
  }

  lemma SettlementsMore(es: seq<Event>, e: Event)
    ensures Settlements(es + [e]) == Settlements(es) + if e.Settled? then [e] else []
  {
    assert (es + [e])[..|es|] == es;
  }

  // ---------------------------------------------------------------------------------- the proof

  predicate Waiting(c: Conn, k: nat) {
    c.pending.Some? && c.pending.value.id == k && c.subscription.None? && k < c.nextId
  }

  function Settling(log: seq<Event>, k: nat): seq<Event> { Settlements(Heard(log, k)) }

  lemma SettlingMore(log: seq<Event>, e: Event, k: nat)
    ensures Settling(log + [e], k) == Settling(log, k) + if e.Settled? && e.id == k then [e] else []
  {
    HeardMore(log, e, k);
    var h := Heard(log, k);
    assert h + [] == h;
    hide Heard;
    if IdOf(e) == Some(k) { SettlementsMore(h, e); }
    hide Settlements;
    assert Settlements(h) + [] == Settlements(h);
  }

  lemma SettlingAtMostOne(log: seq<Event>, es: seq<Event>, k: nat)
    requires |es| <= 1
    ensures Settling(log + es, k) == Settling(log, k) + if es != [] && es[0].Settled? && es[0].id == k then es else []
  {
    hide Settling;
    if es == [] {
      assert log + es == log && Settling(log, k) + [] == Settling(log, k);
    } else {
      assert es == [es[0]];
      SettlingMore(log, es[0], k);
    }
  }

  lemma FailedSettles(c: Conn, reason: string, k: nat)
    requires Waiting(c, k)
    ensures Settling(Failed(c, reason).log, k) == Settling(c.log, k) + [Settled(k, Rejected(reason))]
    ensures Done(Failed(c, reason), k)
  {
    var greeted := if c.handshake then [Opened(Some(reason))] else [];
    var settled := [Settled(k, Rejected(reason))];
    assert Failed(c, reason).log == c.log + greeted + settled;
    hide Settling, Failed;
    SettlingAtMostOne(c.log, greeted, k);
    SettlingAtMostOne(c.log + greeted, settled, k);
    assert Settling(c.log, k) + [] == Settling(c.log, k);
  }

  /** The callbacks of one frame taken while a call waits. */
  function Callbacks(c: Conn, f: Frame, k: nat): seq<Event>
    requires Waiting(c, k)
  {
    if c.handshake then [Opened(if f.protocol == Some(PROTOCOL) then None else Some(INCOMPATIBLE))]
    else if f.id == Some(k) && Closes(f) then [Settled(k, Verdict(f, c.pending.value.items))]
    else []
  }

  lemma TakeWaiting(c: Conn, f: Frame, k: nat)
    requires Waiting(c, k)
    ensures Take(c, f).log == c.log + Callbacks(c, f, k)
    ensures c.handshake || f.id != Some(k) ==> Take(c, f).pending == c.pending && Waiting(Take(c, f), k)
    ensures !c.handshake && f.id == Some(k) && Closes(f) ==> Done(Take(c, f), k)
    ensures !c.handshake && f.id == Some(k) && !Closes(f) ==>
              Waiting(Take(c, f), k) && Take(c, f).pending.value.items == c.pending.value.items + ItemOf(f)
  {
    var items := c.pending.value.items;
    assert items + [] == items && c.log + [] == c.log;
  }

  /** What one frame does to a waiting call. */
  lemma TakeSettles(c: Conn, f: Frame, k: nat)
    requires Waiting(c, k)
    ensures var d, items := Take(c, f), c.pending.value.items;
            if c.handshake || f.id != Some(k)
            then d.pending == c.pending && Waiting(d, k) && Settling(d.log, k) == Settling(c.log, k)
            else if Closes(f)
            then Done(d, k) && Settling(d.log, k) == Settling(c.log, k) + [Settled(k, Verdict(f, items))]
            else
              && Waiting(d, k) && d.pending.value.items == items + ItemOf(f)
              && Settling(d.log, k) == Settling(c.log, k)
  {
    TakeWaiting(c, f, k);
    hide Settling, Take, Verdict, Closes, Done, Waiting;
    SettlingAtMostOne(c.log, Callbacks(c, f, k), k);
    assert Settling(c.log, k) + [] == Settling(c.log, k);
  }

  /** What one signal does to a waiting call. */
  lemma ObeyWaiting(c: Conn, s: Signal, k: nat)
    requires Waiting(c, k)
    ensures var d, items := Obey(c, s), c.pending.value.items;
            if (c.handshake && s.Good?) || !Concerns(s, k)
            then d.pending == c.pending && Waiting(d, k) && Settling(d.log, k) == Settling(c.log, k)
            else if Closing(s)
            then Done(d, k) && Settling(d.log, k) == Settling(c.log, k) + [Settled(k, Answer(s, items))]
            else
              && Waiting(d, k) && d.pending.value.items == items + ItemsBy(s)
              && Settling(d.log, k) == Settling(c.log, k)
    ensures !Obey(c, s).handshake
  {
    match s {
      case Broken(reason) => FailedSettles(c, reason, k);
      case Good(f) => TakeSettles(c, f, k);
    }
    hide Settling, Verdict;
  }

  predicate Closed(own: seq<Signal>) { exists i :: 0 <= i < |own| && Closing(own[i]) }

  function Collected(own: seq<Signal>, items: seq<Value>): seq<Value>
    decreases |own|
  {
    if own == [] then items else Collected(own[1..], items + ItemsBy(own[0]))
  }

  lemma AnswersFirst(s: Signal, rest: seq<Signal>, k: nat, items: seq<Value>)
    ensures Closing(s) ==> Closed([s] + rest) && Answers([s] + rest, k, items) == [Settled(k, Answer(s, items))]
    ensures !Closing(s) ==>
              && Closed([s] + rest) == Closed(rest)
              && Answers([s] + rest, k, items) == Answers(rest, k, items + ItemsBy(s))
              && Collected([s] + rest, items) == Collected(rest, items + ItemsBy(s))
  {
    var all := [s] + rest;
    assert all[1..] == rest && all[0] == s;
    if Closed(rest) {
      var i :| 0 <= i < |rest| && Closing(rest[i]);
      assert all[i + 1] == rest[i];
    }
  }

  lemma NoAnswer(k: nat, items: seq<Value>)
    ensures Answers([], k, items) == [] && !Closed([]) && Collected([], items) == items
  {
  }

  lemma {:induction false} ObeyAllWaiting(c: Conn, ss: seq<Signal>, k: nat)
    requires Waiting(c, k)
    ensures var d, own, items := ObeyAll(c, ss), Mine(AfterHandshake(ss, c.handshake), k), c.pending.value.items;
            && Settling(d.log, k) == Settling(c.log, k) + Answers(own, k, items)
            && if Closed(own) then Done(d, k)
               else Waiting(d, k) && d.pending.value.items == Collected(own, items)
                    && d.handshake == (c.handshake && ss == [])
    decreases |ss|
  {
    var items := c.pending.value.items;
    if ss == [] {
      NoAnswer(k, items);
      hide Settling;
      assert Settling(c.log, k) + [] == Settling(c.log, k);
    } else {
      var s, rest := ss[0], ss[1..];
      assert ss == [s] + rest;
      ObeyWaiting(c, s, k);
      var d := Obey(c, s);
      hide Obey, Settling, Done, Answer, Answers, Closed, Collected, ItemsBy;
      MineFirst(s, rest, k);
      AnswersFirst(s, Mine(rest, k), k, items);
      hide Mine, Closing, Concerns;
      assert AfterHandshake(rest, d.handshake) == rest;
      if (c.handshake && s.Good?) || !Concerns(s, k) {
        ObeyAllWaiting(d, rest, k);
      } else if Closing(s) {
        DoneSettles(d, rest, k);
      } else {
        ObeyAllWaiting(d, rest, k);
      }
    }
  }

  lemma DoneSettles(c: Conn, ss: seq<Signal>, k: nat)
    requires Done(c, k)
    ensures Done(ObeyAll(c, ss), k) && Settling(ObeyAll(c, ss).log, k) == Settling(c.log, k)
  {
    hide Heard, Done, ObeyAll;
    ObeyAllDone(c, ss, k);
  }

  lemma {:induction false} AnswersCat(a: seq<Signal>, b: seq<Signal>, k: nat, items: seq<Value>)
    ensures Answers(a + b, k, items) == if Closed(a) then Answers(a, k, items) else Answers(b, k, Collected(a, items))
    ensures !Closed(a) ==> Answers(a, k, items) == []
    decreases |a|
  {
    if a == [] {
      assert a + b == b;
      NoAnswer(k, items);
    } else {
      hide *;
      var s, rest := a[0], a[1..];
      var all := rest + b;
      Behead(a, b);
      AnswersFirst(s, rest, k, items);
      AnswersFirst(s, all, k, items);
      AnswersCat(rest, b, k, items + ItemsBy(s));
    }
  }

  /** What one operation tells a caller: the signals it sends, nothing else. */
  lemma AfterWaiting(parse: Parser, c: Conn, op: Op, k: nat)
    requires Waiting(c, k)
    ensures var d, sent, items := After(parse, c, op), Sent(parse, c.buffer, op), c.pending.value.items;
            var own := Mine(AfterHandshake(sent, c.handshake), k);
            && d.buffer == Kept(parse, c.buffer, op)
            && Settling(d.log, k) == Settling(c.log, k) + Answers(own, k, items)
            && if Closed(own) then Done(d, k)
               else Waiting(d, k) && d.pending.value.items == Collected(own, items)
                    && d.handshake == (c.handshake && sent == [])
  {
    hide Drain, Failed, ObeyAll, Settling, Signals, Unread, Answers, Closed, Collected;
    NoAnswer(k, c.pending.value.items);
    assert Settling(c.log, k) + [] == Settling(c.log, k);
    match op {
      case Chunk(text) =>
        var d := c.(buffer := c.buffer + text);
        DrainObeys(parse, d);
        ObeyAllWaiting(d, Signals(parse, d.buffer), k);
      case Lost(reason) =>
        OneSignal(c, Broken(reason));
        ObeyAllWaiting(c, [Broken(reason)], k);
        ObeyIgnoresBuffer(c, Broken(reason), c.buffer);
      case Abort => if Abortable(c) { SettlingMore(c.log, Aborted(c.pending.value.id), k); }
      case _ =>
    }
  }

  /** Over every run that follows a call, whatever else happens on the connection, the call settles once: with the first
      of its own frames that closes it, a stream with exactly the items of its own frames before that one, in order, or
      with the reason the connection failed for; and until then not at all. */
  lemma {:induction false} CallSettles(parse: Parser, c: Conn, ops: seq<Op>, k: nat)
    requires Waiting(c, k)
    ensures var own := Mine(AfterHandshake(SignalsOf(parse, c.buffer, ops), c.handshake), k);
            Settling(Run(parse, c, ops).log, k) == Settling(c.log, k) + Answers(own, k, c.pending.value.items)
    decreases |ops|
  {
    hide After, Done, Settling, Sent, Kept;
    var items := c.pending.value.items;
    if ops == [] {
      NoAnswer(k, items);
      assert Settling(c.log, k) + [] == Settling(c.log, k);
    } else {
      var d, rest := After(parse, c, ops[0]), ops[1..];
      var a, b := Sent(parse, c.buffer, ops[0]), SignalsOf(parse, Kept(parse, c.buffer, ops[0]), rest);
      AfterWaiting(parse, c, ops[0], k);
      hide Answers, Closed, Collected, Mine, AfterHandshake;
      var h := c.handshake && a == [];
      HandshakeCat(a, b, c.handshake);
      MineCat(AfterHandshake(a, c.handshake), AfterHandshake(b, h), k);
      var own := Mine(AfterHandshake(a, c.handshake), k);
      AnswersCat(own, Mine(AfterHandshake(b, h), k), k, items);
      if Closed(own) {
        DoneRun(parse, d, rest, k);
      } else {
        CallSettles(parse, d, rest, k);
        assert Settling(c.log, k) + [] == Settling(c.log, k);
      }
    }
  }

  lemma DoneRun(parse: Parser, c: Conn, ops: seq<Op>, k: nat)
    requires Done(c, k)
    ensures Settling(Run(parse, c, ops).log, k) == Settling(c.log, k)
  {
    hide Heard, Done, Run;
    RunDone(parse, c, ops, k);
  }

  /** The same from the opening of a connection: whatever happened before, an accepted call starts unsettled. */
  lemma CallIsAnswered(parse: Parser, before: seq<Op>, after: seq<Op>)
    requires !Refused(Run(parse, OPENING, before))
    ensures var c := Run(parse, OPENING, before);
            var own := Mine(AfterHandshake(SignalsOf(parse, c.buffer, after), c.handshake), c.nextId);
            Settling(Run(parse, After(parse, c, DoCall), after).log, c.nextId) == Answers(own, c.nextId, [])
  {
    var c := Run(parse, OPENING, before);
    RunInv(parse, OPENING, before);
    HeardNothing(c.log, c.nextId);
    assert Settling(c.log, c.nextId) == [];
    hide Run, Settling, Answers, Mine, AfterHandshake, SignalsOf;
    CallSettles(parse, After(parse, c, DoCall), after, c.nextId);
  }
}
