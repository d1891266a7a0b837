/** The stream client of `integrations/pi/daemon.ts`: a newline framer feeding a request and subscription state machine.
    `parse` stands for `JSON.parse` on one line, `None` where it throws. */
module Daemon {
  import opened Order

  const PROTOCOL := 72
  const REQUEST_FAILED := "Mosaico daemon request failed."
  const INVALID_JSON := "Mosaico daemon sent invalid JSON."
  const INCOMPATIBLE := "Mosaico daemon protocol is incompatible; restart Pi after updating Mosaico."

  type Value = string

  /** A parsed line. Error frames carry their message, "" when they have none. */
  datatype Frame = Frame(
    id: Option<nat>, protocol: Option<nat>, ok: Option<Value>, error: Option<string>, item: Option<Value>, end: bool)

  datatype Outcome = Resolved(value: Value) | Streamed(items: seq<Value>) | Rejected(reason: string)

  datatype Pending = Pending(id: nat, items: seq<Value>)

  /** A callback the connection invoked: the handshake's, a call's `resolve` or `reject`, a subscriber's. */
  datatype Event =
    | Opened(failure: Option<string>)
    | Settled(id: nat, outcome: Outcome)
    | Item(id: nat, item: Value)
    | Ended(id: nat, failure: Option<string>)
    | Aborted(id: nat)                                    // the abort listener rejected the call's promise

  datatype Conn = Conn(
    buffer: string, handshake: bool, pending: Option<Pending>, subscription: Option<nat>, nextId: nat, log: seq<Event>)

  type Parser = string -> Option<Frame>

  // ------------------------------------------------------------------------ the state machine

  function Message(error: string): string { if error == "" then REQUEST_FAILED else error }

  function Logged(c: Conn, e: Event): Conn { c.(log := c.log + [e]) }

  function Failed(c: Conn, reason: string): Conn {
    Conn(c.buffer, false, None, None, c.nextId,
         c.log + (if c.handshake then [Opened(Some(reason))] else [])
         + (if c.pending.Some? then [Settled(c.pending.value.id, Rejected(reason))] else [])
         + (if c.subscription.Some? then [Ended(c.subscription.value, Some(reason))] else []))
  }

  function ToSubscription(c: Conn, id: nat, f: Frame): Conn {
    if f.item.Some? then Logged(c, Item(id, f.item.value))
    else if f.error.Some? then Logged(c.(subscription := None), Ended(id, Some(Message(f.error.value))))
    else if f.end then Logged(c.(subscription := None), Ended(id, None))
    else c
  }

  function ToPending(c: Conn, p: Pending, f: Frame): Conn {
    if f.error.Some? then Logged(c.(pending := None), Settled(p.id, Rejected(Message(f.error.value))))
    else if f.item.Some? then c.(pending := Some(p.(items := p.items + [f.item.value])))
    else if f.end then Logged(c.(pending := None), Settled(p.id, Streamed(p.items)))
    else if f.ok.Some? then Logged(c.(pending := None), Settled(p.id, Resolved(f.ok.value)))
    else c
  }

  function Handled(c: Conn, f: Frame): Conn {
    if c.subscription.Some? && f.id == c.subscription then ToSubscription(c, c.subscription.value, f)
    else if c.pending.Some? && f.id == Some(c.pending.value.id) then ToPending(c, c.pending.value, f)
    else c
  }

  /** One good line: the handshake takes the first. */
  function Take(c: Conn, f: Frame): Conn {
    if c.handshake then
      Logged(c.(handshake := false), Opened(if f.protocol == Some(PROTOCOL) then None else Some(INCOMPATIBLE)))
    else Handled(c, f)
  }

  /** `indexOf("\n")`, or the length. */
  function Newline(s: string): (n: nat)
    ensures n <= |s| && (forall i | 0 <= i < n :: s[i] != '\n') && (n < |s| ==> s[n] == '\n')
  {
    if s == "" || s[0] == '\n' then 0 else 1 + Newline(s[1..])
  }

  /** The loop of `read`: it goes on until no complete line is left, or a line does not parse. */
  function Drain(parse: Parser, c: Conn): Conn
    decreases |c.buffer|
  {
    var n := Newline(c.buffer);
    if n == |c.buffer| then c
    else
      var line, next := c.buffer[..n], c.(buffer := c.buffer[n + 1..]);
      if line == "" then Drain(parse, next)
      else
        match parse(line)
        case None => Failed(next, INVALID_JSON)
        case Some(f) => Drain(parse, Take(next, f))
  }

  lemma HandledKeepsBuffer(c: Conn, f: Frame)
    ensures Handled(c, f).buffer == c.buffer && Handled(c, f).handshake == c.handshake
  {
  }

  lemma DrainUnfolds(parse: Parser, c: Conn)
    ensures var n := Newline(c.buffer);
            if n == |c.buffer| then Drain(parse, c) == c
            else
              var line, next := c.buffer[..n], c.(buffer := c.buffer[n + 1..]);
              && (line == "" ==> Drain(parse, c) == Drain(parse, next))
              && (line != "" && parse(line).None? ==> Drain(parse, c) == Failed(next, INVALID_JSON))
              && (line != "" && parse(line).Some? ==> Drain(parse, c) == Drain(parse, Take(next, parse(line).value)))
  {
  }

  function Fed(parse: Parser, c: Conn, chunk: string): Conn { Drain(parse, c.(buffer := c.buffer + chunk)) }

  function FedAll(parse: Parser, c: Conn, chunks: seq<string>): Conn
    decreases |chunks|
  {
    if chunks == [] then c else FedAll(parse, Fed(parse, c, chunks[0]), chunks[1..])
  }

  const OPENING := Conn("", true, None, None, 1, [])

  class DaemonConnection {
    var buffer: string
    var handshake: bool
    var pending: Option<Pending>
    var subscription: Option<nat>
    var nextId: nat
    var log: seq<Event>

    ghost function State(): Conn
      reads this
    {
      Conn(buffer, handshake, pending, subscription, nextId, log)
    }

    constructor Open()
      ensures State() == OPENING
    {
      buffer, handshake, pending, subscription, nextId, log := "", true, None, None, 1, [];
    }

    /** `None` when the connection already has a request. */
    method Call() returns (id: Option<nat>)
      modifies this
      ensures old(pending).Some? || old(subscription).Some? ==> id.None? && State() == old(State())
      ensures old(pending).None? && old(subscription).None? ==>
                id == Some(old(nextId))
                && State() == old(State()).(nextId := old(nextId) + 1, pending := Some(Pending(old(nextId), [])))
    {
      if pending.Some? || subscription.Some? { return None; }
      id := Some(nextId);
      nextId := nextId + 1;
      pending := Some(Pending(id.value, []));
    }

    method Subscribe() returns (id: Option<nat>)
      modifies this
      ensures old(pending).Some? || old(subscription).Some? ==> id.None? && State() == old(State())
      ensures old(pending).None? && old(subscription).None? ==>
                id == Some(old(nextId)) && State() == old(State()).(nextId := old(nextId) + 1, subscription := id)
    {
      if pending.Some? || subscription.Some? { return None; }
      id := Some(nextId);
      nextId := nextId + 1;
      subscription := id;
    }

    method Read(parse: Parser, chunk: string)
      modifies this
      ensures State() == Fed(parse, old(State()), chunk)
    {
      hide Drain, Handled, Failed;
      buffer := buffer + chunk;
      ghost var start := State();
      while true
        invariant Drain(parse, start) == Drain(parse, State())
        decreases |buffer|
      {
        DrainUnfolds(parse, State());
        var newline := Newline(buffer);
        if newline == |buffer| { return; }
        var line := buffer[..newline];
        buffer := buffer[newline + 1..];
        if line == "" { continue; }
        var frame := parse(line);
        if frame.None? {
          Fail(INVALID_JSON);
          return;
        }
        if handshake {
          log := log + [Opened(if frame.value.protocol == Some(PROTOCOL) then None else Some(INCOMPATIBLE))];
          handshake := false;
          continue;
        }
        HandledKeepsBuffer(State(), frame.value);
        Handle(frame.value);
      }
    }

    method Handle(f: Frame)
      modifies this
      ensures State() == Handled(old(State()), f)
    {
      if subscription.Some? && f.id == subscription {
        var id := subscription.value;
        if f.item.Some? {
          log := log + [Item(id, f.item.value)];
          return;
        }
        if f.error.Some? || f.end {
          subscription := None;
          log := log + [Ended(id, if f.error.Some? then Some(Message(f.error.value)) else None)];
        }
        return;
      }
      if pending.None? || f.id != Some(pending.value.id) { return; }
      var p := pending.value;
      if f.error.Some? {
        pending := None;
        log := log + [Settled(p.id, Rejected(Message(f.error.value)))];
      } else if f.item.Some? {
        pending := Some(p.(items := p.items + [f.item.value]));
      } else if f.end {
        pending := None;
        log := log + [Settled(p.id, Streamed(p.items))];
      } else if f.ok.Some? {
        pending := None;
        log := log + [Settled(p.id, Resolved(f.ok.value))];
      }
    }

    method Fail(reason: string)
      modifies this
      ensures State() == Failed(old(State()), reason)
    {
      if handshake {
        handshake := false;
        log := log + [Opened(Some(reason))];
      }
      if pending.Some? {
        var p := pending.value;
        pending := None;
        log := log + [Settled(p.id, Rejected(reason))];
      }
      if subscription.Some? {
        var id := subscription.value;
        subscription := None;
        log := log + [Ended(id, Some(reason))];
      }
    }
  }
}
