/** Channel nudges (`src/channel_nudge.rs`): per session, a lottery with a cooldown and offers that expire. */
module Nudge {
  import opened Order

  const LOTTERY_COOLDOWN_SECS := 10
  const OFFER_TTL_SECS := 120
  const U64_MAX := 0xFFFF_FFFF_FFFF_FFFF

  type U64 = x: int | 0 <= x <= U64_MAX

  datatype Participant = Participant(
    pubkey: string, title: string, host: string, generation: Option<nat>, live: bool, busy: bool)

  datatype Evidence = Evidence(
    parent: string, cohort: seq<Participant>, busyPubkeys: seq<string>, audienceCount: nat, engagedCount: nat,
    messageCount: nat, alternations: nat, startedAt: nat, endedAt: nat, lastMessageId: string)

  datatype Offer = Offer(evidence: Evidence, offeredAt: U64, expiresAt: U64)

  datatype Session = Session(lastLotteryAt: Option<U64>, offer: Option<Offer>)

  type Sessions = map<string, Session>

  function SaturatingAdd(a: U64, b: U64): U64 { if a + b > U64_MAX then U64_MAX else a + b }

  function SaturatingSub(a: U64, b: U64): U64 { if a < b then 0 else a - b }

  /** One chance in n squared, over a uniform roll of 64 bits. */
  predicate LotteryWins(roll: U64, busyCount: nat) {
    roll <= U64_MAX / (if busyCount == 0 then 1 else busyCount * busyCount)
  }

  /** How `consider` ends; a draw was made in the last two cases. */
  datatype Outcome = NotBusy | HasOffer | CoolingDown | Lost | Won(offer: Offer)

  function SessionOf(s: Sessions, caller: string): Session { if caller in s then s[caller] else Session(None, None) }

  predicate Live(session: Session, now: U64) { session.offer.Some? && session.offer.value.expiresAt >= now }

  predicate Cooling(session: Session, now: U64) {
    session.lastLotteryAt.Some? && SaturatingSub(now, session.lastLotteryAt.value) < LOTTERY_COOLDOWN_SECS
  }

  function Considered(s: Sessions, caller: string, evidence: Evidence, now: U64, roll: U64): (Sessions, Outcome) {
    var session := SessionOf(s, caller);
    if caller !in evidence.busyPubkeys then (s, NotBusy)
    else if Live(session, now) then (s[caller := session], HasOffer)
    else if Cooling(session, now) then (s[caller := session.(offer := None)], CoolingDown)
    else if !LotteryWins(roll, |evidence.busyPubkeys|) then (s[caller := Session(Some(now), None)], Lost)
    else
      var offer := Offer(evidence, now, SaturatingAdd(now, OFFER_TTL_SECS));
      (s[caller := Session(Some(now), Some(offer))], Won(offer))
  }

  function Current(s: Sessions, caller: string, now: U64): (Sessions, Option<Offer>) {
    if caller !in s then (s, None)
    else
      var offer := if Live(s[caller], now) then s[caller].offer else None;
      (s[caller := s[caller].(offer := offer)], offer)
  }

  function Cleared(s: Sessions, caller: string): Sessions {
    if caller !in s then s else s[caller := s[caller].(offer := None)]
  }

  class ChannelNudgeState {
    var sessions: Sessions

    constructor ()
      ensures sessions == map[]
    {
      sessions := map[];
    }

    method Consider(caller: string, evidence: Evidence, now: U64, roll: U64) returns (r: Option<Offer>)
      modifies this
      ensures var (after, outcome) := Considered(old(sessions), caller, evidence, now, roll);
              sessions == after && r == if outcome.Won? then Some(outcome.offer) else None
    {
      if caller !in evidence.busyPubkeys || evidence.busyPubkeys == [] { return None; }
      var session := SessionOf(sessions, caller);
      sessions := sessions[caller := session];
      if session.offer.Some? && session.offer.value.expiresAt >= now { return None; }
      sessions := sessions[caller := sessions[caller].(offer := None)];
      if session.lastLotteryAt.Some? && SaturatingSub(now, session.lastLotteryAt.value) < LOTTERY_COOLDOWN_SECS {
        return None;
      }
      sessions := sessions[caller := sessions[caller].(lastLotteryAt := Some(now))];
      if !LotteryWins(roll, |evidence.busyPubkeys|) { return None; }
      var offer := Offer(evidence, now, SaturatingAdd(now, OFFER_TTL_SECS));
      sessions := sessions[caller := sessions[caller].(offer := Some(offer))];
      return Some(offer);
    }

    method CurrentOffer(caller: string, now: U64) returns (r: Option<Offer>)
      modifies this
      ensures (sessions, r) == Current(old(sessions), caller, now)
    {
      if caller !in sessions { return None; }
      var offer := sessions[caller].offer;
      if offer.Some? && offer.value.expiresAt < now {
        sessions := sessions[caller := sessions[caller].(offer := None)];
      }
      assert old(sessions)[caller := old(sessions)[caller]] == old(sessions);
      return sessions[caller].offer;
    }

    method ClearOffer(caller: string)
      modifies this
      ensures sessions == Cleared(old(sessions), caller)
    {
      if caller in sessions { sessions := sessions[caller := sessions[caller].(offer := None)]; }
    }
  }

  // ------------------------------------------------------------------------------------ runs

  datatype Op =
    | Consider(caller: string, evidence: Evidence, now: U64, roll: U64)
    | Ask(caller: string, now: U64)
    | Clear(caller: string)

  /** One call and how it ended; only `consider` has an outcome. */
  datatype Step = Step(op: Op, outcome: Outcome)

  datatype History = History(sessions: Sessions, steps: seq<Step>, time: U64)

  /** Time never runs backwards. */
  predicate InTime(h: History, op: Op) { op.Clear? || h.time <= op.now }

  function Next(h: History, op: Op): History
    requires InTime(h, op)
  {
    match op
    case Consider(caller, evidence, now, roll) =>
      var (after, outcome) := Considered(h.sessions, caller, evidence, now, roll);
      History(after, h.steps + [Step(op, outcome)], now)
    case Ask(caller, now) => History(Current(h.sessions, caller, now).0, h.steps + [Step(op, NotBusy)], now)
    case Clear(caller) => History(Cleared(h.sessions, caller), h.steps + [Step(op, NotBusy)], h.time)
  }

  predicate Runs(h: History, ops: seq<Op>)
    decreases |ops|
  {
    ops == [] || (InTime(h, ops[0]) && Runs(Next(h, ops[0]), ops[1..]))
  }

  function After(h: History, ops: seq<Op>): History
    requires Runs(h, ops)
    decreases |ops|
  {
    if ops == [] then h else After(Next(h, ops[0]), ops[1..])
  }

  const FRESH := History(map[], [], 0)

  predicate Draws(step: Step, caller: string) {
    step.op.Consider? && step.op.caller == caller && (step.outcome.Lost? || step.outcome.Won?)
  }

  predicate Offers(step: Step, caller: string) { step.op.Consider? && step.op.caller == caller && step.outcome.Won? }

  predicate Clears(step: Step, caller: string) { step.op.Clear? && step.op.caller == caller }

  /** The last offer made to the caller and not cleared since. */
  function LastOffer(steps: seq<Step>, caller: string): Option<Offer> {
    if steps == [] then None
    else
      var last := steps[|steps| - 1];
      if Offers(last, caller) then Some(last.outcome.offer)
      else if Clears(last, caller) then None
      else LastOffer(steps[..|steps| - 1], caller)
  }

  function LastDraw(steps: seq<Step>, caller: string): Option<U64> {
    if steps == [] then None
    else
      var last := steps[|steps| - 1];
      if Draws(last, caller) then Some(last.op.now) else LastDraw(steps[..|steps| - 1], caller)
  }

  /** What each session holds at any moment: its last draw, and its last uncleared offer unless that one has expired. */
  ghost predicate Holds(h: History, caller: string) {
    var session, last := SessionOf(h.sessions, caller), LastOffer(h.steps, caller);
    && session.lastLotteryAt == LastDraw(h.steps, caller)
    && (session.offer == last || (session.offer.None? && last.Some? && last.value.expiresAt < h.time))
    && (last.Some? ==> last.value.expiresAt == SaturatingAdd(last.value.offeredAt, OFFER_TTL_SECS))
  }

  lemma LastMore(steps: seq<Step>, step: Step, caller: string)
    ensures LastOffer(steps + [step], caller)
         == if Offers(step, caller) then Some(step.outcome.offer)
         else if Clears(step, caller) then None else LastOffer(steps, caller)
    ensures LastDraw(steps + [step], caller)
            == if Draws(step, caller) then Some(step.op.now) else LastDraw(steps, caller)
  {
    var more := steps + [step];
    assert more[..|more| - 1] == steps && more[|more| - 1] == step;
    hide Offers, Clears, Draws;
  }

  lemma ConsiderHolds(h: History, op: Op, caller: string)
    requires op.Consider? && InTime(h, op) && Holds(h, caller)
    ensures Holds(Next(h, op), caller)
  {
    LastMore(h.steps, Step(op, Considered(h.sessions, op.caller, op.evidence, op.now, op.roll).1), caller);
    hide LastOffer, LastDraw, LotteryWins, SaturatingAdd, SaturatingSub;
  }

  lemma OtherHolds(h: History, op: Op, caller: string)
    requires !op.Consider? && InTime(h, op) && Holds(h, caller)
    ensures Holds(Next(h, op), caller)
  {
    LastMore(h.steps, Step(op, NotBusy), caller);
    hide LastOffer, LastDraw, SaturatingAdd, Considered;
  }

  lemma NextHolds(h: History, op: Op, caller: string)
    requires InTime(h, op) && Holds(h, caller)
    ensures Holds(Next(h, op), caller)
  {
    hide Holds, Next;
    if op.Consider? { ConsiderHolds(h, op, caller); } else { OtherHolds(h, op, caller); }
  }

  /** Asking returns exactly the last uncleared offer that has not expired. */
  lemma AskIsExact(h: History, caller: string, now: U64)
    requires Holds(h, caller) && h.time <= now
    ensures Current(h.sessions, caller, now).1
         == var last := LastOffer(h.steps, caller); if last.Some? && last.value.expiresAt >= now then last else None
  {
  }

  /** Draws of one session are at least ten seconds apart, and offers at least 121 unless one was cleared between. */
  ghost predicate Spaced(steps: seq<Step>, caller: string) {
    && (forall i, j | 0 <= i < j < |steps| && Draws(steps[i], caller) && Draws(steps[j], caller) ::
          steps[j].op.now >= steps[i].op.now + LOTTERY_COOLDOWN_SECS)
    && (forall i, j | 0 <= i < j < |steps| && Offers(steps[i], caller) && Offers(steps[j], caller)
                      && (forall k | i < k < j :: !Clears(steps[k], caller)) ::
          steps[j].op.now >= steps[i].op.now + OFFER_TTL_SECS + 1)
  }

  lemma {:induction false} LastDrawIsLatest(steps: seq<Step>, caller: string, i: nat)
    requires i < |steps| && Draws(steps[i], caller) && Spaced(steps, caller)
    ensures LastDraw(steps, caller).Some? && steps[i].op.now <= LastDraw(steps, caller).value
  {
    var n := |steps| - 1;
    if !Draws(steps[n], caller) {
      SpacedPrefix(steps, caller);
      LastDrawIsLatest(steps[..n], caller, i);
    }
  }

  lemma SpacedPrefix(steps: seq<Step>, caller: string)
    requires steps != [] && Spaced(steps, caller)
    ensures Spaced(steps[..|steps| - 1], caller)
  {
    var short := steps[..|steps| - 1];
    hide Offers, Draws;
    forall i, j | 0 <= i < j < |short| && Offers(short[i], caller) && Offers(short[j], caller)
                  && (forall k | i < k < j :: !Clears(short[k], caller))
      ensures forall k | i < k < j :: !Clears(steps[k], caller)
    {
      assert forall k | i < k < j :: steps[k] == short[k];
    }
  }

  lemma {:induction false} LastOfferIsLatest(steps: seq<Step>, caller: string, i: nat)
    requires i < |steps| && Offers(steps[i], caller) && Spaced(steps, caller)
    requires forall k | i < k < |steps| :: !Clears(steps[k], caller)
    requires forall k | 0 <= k < |steps| && Offers(steps[k], caller) ::
               steps[k].outcome.offer.offeredAt == steps[k].op.now
    ensures LastOffer(steps, caller).Some? && steps[i].op.now <= LastOffer(steps, caller).value.offeredAt
  {
    var n := |steps| - 1;
    if i < n && !Offers(steps[n], caller) {
      SpacedPrefix(steps, caller);
      LastOfferIsLatest(steps[..n], caller, i);
    }
  }

  ghost predicate Dated(steps: seq<Step>, caller: string) {
    forall k | 0 <= k < |steps| && Offers(steps[k], caller) :: steps[k].outcome.offer.offeredAt == steps[k].op.now
  }

  lemma NextDated(h: History, op: Op, caller: string)
    requires InTime(h, op) && Dated(h.steps, caller)
    ensures Dated(Next(h, op).steps, caller)
  {
  }

  lemma NextDraws(h: History, op: Op, caller: string, i: nat)
    requires InTime(h, op) && Holds(h, caller) && Spaced(h.steps, caller)
    requires i < |h.steps| && Draws(h.steps[i], caller) && Draws(Next(h, op).steps[|h.steps|], caller)
    ensures op.Consider? && op.now >= h.steps[i].op.now + LOTTERY_COOLDOWN_SECS
  {
    LastDrawIsLatest(h.steps, caller, i);
    hide LastOffer, LastDraw, Spaced, LotteryWins;
  }

  lemma NextOffers(h: History, op: Op, caller: string, i: nat)
    requires InTime(h, op) && Holds(h, caller) && Spaced(h.steps, caller) && Dated(h.steps, caller)
    requires i < |h.steps| && Offers(h.steps[i], caller) && Offers(Next(h, op).steps[|h.steps|], caller)
    requires forall k | i < k < |h.steps| :: !Clears(h.steps[k], caller)
    ensures op.Consider? && op.now >= h.steps[i].op.now + OFFER_TTL_SECS + 1
  {
    LastOfferIsLatest(h.steps, caller, i);
    hide LastOffer, LastDraw, Spaced, LotteryWins, Dated;
  }

  lemma NextSteps(h: History, op: Op)
    requires InTime(h, op)
    ensures |Next(h, op).steps| == |h.steps| + 1 && Next(h, op).steps[..|h.steps|] == h.steps
    ensures Next(h, op).steps[|h.steps|].op == op
  {
    hide Considered, Current, Cleared;
  }

  lemma NextSpaced(h: History, op: Op, caller: string)
    requires InTime(h, op) && Holds(h, caller) && Spaced(h.steps, caller) && Dated(h.steps, caller)
    ensures Spaced(Next(h, op).steps, caller)
  {
    var n, steps := |h.steps|, Next(h, op).steps;
    NextSteps(h, op);
    assert forall i | 0 <= i < n :: steps[i] == h.steps[i];
    hide Offers, Draws, Clears, Next, Holds, Dated, InTime;
    forall i | 0 <= i < n && Draws(steps[i], caller) && Draws(steps[n], caller)
      ensures steps[n].op.now >= steps[i].op.now + LOTTERY_COOLDOWN_SECS
    {
      NextDraws(h, op, caller, i);
    }
    forall i, j | 0 <= i < j <= n && Offers(steps[i], caller) && Offers(steps[j], caller)
                  && (forall k | i < k < j :: !Clears(steps[k], caller))
      ensures steps[j].op.now >= steps[i].op.now + OFFER_TTL_SECS + 1
    {
      assert forall k | i < k < j :: h.steps[k] == steps[k];
      if j == n { NextOffers(h, op, caller, i); }
    }
  }

  lemma {:induction false} RunHolds(h: History, ops: seq<Op>, caller: string)
    requires Runs(h, ops) && Holds(h, caller) && Spaced(h.steps, caller) && Dated(h.steps, caller)
    ensures Holds(After(h, ops), caller) && Spaced(After(h, ops).steps, caller)
    decreases |ops|
  {
    hide Holds, Spaced, Dated, Next;
    if ops != [] {
      NextHolds(h, ops[0], caller);
      NextSpaced(h, ops[0], caller);
      NextDated(h, ops[0], caller);
      RunHolds(Next(h, ops[0]), ops[1..], caller);
    }
  }

  /** Over every run in time order: draws and offers of a session are spaced, and asking is exact. */
  lemma RunsAreSpaced(ops: seq<Op>, caller: string, now: U64)
    requires Runs(FRESH, ops) && After(FRESH, ops).time <= now
    ensures Spaced(After(FRESH, ops).steps, caller)
    ensures Current(After(FRESH, ops).sessions, caller, now).1
         == var last := LastOffer(After(FRESH, ops).steps, caller);
            if last.Some? && last.value.expiresAt >= now then last else None
  {
    RunHolds(FRESH, ops, caller);
    AskIsExact(After(FRESH, ops), caller, now);
  }

  lemma DividedExactly(x: nat, m: nat, d: nat, q: nat)
    requires d >= 1 && q * d <= m < (q + 1) * d
    ensures x <= q <==> x * d <= m
  {
    if x <= q {
      assert x * d <= q * d;
    } else {
      assert (q + 1) * d <= x * d;
    }
  }

  lemma Quotient(m: nat, d: nat)
    requires d >= 1
    ensures (m / d) * d <= m < (m / d + 1) * d
  {
    assert m == (m / d) * d + m % d;
  }

  lemma WinsExactly(roll: U64, n: nat)
    requires n >= 1
    ensures LotteryWins(roll, n) <==> roll * (n * n) <= U64_MAX
  {
    assert n * n >= 1;
    Quotient(U64_MAX, n * n);
    QuotientFits(U64_MAX, n * n);
    DividedExactly(roll, U64_MAX, n * n, U64_MAX / (n * n));
  }

  /** After every run in time order: a busy caller draws unless it has an uncleared offer that has not expired or drew
      less than ten seconds ago, the roll alone decides the draw, and a winner is offered exactly this evidence for two
      minutes. */
  lemma ConsiderExactly(ops: seq<Op>, caller: string, evidence: Evidence, now: U64, roll: U64)
    requires Runs(FRESH, ops) && After(FRESH, ops).time <= now
    ensures var h := After(FRESH, ops);
            var offer, draw := LastOffer(h.steps, caller), LastDraw(h.steps, caller);
            var n := |evidence.busyPubkeys|;
            Considered(h.sessions, caller, evidence, now, roll).1
            == if caller !in evidence.busyPubkeys then NotBusy
               else if offer.Some? && now <= offer.value.expiresAt then HasOffer
               else if draw.Some? && now < draw.value + 10 then CoolingDown
               else if roll * (n * n) > U64_MAX then Lost
               else Won(Offer(evidence, now, if now + 120 <= U64_MAX then now + 120 else U64_MAX))
  {
    var h := After(FRESH, ops);
    RunHolds(FRESH, ops, caller);
    if caller in evidence.busyPubkeys { WinsExactly(roll, |evidence.busyPubkeys|); }
    hide LotteryWins, LastOffer, LastDraw, Runs, After, Spaced;
  }

  // --------------------------------------------------------------------------------- the lottery

  ghost function Winners(busyCount: nat): set<int> { set roll: U64 | LotteryWins(roll, busyCount) }

  ghost function Below(n: nat): (s: set<int>)
    ensures |s| == n && forall x :: x in s <==> 0 <= x < n
  {
    if n == 0 then {} else Below(n - 1) + {n - 1}
  }

  /** Exactly floor((2^64 - 1) / n^2) + 1 rolls win among n busy agents. */
  lemma WinnersCount(n: nat)
    requires n >= 1
    ensures |Winners(n)| == U64_MAX / (n * n) + 1
  {
    var q := U64_MAX / (n * n);
    assert 0 <= q <= U64_MAX by { QuotientFits(U64_MAX, n * n); }
    assert Winners(n) == Below(q + 1);
  }

  lemma QuotientFits(a: nat, b: nat)
    requires b >= 1
    ensures 0 <= a / b <= a && (a / b) * b <= a
  {
  }

  /** So n busy agents together win with a chance of at most 1/n + n/2^64, multiplied out by n times 2^64. */
  lemma SummedChance(n: nat)
    requires n >= 1
    ensures n * |Winners(n)| * n <= (U64_MAX + 1) + n * n
  {
    WinnersCount(n);
    var q := U64_MAX / (n * n);
    QuotientFits(U64_MAX, n * n);
    Squares(n, q);
  }

  lemma Squares(n: nat, q: nat)
    ensures n * (q + 1) * n == q * (n * n) + n * n
  {
  }
}
