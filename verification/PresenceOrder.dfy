/** The order in which one pubkey's revisions reach the relay. */
module PresenceOrder {
  import opened Order
  import opened PendingQueue
  import opened PresenceProtocol

  /** Each pubkey's revisions strictly increase along the list. */
  ghost predicate Increasing(l: seq<Job>) {
    forall i, j | 0 <= i < j < |l| && l[i].pubkey == l[j].pubkey :: l[i].revision < l[j].revision
  }

  /** `job` is newer than everything in `l` for its pubkey. */
  ghost predicate NewerThanAll(l: seq<Job>, job: Job) {
    forall i | 0 <= i < |l| && l[i].pubkey == job.pubkey :: l[i].revision < job.revision
  }

  ghost predicate Among(l: seq<Job>, job: Job) {
    exists i :: 0 <= i < |l| && l[i].pubkey == job.pubkey && l[i].revision == job.revision
  }

  /** The job whose publication holds the lane, if any. */
  ghost function InFlight(s: State): Option<Job> {
    match s.lane
    case Free => None
    case OfWorker => if s.worker.Publishing? then Some(s.worker.job) else None
    case OfClient(id) => if id in s.clients then LockedJob(s.clients[id]) else None
  }

  ghost function LockedJob(c: Client): Option<Job> {
    if c.NowLocked? || c.NowDiscarded? || c.NowPublishing? then Some(c.job) else None
  }

  /** Whether the job in flight has already removed the queued jobs it replaces. */
  ghost predicate Cleared(s: State) {
    match s.lane
    case Free => true
    case OfWorker => true
    case OfClient(id) => id in s.clients ==> !s.clients[id].NowLocked?
  }

  /** Everything unsettled was handed over, and is newer than everything settled for its pubkey. */
  ghost predicate Fresh(s: State, job: Job) { Among(s.handed, job) && NewerThanAll(s.log, job) }

  ghost predicate OrderInv(s: State) {
    && Increasing(s.log)
    && (forall i | 0 <= i < |s.log| :: Among(s.handed, s.log[i]))
    && (forall p | p in s.queue.jobs :: Fresh(s, s.queue.jobs[p]))
    && (forall p | p in s.parked :: Fresh(s, s.parked[p]))
    && (InFlight(s).Some? ==>
          var job := InFlight(s).value;
          Fresh(s, job) && (Cleared(s) && job.pubkey in s.queue.jobs ==>
                              job.revision < s.queue.jobs[job.pubkey].revision))
  }

  lemma AmongGrows(l: seq<Job>, m: seq<Job>, job: Job)
    requires Among(l, job) && l <= m
    ensures Among(m, job)
  {
    var i :| 0 <= i < |l| && l[i].pubkey == job.pubkey && l[i].revision == job.revision;
    assert m[i] == l[i];
  }

  /** A newly handed job is newer than anything handed before. */
  lemma NewerThanKnown(l: seq<Job>, job: Job, known: Job)
    requires Increasing(l + [job]) && Among(l, known) && known.pubkey == job.pubkey
    ensures known.revision < job.revision
  {
    var i :| 0 <= i < |l| && l[i].pubkey == known.pubkey && l[i].revision == known.revision;
    assert (l + [job])[i] == l[i] && (l + [job])[|l|] == job;
  }

  /** Handing over a newer job keeps what was fresh fresh, and the job itself is fresh. */
  lemma HandOver(s: State, t: State, job: Job)
    requires OrderInv(s) && t.handed == s.handed + [job] && t.log == s.log && Increasing(t.handed)
    ensures Fresh(t, job)
    ensures forall other | Fresh(s, other) ::
              Fresh(t, other) && (other.pubkey == job.pubkey ==> other.revision < job.revision)
    ensures forall i | 0 <= i < |t.log| :: Among(t.handed, t.log[i])
  {
    assert t.handed[|s.handed|] == job;
    forall other | Among(s.handed, other)
      ensures Among(t.handed, other) && (other.pubkey == job.pubkey ==> other.revision < job.revision)
    {
      AmongGrows(s.handed, t.handed, other);
      if other.pubkey == job.pubkey { NewerThanKnown(s.handed, job, other); }
    }
  }

  lemma SettleOrder(s: State, t: State, job: Job, deferred: bool)
    requires Inv(s) && OrderInv(s) && InFlight(s) == Some(job) && Cleared(s)
    requires t.queue == s.queue && t.handed == s.handed && InFlight(t) == None
    requires t.parked == Settle(s.parked, job, deferred) && t.log == if deferred then s.log else s.log + [job]
    ensures OrderInv(t)
  {
    assert s.queue.Valid() && FiledByPubkey(s.parked);
    QueueFiled(s.queue);
    hide Inv, LaneExclusive, NoLostWakeup, Queue.Valid, Among;
    assert Fresh(s, job);
    forall p | p in t.queue.jobs ensures Fresh(t, t.queue.jobs[p]) { assert Fresh(s, s.queue.jobs[p]); }
    forall p | p in t.parked ensures Fresh(t, t.parked[p]) {
      if p in s.parked && t.parked[p] == s.parked[p] {
        assert Fresh(s, s.parked[p]);
      } else {
        SameJobFresh(s, job, t.parked[p]);
      }
    }
    SettledLog(s, t, job, deferred);
  }

  lemma SameJobFresh(s: State, job: Job, other: Job)
    requires Fresh(s, job) && other.pubkey == job.pubkey && other.revision == job.revision
    ensures Fresh(s, other)
  {
  }

  lemma SettledLog(s: State, t: State, job: Job, deferred: bool)
    requires OrderInv(s) && Fresh(s, job) && t.handed == s.handed && t.log == if deferred then s.log else s.log + [job]
    ensures Increasing(t.log) && forall i | 0 <= i < |t.log| :: Among(t.handed, t.log[i])
  {
    hide Among;
  }

  lemma QueueFiled(q: Queue)
    requires q.Valid()
    ensures forall p | p in q.jobs :: q.jobs[p].pubkey == p
  {
  }

  lemma PopOrder(s: State)
    requires Inv(s) && OrderInv(s) && WorkerEnabled(s, Pop)
    ensures OrderInv(WorkerStep(s, Pop))
  {
    PopValid(s.queue);
    QueueFiled(s.queue);
    assert LaneExclusive(s);
    hide Inv, Queue.Valid, Increasing, Fresh;
    Carry(s, WorkerStep(s, Pop));
  }

  lemma WorkerOrder(s: State, a: WorkerAction)
    requires Inv(s) && OrderInv(s) && WorkerEnabled(s, a)
    ensures OrderInv(WorkerStep(s, a))
  {
    assert LaneExclusive(s);
    match a {
      case Settled(deferred) =>
        hide Inv, OrderInv, Settle;
        SettleOrder(s, WorkerStep(s, a), s.worker.job, deferred);
      case Pop =>
        hide Inv, OrderInv, WorkerStep;
        PopOrder(s);
      case _ =>
        hide Inv, Increasing, Fresh;
        Carry(s, WorkerStep(s, a));
    }
  }

  lemma CallOrder(s: State, id: Id, a: ClientAction)
    requires Inv(s) && OrderInv(s) && id !in s.clients && CallEnabled(s, a)
    requires Increasing(CallStep(s, id, a).handed)
    ensures OrderInv(CallStep(s, id, a))
  {
    hide NoLostWakeup, Queue.Valid;
    var t := CallStep(s, id, a);
    assert InFlight(t) == InFlight(s) && Cleared(t) == Cleared(s);
    if a.Submit? { HandOver(s, t, a.job); }
  }

  /** A step that hands over and settles nothing keeps the order if it leaves only known jobs behind. */
  lemma Carry(s: State, t: State)
    requires OrderInv(s) && t.log == s.log && t.handed == s.handed
    requires forall p | p in t.queue.jobs :: Fresh(s, t.queue.jobs[p])
    requires forall p | p in t.parked :: p in s.parked && t.parked[p] == s.parked[p]
    requires InFlight(t).Some? ==> Fresh(s, InFlight(t).value)
    requires InFlight(t).Some? && Cleared(t) && InFlight(t).value.pubkey in t.queue.jobs ==>
               InFlight(t).value.revision < t.queue.jobs[InFlight(t).value.pubkey].revision
    ensures OrderInv(t)
  {
    hide Increasing;
    assert forall job :: Fresh(s, job) <==> Fresh(t, job);
  }

  lemma RequeueFields(s: State, id: Id, order: seq<Pubkey>)
    requires id in s.clients && ClientEnabled(s, s.clients[id], Requeue(order))
    ensures var t := ClientStep(s, id, s.clients[id], Requeue(order));
            && (forall p :: p in order <==> p in s.parked)
            && t.queue == RequeueAll(s.queue, s.parked, order) && t.parked == map[]
            && t.handed == s.handed && t.log == s.log
  {
    assert forall p :: p in order <==> p in Elements(order);
    hide Newer, RequeueAll;
  }

  lemma RequeueFlight(s: State, id: Id, order: seq<Pubkey>)
    requires Inv(s) && id in s.clients && ClientEnabled(s, s.clients[id], Requeue(order))
    ensures InFlight(ClientStep(s, id, s.clients[id], Requeue(order))) == InFlight(s) == None
  {
    assert LaneExclusive(s) && HoldsLane(s.clients[id]);
    hide Inv, LaneExclusive, Newer, RequeueAll;
  }

  lemma RequeueOrder(s: State, id: Id, order: seq<Pubkey>)
    requires Inv(s) && OrderInv(s) && id in s.clients && ClientEnabled(s, s.clients[id], Requeue(order))
    ensures OrderInv(ClientStep(s, id, s.clients[id], Requeue(order)))
  {
    RequeueFields(s, id, order);
    RequeueFlight(s, id, order);
    hide ClientStep, ClientEnabled, InFlight, NoLostWakeup, LaneExclusive, Increasing, Among, NewerThanAll, Cleared;
    RequeueAllKeeps(s.queue, s.parked, order);
    hide Queue.Valid;
    Carry(s, ClientStep(s, id, s.clients[id], Requeue(order)));
  }

  lemma DiscardQueuedOrder(s: State, id: Id)
    requires Inv(s) && OrderInv(s) && id in s.clients && s.clients[id].NowLocked?
    ensures OrderInv(ClientStep(s, id, s.clients[id], NowDiscardQueued))
  {
    hide NoLostWakeup, Increasing, Among, NewerThanAll, Queue.Valid;
    var job := s.clients[id].job;
    assert s.lane == OfClient(id);
    assert InFlight(s) == Some(job);
    Carry(s, ClientStep(s, id, s.clients[id], NowDiscardQueued));
  }

  lemma LockOrder(s: State, id: Id)
    requires Inv(s) && OrderInv(s) && id in s.clients && ClientEnabled(s, s.clients[id], NowLock)
    requires Increasing(ClientStep(s, id, s.clients[id], NowLock).handed)
    ensures OrderInv(ClientStep(s, id, s.clients[id], NowLock))
  {
    hide Inv, Increasing, Among, NewerThanAll;
    HandOver(s, ClientStep(s, id, s.clients[id], NowLock), s.clients[id].job);
  }

  lemma SettledOrder(s: State, id: Id, deferred: bool)
    requires Inv(s) && OrderInv(s) && id in s.clients && ClientEnabled(s, s.clients[id], NowSettled(deferred))
    ensures OrderInv(ClientStep(s, id, s.clients[id], NowSettled(deferred)))
  {
    assert LaneExclusive(s) && HoldsLane(s.clients[id]);
    hide Inv, OrderInv, Settle;
    SettleOrder(s, ClientStep(s, id, s.clients[id], NowSettled(deferred)), s.clients[id].job, deferred);
  }

  /** Steps that hand over, publish and move nothing. */
  lemma QuietOrder(s: State, id: Id, a: ClientAction)
    requires Inv(s) && OrderInv(s) && id in s.clients && ClientEnabled(s, s.clients[id], a)
    requires a.Signal? || a.NowDiscardParked? || a.RequeueLock? || a.RequeueSignal?
    ensures OrderInv(ClientStep(s, id, s.clients[id], a))
  {
    assert LaneExclusive(s);
    assert HoldsLane(s.clients[id]) <==> s.lane == OfClient(id);
    hide Inv, Increasing, Fresh;
    Carry(s, ClientStep(s, id, s.clients[id], a));
  }

  lemma ClientOrder(s: State, id: Id, a: ClientAction)
    requires Inv(s) && OrderInv(s) && id in s.clients && ClientEnabled(s, s.clients[id], a)
    requires Increasing(ClientStep(s, id, s.clients[id], a).handed)
    ensures OrderInv(ClientStep(s, id, s.clients[id], a))
  {
    hide Inv, OrderInv, ClientStep, Increasing;
    match a {
      case NowLock => LockOrder(s, id);
      case NowSettled(deferred) => SettledOrder(s, id, deferred);
      case NowDiscardQueued => DiscardQueuedOrder(s, id);
      case Requeue(order) => RequeueOrder(s, id, order);
      case _ => QuietOrder(s, id, a);
    }
  }

  lemma StepKeepsOrder(s: State, a: Action)
    requires Inv(s) && OrderInv(s) && Enabled(s, a) && Increasing(Step(s, a).handed)
    ensures OrderInv(Step(s, a))
  {
    hide Inv, OrderInv, WorkerStep, ClientStep, CallStep, WorkerEnabled, ClientEnabled, CallEnabled, Increasing;
    match a
    case W(w) => WorkerOrder(s, w);
    case C(id, c) => if id in s.clients { ClientOrder(s, id, c); } else { CallOrder(s, id, c); }
  }

  lemma {:induction false} HandedGrows(s: State, run: seq<Action>)
    requires Runs(s, run)
    ensures s.handed <= After(s, run).handed
    decreases |run|
  {
    if run != [] { HandedGrows(Step(s, run[0]), run[1..]); }
  }

  lemma {:induction false} RunKeepsOrder(s: State, run: seq<Action>)
    requires Inv(s) && OrderInv(s) && Runs(s, run) && Increasing(After(s, run).handed)
    ensures OrderInv(After(s, run))
    decreases |run|
  {
    hide Step, Enabled, Inv, OrderInv;
    if run != [] {
      var t := Step(s, run[0]);
      HandedGrows(t, run[1..]);
      assert Increasing(t.handed) by {
        assert forall i | 0 <= i < |t.handed| :: t.handed[i] == After(s, run).handed[i];
      }
      StepKeepsOrder(s, run[0]);
      StepKeepsInv(s, run[0]);
      RunKeepsOrder(t, run[1..]);
    }
  }

  // ------------------------------------------------------------ exactly when order holds

  function Quiet(h: seq<Job>): State { INITIAL.(handed := h, log := h) }

  /** A job has been handed in and the woken worker holds the lane for it. */
  function Called(h: seq<Job>, job: Job): State {
    INITIAL.(queue := Pushed(EMPTY, job), handed := h + [job], log := h, worker := HasLane, lane := OfWorker)
  }

  lemma CalledPromptly(h: seq<Job>, job: Job) returns (run: seq<Action>)
    ensures Runs(Quiet(h), run) && After(Quiet(h), run) == Called(h, job)
  {
    var s0 := Quiet(h);
    var s1 := Step(s0, C(0, Submit(job)));
    var s2 := Step(s1, C(0, Signal));
    var s3 := Step(s2, W(Receive));
    assert Step(s3, W(Lock)) == Called(h, job) by { assert s2.clients == map[]; }
    run := FromActions(s0, [C(0, Submit(job)), C(0, Signal), W(Receive), W(Lock)]);
  }

  lemma SettledPromptly(h: seq<Job>, job: Job) returns (run: seq<Action>)
    ensures Runs(Called(h, job), run) && After(Called(h, job), run) == Quiet(h + [job])
  {
    var s4 := Called(h, job);
    var s5 := Step(s4, W(Pop));
    var s6 := Step(s5, W(Settled(false)));
    var s7 := Step(s6, W(Lock));
    assert Step(s7, W(Pop)) == Quiet(h + [job]) by { assert s5.queue == EMPTY; }
    run := FromActions(s4, [W(Pop), W(Settled(false)), W(Lock), W(Pop)]);
  }

  /** One submission, published before anything else happens. */
  lemma PublishedPromptly(h: seq<Job>, job: Job) returns (run: seq<Action>)
    ensures Runs(Quiet(h), run) && After(Quiet(h), run) == Quiet(h + [job])
  {
    run := CalledPromptly(h, job);
    var more := SettledPromptly(h, job);
    hide *;
    Append(Quiet(h), run, more);
    run := run + more;
  }

  /** A caller hands in a job. */
  predicate IsCall(a: Action) { a.C? && (a.act.Submit? || a.act.NowCall?) }

  function CallOf(a: Action): seq<Job> { if IsCall(a) then [a.act.job] else [] }

  /** The jobs callers hand in, in call order. */
  function Calls(run: seq<Action>): seq<Job> {
    if run == [] then [] else CallOf(run[0]) + Calls(run[1..])
  }

  lemma {:induction false} CallsAppend(a: seq<Action>, b: seq<Action>)
    ensures Calls(a + b) == Calls(a) + Calls(b)
  {
    hide CallOf;
    if a == [] {
      assert a + b == b;
    } else {
      var rest := a[1..];
      assert (a + b)[0] == a[0] && (a + b)[1..] == rest + b;
      assert Calls(a + b) == CallOf(a[0]) + Calls(rest + b) && Calls(a) == CallOf(a[0]) + Calls(rest);
      hide Calls;
      CallsAppend(rest, b);
    }
  }

  lemma ExtendOnce(s: State, run: seq<Action>, a: Action)
    requires Runs(s, run) && Enabled(After(s, run), a)
    ensures Runs(s, run + [a]) && After(s, run + [a]) == Step(After(s, run), a)
    ensures Calls(run + [a]) == Calls(run) + CallOf(a)
  {
    hide Step, Enabled;
    Extend(s, run, a);
    CallsAppend(run, [a]);
    assert [a][1..] == [];
  }

  /** Four actions, each possible in turn, make a run. */
  lemma FromActions(s: State, acts: seq<Action>) returns (run: seq<Action>)
    requires |acts| == 4
    requires Enabled(s, acts[0])
    requires Enabled(Step(s, acts[0]), acts[1])
    requires Enabled(Step(Step(s, acts[0]), acts[1]), acts[2])
    requires Enabled(Step(Step(Step(s, acts[0]), acts[1]), acts[2]), acts[3])
    ensures run == acts && Runs(s, run)
    ensures After(s, run) == Step(Step(Step(Step(s, acts[0]), acts[1]), acts[2]), acts[3])
    ensures Calls(run) == CallOf(acts[0]) + CallOf(acts[1]) + CallOf(acts[2]) + CallOf(acts[3])
  {
    hide Step, Enabled, CallOf;
    var start: seq<Action> := [];
    ExtendOnce(s, start, acts[0]);
    ExtendOnce(s, start + [acts[0]], acts[1]);
    ExtendOnce(s, start + [acts[0]] + [acts[1]], acts[2]);
    ExtendOnce(s, start + [acts[0]] + [acts[1]] + [acts[2]], acts[3]);
    run := acts;
    assert run == start + [acts[0]] + [acts[1]] + [acts[2]] + [acts[3]];
  }

  lemma {:induction false} AllPromptly(h: seq<Job>, more: seq<Job>) returns (run: seq<Action>)
    ensures Runs(Quiet(h), run) && After(Quiet(h), run) == Quiet(h + more)
    decreases |more|
  {
    hide Step, Enabled;
    if more == [] {
      run := [];
      assert h + more == h;
    } else {
      var first := PublishedPromptly(h, more[0]);
      var rest := AllPromptly(h + [more[0]], more[1..]);
      Append(Quiet(h), first, rest);
      run := first + rest;
      assert h + [more[0]] + more[1..] == h + more;
    }
  }

  /** Whatever the interleaving, settled revisions of each pubkey strictly increase, exactly when the publisher
      takes charge of each pubkey's jobs in increasing order. */
  lemma PublicationsIncreaseExactly(h: seq<Job>)
    ensures (forall run | Runs(INITIAL, run) && After(INITIAL, run).handed == h :: Increasing(After(INITIAL, run).log))
            <==> Increasing(h)
  {
    hide Step, Enabled;
    if Increasing(h) {
      forall run | Runs(INITIAL, run) && After(INITIAL, run).handed == h
        ensures Increasing(After(INITIAL, run).log)
      {
        RunKeepsOrder(INITIAL, run);
      }
    } else {
      var run := AllPromptly([], h);
      assert Quiet([]) == INITIAL && [] + h == h;
    }
  }

  // --------------------------------------------------------------- what callers must do

  /** Each call names a newer revision than any before it for its pubkey, and nothing is handed over for a
      pubkey while a `publish_now` of it waits for the lane. */
  ghost predicate InTurn(s: State, job: Job) {
    && NewerThanAll(s.handed, job)
    && forall id | id in s.clients && s.clients[id].NowWaiting? :: s.clients[id].job.pubkey != job.pubkey
  }

  ghost predicate Disciplined(s: State, run: seq<Action>)
    requires Runs(s, run)
    decreases |run|
  {
    run != [] ==>
      && (IsCall(run[0]) ==> InTurn(s, run[0].act.job))
      && Disciplined(Step(s, run[0]), run[1..])
  }

  ghost predicate Waiting(s: State, id: Id) { id in s.clients && s.clients[id].NowWaiting? }

  ghost predicate TurnInv(s: State) {
    && Increasing(s.handed)
    && (forall id | Waiting(s, id) :: NewerThanAll(s.handed, s.clients[id].job))
    && (forall id, other | Waiting(s, id) && Waiting(s, other) && id != other ::
          s.clients[id].job.pubkey != s.clients[other].job.pubkey)
  }

  lemma TurnTaken(h: seq<Job>, job: Job)
    requires Increasing(h) && NewerThanAll(h, job)
    ensures Increasing(h + [job])
    ensures forall other: Job | NewerThanAll(h, other) && other.pubkey != job.pubkey :: NewerThanAll(h + [job], other)
  {
  }

  lemma ClientKeepsTurn(s: State, id: Id, a: ClientAction)
    requires TurnInv(s) && id in s.clients && ClientEnabled(s, s.clients[id], a)
    ensures TurnInv(ClientStep(s, id, s.clients[id], a))
  {
    hide Increasing, NewerThanAll, RequeueAll, Settle, Discarded;
    var t := ClientStep(s, id, s.clients[id], a);
    assert !Waiting(t, id);
    assert forall other | other != id ::
             Waiting(t, other) ==> Waiting(s, other) && t.clients[other] == s.clients[other];
    if a.NowLock? {
      assert Waiting(s, id);
      TurnTaken(s.handed, s.clients[id].job);
    } else {
      assert t.handed == s.handed;
    }
  }

  lemma CallKeepsTurn(s: State, id: Id, a: ClientAction)
    requires TurnInv(s) && id !in s.clients && CallEnabled(s, a)
    requires a.Submit? || a.NowCall? ==> InTurn(s, a.job)
    ensures TurnInv(CallStep(s, id, a))
  {
    hide Increasing, NewerThanAll, Pushed;
    var t := CallStep(s, id, a);
    assert forall other | other != id ::
             Waiting(t, other) ==> Waiting(s, other) && t.clients[other] == s.clients[other];
    if a.Submit? {
      TurnTaken(s.handed, a.job);
      assert !Waiting(t, id);
    }
  }

  lemma StepKeepsTurn(s: State, a: Action)
    requires TurnInv(s) && Enabled(s, a)
    requires IsCall(a) ==> InTurn(s, a.act.job)
    ensures TurnInv(Step(s, a))
  {
    hide Increasing, NewerThanAll, ClientStep, ClientEnabled, CallStep, CallEnabled, Settle, Popped;
    match a
    case W(w) =>
      assert forall id :: Waiting(WorkerStep(s, w), id) <==> Waiting(s, id);
    case C(id, c) =>
      hide TurnInv, InTurn;
      if id in s.clients { ClientKeepsTurn(s, id, c); } else { CallKeepsTurn(s, id, c); }
  }

  lemma {:induction false} RunKeepsTurn(s: State, run: seq<Action>)
    requires TurnInv(s) && Runs(s, run) && Disciplined(s, run)
    ensures TurnInv(After(s, run))
    decreases |run|
  {
    hide Step, Enabled, TurnInv;
    if run != [] {
      StepKeepsTurn(s, run[0]);
      RunKeepsTurn(Step(s, run[0]), run[1..]);
    }
  }

  /** Callers that hand over increasing revisions, never during a wait for the same pubkey, see each pubkey's
      publications settle in strictly increasing order, under every interleaving and every refusal. */
  lemma DisciplinedCallersStayInOrder(run: seq<Action>)
    requires Runs(INITIAL, run) && Disciplined(INITIAL, run)
    ensures Increasing(After(INITIAL, run).log)
  {
    hide Step, Enabled;
    RunKeepsTurn(INITIAL, run);
    RunKeepsOrder(INITIAL, run);
  }

  const B1 := Job("b", 1, "", 0)
  const B2 := Job("b", 2, "", 0)
  const A1 := Job("a", 1, "", 0)
  const A2 := Job("a", 2, "", 0)

  const WOKEN := INITIAL.(queue := Queue(["b"], map["b" := B1]), signal := true, lane := OfClient(2),
                          clients := map[2 := NowLocked(B2)], handed := [B1, B2])
  const EMPTIED := WOKEN.(queue := EMPTY, signal := false, worker := WantsLane, clients := map[2 := NowDiscarded(B2)])
  const QUEUED := WOKEN.(queue := Queue(["a"], map["a" := A2]), signal := false, worker := WantsLane,
                         clients := map[2 := NowDiscarded(B2), 3 := NowWaiting(A1), 4 := Signalling],
                         handed := [B1, B2, A2])
  const SETTLED := QUEUED.(lane := Free, clients := map[3 := NowWaiting(A1), 4 := Signalling], log := [B2])
  const AHEAD := QUEUED.(queue := EMPTY, lane := OfWorker, worker := Publishing(A2),
                         clients := map[3 := NowWaiting(A1), 4 := Signalling], log := [B2])
  const BEHIND := AHEAD.(lane := OfClient(3), worker := WantsLane, handed := [B1, B2, A2, A1],
                         clients := map[3 := NowPublishing(A1), 4 := Signalling], log := [B2, A2])

  lemma ReachWoken() returns (run: seq<Action>)
    ensures Runs(INITIAL, run) && After(INITIAL, run) == WOKEN && Calls(run) == [B1, B2]
  {
    run := FromActions(INITIAL, [C(1, Submit(B1)), C(1, Signal), C(2, NowCall(B2)), C(2, NowLock)]);
    var s := Step(Step(INITIAL, C(1, Submit(B1))), C(1, Signal));
    assert s.clients == map[];
  }

  lemma BIsDiscarded()
    ensures Enabled(WOKEN, W(Receive)) && Enabled(Step(WOKEN, W(Receive)), C(2, NowDiscardQueued))
    ensures Step(Step(WOKEN, W(Receive)), C(2, NowDiscardQueued)) == EMPTIED
  {
    var q := Discarded(WOKEN.queue, "b", 2);
    assert q.order == [] && q.jobs == map[];
    assert WOKEN.clients[2 := NowDiscarded(B2)] == EMPTIED.clients;
  }

  lemma AIsQueued()
    ensures Enabled(EMPTIED, C(3, NowCall(A1))) && Enabled(Step(EMPTIED, C(3, NowCall(A1))), C(4, Submit(A2)))
    ensures Step(Step(EMPTIED, C(3, NowCall(A1))), C(4, Submit(A2))) == QUEUED
  {
    assert EMPTIED.clients[3 := NowWaiting(A1)][4 := Signalling] == QUEUED.clients;
  }

  lemma ReachQueued() returns (run: seq<Action>)
    ensures Runs(WOKEN, run) && After(WOKEN, run) == QUEUED && Calls(run) == [A1, A2]
  {
    BIsDiscarded();
    AIsQueued();
    hide Step, Enabled;
    run := FromActions(WOKEN, [W(Receive), C(2, NowDiscardQueued), C(3, NowCall(A1)), C(4, Submit(A2))]);
  }

  lemma BEndsFirst()
    ensures Enabled(QUEUED, C(2, NowDiscardParked))
            && Enabled(Step(QUEUED, C(2, NowDiscardParked)), C(2, NowSettled(false)))
    ensures Step(Step(QUEUED, C(2, NowDiscardParked)), C(2, NowSettled(false))) == SETTLED
  {
    assert QUEUED.clients[2 := NowPublishing(B2)] - {2} == SETTLED.clients;
  }

  lemma AIsPopped()
    ensures Enabled(SETTLED, W(Lock)) && Enabled(Step(SETTLED, W(Lock)), W(Pop))
    ensures Step(Step(SETTLED, W(Lock)), W(Pop)) == AHEAD
  {
    assert Popped(SETTLED.queue) == EMPTY;
  }

  lemma ReachAhead() returns (run: seq<Action>)
    ensures Runs(QUEUED, run) && After(QUEUED, run) == AHEAD && Calls(run) == []
  {
    BEndsFirst();
    AIsPopped();
    hide Step, Enabled;
    run := FromActions(QUEUED, [C(2, NowDiscardParked), C(2, NowSettled(false)), W(Lock), W(Pop)]);
  }

  lemma ReachBehind() returns (run: seq<Action>)
    ensures Runs(AHEAD, run) && After(AHEAD, run) == BEHIND && Calls(run) == []
  {
    run := FromActions(AHEAD, [W(Settled(false)), C(3, NowLock), C(3, NowDiscardQueued), C(3, NowDiscardParked)]);
  }

  /** Increasing revisions alone are not enough. While an awaited publication of "b" holds the lane, the woken
      worker queues for the lane first, then `publish_now` of revision 1 of "a" queues behind it, then revision 2
      of "a" is submitted: the worker publishes revision 2 and revision 1 settles last. */
  lemma WaitingPublicationOvertaken() returns (run: seq<Action>)
    ensures Runs(INITIAL, run) && After(INITIAL, run).log == [B2, A2, A1] && !Increasing(After(INITIAL, run).log)
    ensures Calls(run) == [B1, B2, A1, A2] && Increasing(Calls(run))
  {
    run := AllTheWay();
    LastSettles();
    hide Runs, After, Calls, Step, Enabled;
    ExtendOnce(INITIAL, run, C(3, NowSettled(false)));
    run := run + [C(3, NowSettled(false))];
    assert [B2, A2, A1][1] == A2 && [B2, A2, A1][2] == A1;
  }

  lemma LastSettles()
    ensures Enabled(BEHIND, C(3, NowSettled(false))) && Step(BEHIND, C(3, NowSettled(false))).log == [B2, A2, A1]
  {
  }

  lemma AllTheWay() returns (run: seq<Action>)
    ensures Runs(INITIAL, run) && After(INITIAL, run) == BEHIND && Calls(run) == [B1, B2, A1, A2]
  {
    hide Runs, After, Calls;
    run := ReachWoken();
    var next := ReachQueued();
    Compose(INITIAL, run, WOKEN, next);
    run := run + next;
    next := ReachAhead();
    Compose(INITIAL, run, QUEUED, next);
    run := run + next;
    next := ReachBehind();
    Compose(INITIAL, run, AHEAD, next);
    run := run + next;
  }

  lemma Compose(s: State, run: seq<Action>, t: State, next: seq<Action>)
    requires Runs(s, run) && After(s, run) == t && Runs(t, next)
    ensures Runs(s, run + next) && After(s, run + next) == After(t, next)
    ensures Calls(run + next) == Calls(run) + Calls(next)
  {
    Append(s, run, next);
    CallsAppend(run, next);
  }
}
