/** No job is lost: while the worker lives, the last job handed over for a pubkey is queued, parked, being published or
    settled, and once nothing is left to do it is what the relay has last. */
module PresenceKept {
  import opened Order
  import opened PendingQueue
  import opened PresenceProtocol
  import opened PresenceOrder
  import opened PresenceProgress
  import opened PresenceReplaced

  /** The same job, however often it was refused. */
  predicate Same(a: Job, b: Job) { a.(deferrals := 0) == b.(deferrals := 0) }

  /** The last job of a pubkey in a list. */
  function Last(l: seq<Job>, p: Pubkey): Option<Job> {
    if l == [] then None else if l[|l| - 1].pubkey == p then Some(l[|l| - 1]) else Last(l[..|l| - 1], p)
  }

  ghost predicate Holds(jobs: map<Pubkey, Job>, job: Job) { job.pubkey in jobs && Same(jobs[job.pubkey], job) }

  ghost predicate Contains(l: seq<Job>, job: Job) { exists i :: 0 <= i < |l| && Same(l[i], job) }

  /** Queued, parked, being published or settled. */
  ghost predicate Kept(s: State, job: Job) {
    || Holds(s.queue.jobs, job)
    || Holds(s.parked, job)
    || (InFlight(s).Some? && Same(InFlight(s).value, job))
    || Contains(s.log, job)
  }

  /** Every job anywhere was handed over. */
  ghost predicate Known(s: State) {
    && (forall p | p in s.queue.jobs :: Contains(s.handed, s.queue.jobs[p]))
    && (forall p | p in s.parked :: Contains(s.handed, s.parked[p]))
    && (InFlight(s).Some? ==> Contains(s.handed, InFlight(s).value))
    && (forall i | 0 <= i < |s.log| :: Contains(s.handed, s.log[i]))
  }

  ghost predicate LastKept(s: State, p: Pubkey) { Last(s.handed, p).Some? ==> Kept(s, Last(s.handed, p).value) }

  ghost predicate KeptInv(s: State) { Known(s) && forall p :: LastKept(s, p) }

  lemma LastMore(l: seq<Job>, job: Job, p: Pubkey)
    ensures Last(l + [job], p) == if job.pubkey == p then Some(job) else Last(l, p)
  {
    assert (l + [job])[..|l|] == l;
  }

  lemma {:induction false} LastAt(l: seq<Job>, p: Pubkey) returns (i: nat)
    requires exists k :: 0 <= k < |l| && l[k].pubkey == p
    ensures i < |l| && l[i].pubkey == p && Last(l, p) == Some(l[i]) && forall j | i < j < |l| :: l[j].pubkey != p
  {
    i := |l| - 1;
    if l[i].pubkey != p {
      var k :| 0 <= k < |l| && l[k].pubkey == p;
      assert l[..i][k] == l[k];
      i := LastAt(l[..i], p);
    }
  }

  lemma {:induction false} LastIsThere(l: seq<Job>, p: Pubkey)
    ensures Last(l, p).Some? ==> Last(l, p).value.pubkey == p && Contains(l, Last(l, p).value)
  {
    if l != [] {
      var n := |l| - 1;
      if l[n].pubkey == p {
        assert Same(l[n], l[n]);
      } else if Last(l[..n], p).Some? {
        LastIsThere(l[..n], p);
        ContainsMore(l[..n], l, Last(l[..n], p).value);
      }
    }
  }

  /** Along increasing revisions a known job is the last one or older. */
  lemma LastIsNewest(l: seq<Job>, job: Job)
    requires Increasing(l) && Contains(l, job)
    ensures var last := Last(l, job.pubkey);
            && last.Some? && last.value.pubkey == job.pubkey && job.revision <= last.value.revision
            && (job.revision == last.value.revision ==> Same(job, last.value))
  {
    var j :| 0 <= j < |l| && Same(l[j], job);
    var i := LastAt(l, job.pubkey);
    assert j <= i;
  }

  lemma ContainsMore(l: seq<Job>, m: seq<Job>, job: Job)
    requires Contains(l, job) && l <= m
    ensures Contains(m, job)
  {
    var i :| 0 <= i < |l| && Same(l[i], job);
    assert m[i] == l[i];
  }

  lemma ContainsSame(l: seq<Job>, job: Job, other: Job)
    requires Contains(l, job) && Same(job, other)
    ensures Contains(l, other)
  {
    var i :| 0 <= i < |l| && Same(l[i], job);
    assert Same(l[i], other);
  }

  lemma ContainsLast(l: seq<Job>, job: Job)
    ensures Contains(l + [job], job)
  {
    assert (l + [job])[|l|] == job;
  }

  // -------------------------------------------------------------- steps that hand over nothing

  /** A step that hands over and settles nothing keeps what it keeps of every last job. */
  lemma MovesOnly(s: State, t: State)
    requires KeptInv(s) && t.handed == s.handed && t.log == s.log
    requires forall p | p in t.queue.jobs :: Contains(s.handed, t.queue.jobs[p])
    requires forall p | p in t.parked :: Contains(s.handed, t.parked[p])
    requires InFlight(t).Some? ==> Contains(s.handed, InFlight(t).value)
    requires forall p | Last(s.handed, p).Some? && Kept(s, Last(s.handed, p).value) :: Kept(t, Last(s.handed, p).value)
    ensures KeptInv(t)
  {
    hide Kept, Contains, Last;
    forall p ensures LastKept(t, p) { assert LastKept(s, p); }
  }

  /** What a publication that ends leaves of the last job of a pubkey. */
  lemma SettledKeeps(s: State, t: State, job: Job, deferred: bool, last: Job)
    requires Increasing(s.handed) && Known(s) && InFlight(s) == Some(job) && FiledByPubkey(s.parked)
    requires t.queue == s.queue
    requires t.parked == Settle(s.parked, job, deferred) && t.log == if deferred then s.log else s.log + [job]
    requires Last(s.handed, last.pubkey) == Some(last) && Kept(s, last)
    ensures Kept(t, last)
  {
    LastIsNewest(s.handed, job);
    if last.pubkey in s.parked { LastIsNewest(s.handed, s.parked[last.pubkey]); }
    ContainsLast(s.log, job);
    if Same(job, last) { ContainsSame(s.log + [job], job, last); }
    hide Increasing, Contains, Last;
    if Contains(s.log, last) { ContainsMore(s.log, t.log, last); }
  }

  lemma SettleKept(s: State, t: State, job: Job, deferred: bool)
    requires Inv(s) && Increasing(s.handed) && KeptInv(s) && InFlight(s) == Some(job)
    requires t.queue == s.queue && t.handed == s.handed && InFlight(t) == None
    requires t.parked == Settle(s.parked, job, deferred) && t.log == if deferred then s.log else s.log + [job]
    ensures KeptInv(t)
  {
    assert FiledByPubkey(s.parked);
    ContainsSame(s.handed, job, job.(deferrals := job.deferrals + 1));
    hide Inv, InFlight, Increasing, Contains, Last, Kept;
    forall p ensures LastKept(t, p) {
      assert LastKept(s, p);
      if Last(s.handed, p).Some? {
        LastIsThere(s.handed, p);
        SettledKeeps(s, t, job, deferred, Last(s.handed, p).value);
      }
    }
    hide FiledByPubkey;
    assert Known(t);
  }

  lemma PopKept(s: State)
    requires Inv(s) && KeptInv(s) && WorkerEnabled(s, Pop)
    ensures KeptInv(WorkerStep(s, Pop))
  {
    var t := WorkerStep(s, Pop);
    PopValid(s.queue);
    QueueFiled(s.queue);
    assert LaneExclusive(s) && InFlight(s) == None;
    hide Inv, LaneExclusive, Queue.Valid, Contains, Last, FiledByPubkey, NoLostWakeup;
    MovesOnly(s, t);
  }

  lemma WorkerKept(s: State, a: WorkerAction)
    requires Inv(s) && Increasing(s.handed) && KeptInv(s) && WorkerEnabled(s, a) && !a.End?
    ensures KeptInv(WorkerStep(s, a))
  {
    assert LaneExclusive(s);
    match a {
      case Settled(deferred) =>
        hide Inv, KeptInv, Settle;
        SettleKept(s, WorkerStep(s, a), s.worker.job, deferred);
      case Pop =>
        hide Inv, KeptInv, WorkerStep;
        PopKept(s);
      case End =>
      case _ =>
        hide Inv, Contains, Last, Holds, Same;
        MovesOnly(s, WorkerStep(s, a));
    }
  }

  /** Without the older jobs of its pubkey, the queue or the parked table still holds what it held last. */
  lemma DiscardKeeps(handed: seq<Job>, jobs: map<Pubkey, Job>, rest: map<Pubkey, Job>, job: Job, last: Job)
    requires Increasing(handed) && Contains(handed, job) && FiledByPubkey(jobs)
    requires Last(handed, last.pubkey) == Some(last)
    requires rest == if job.pubkey in jobs && jobs[job.pubkey].revision <= job.revision
             then jobs - {job.pubkey} else jobs
    requires Holds(jobs, last)
    ensures Holds(rest, last) || Same(job, last)
  {
    LastIsNewest(handed, job);
  }

  lemma DiscardKept(s: State, t: State, job: Job)
    requires Inv(s) && Increasing(s.handed) && KeptInv(s) && InFlight(s) == Some(job) && InFlight(t) == Some(job)
    requires t.handed == s.handed && t.log == s.log
    requires t.queue == s.queue || t.queue == Discarded(s.queue, job.pubkey, job.revision)
    requires t.parked == s.parked || t.parked == DiscardParked(s.parked, job.pubkey, job.revision)
    ensures KeptInv(t)
  {
    QueueFiled(s.queue);
    assert FiledByPubkey(s.parked) && FiledByPubkey(s.queue.jobs);
    hide Inv, Queue.Valid, InFlight, Increasing, Contains, Last, Same;
    forall p | Last(s.handed, p).Some? && Kept(s, Last(s.handed, p).value) ensures Kept(t, Last(s.handed, p).value) {
      LastIsThere(s.handed, p);
      var last := Last(s.handed, p).value;
      if Holds(s.queue.jobs, last) && t.queue != s.queue {
        DiscardKeeps(s.handed, s.queue.jobs, t.queue.jobs, job, last);
      }
      if Holds(s.parked, last) && t.parked != s.parked { DiscardKeeps(s.handed, s.parked, t.parked, job, last); }
    }
    hide Kept, Holds;
    MovesOnly(s, t);
  }

  /** After a requeue the queue holds every last job that was queued or parked. */
  lemma {:induction false} RequeueHolds(handed: seq<Job>, q: Queue, parked: map<Pubkey, Job>, order: seq<Pubkey>,
                                        last: Job)
    requires Increasing(handed) && FiledByPubkey(parked) && (forall p | p in order :: p in parked)
    requires forall p | p in parked :: Contains(handed, parked[p])
    requires forall p | p in q.jobs :: q.jobs[p].pubkey == p && Contains(handed, q.jobs[p])
    requires Last(handed, last.pubkey) == Some(last)
    requires Holds(q.jobs, last) || (last.pubkey in order && Holds(parked, last))
    ensures Holds(RequeueAll(q, parked, order).jobs, last)
    decreases |order|
  {
    if order != [] {
      var job := parked[order[0]];
      LastIsNewest(handed, job);
      if last.pubkey in q.jobs { LastIsNewest(handed, q.jobs[last.pubkey]); }
      hide Increasing, Contains, Last;
      RequeueHolds(handed, if Newer(q, job) then Pushed(q, job) else q, parked, order[1..], last);
    }
  }

  lemma RequeueKept(s: State, id: Id, order: seq<Pubkey>)
    requires Inv(s) && Increasing(s.handed) && KeptInv(s) && id in s.clients
    requires ClientEnabled(s, s.clients[id], Requeue(order))
    ensures KeptInv(ClientStep(s, id, s.clients[id], Requeue(order)))
  {
    var t := ClientStep(s, id, s.clients[id], Requeue(order));
    RequeueFields(s, id, order);
    RequeueFlight(s, id, order);
    QueueFiled(s.queue);
    RequeueAllKeeps(s.queue, s.parked, order);
    assert FiledByPubkey(s.parked);
    hide Inv, Queue.Valid, InFlight, Increasing, Contains, Last, Same, ClientStep, ClientEnabled, Newer, RequeueAll;
    forall p | Last(s.handed, p).Some? && Kept(s, Last(s.handed, p).value) ensures Kept(t, Last(s.handed, p).value) {
      LastIsThere(s.handed, p);
      var last := Last(s.handed, p).value;
      if Holds(s.queue.jobs, last) || Holds(s.parked, last) {
        RequeueHolds(s.handed, s.queue, s.parked, order, last);
      }
    }
    hide Kept, Holds;
    MovesOnly(s, t);
  }

  // ------------------------------------------------------------------ steps that hand over a job

  lemma HandOverKept(s: State, t: State, job: Job)
    requires KeptInv(s) && t.handed == s.handed + [job] && t.log == s.log && t.parked == s.parked
    requires Kept(t, job)
    requires forall p | p in t.queue.jobs ::
               t.queue.jobs[p] == job || (p in s.queue.jobs && t.queue.jobs[p] == s.queue.jobs[p])
    requires InFlight(t).Some? ==> InFlight(t).value == job || InFlight(t) == InFlight(s)
    requires forall last: Job | last.pubkey != job.pubkey && Kept(s, last) :: Kept(t, last)
    ensures KeptInv(t)
  {
    ContainsLast(s.handed, job);
    hide Kept, InFlight, Contains;
    forall other | Contains(s.handed, other) ensures Contains(t.handed, other) {
      ContainsMore(s.handed, t.handed, other);
    }
    forall p ensures LastKept(t, p) {
      LastMore(s.handed, job, p);
      LastIsThere(s.handed, p);
      assert LastKept(s, p);
    }
  }

  lemma CallKept(s: State, id: Id, a: ClientAction)
    requires Inv(s) && KeptInv(s) && id !in s.clients && CallEnabled(s, a)
    ensures KeptInv(CallStep(s, id, a))
  {
    var t := CallStep(s, id, a);
    assert LaneExclusive(s) && InFlight(t) == InFlight(s);
    hide Inv, LaneExclusive, InFlight, Contains, Last;
    if a.Submit? {
      assert Holds(t.queue.jobs, a.job);
      HandOverKept(s, t, a.job);
    } else {
      hide Holds, Same;
      MovesOnly(s, t);
    }
  }

  lemma LockKept(s: State, id: Id)
    requires Inv(s) && KeptInv(s) && id in s.clients && ClientEnabled(s, s.clients[id], NowLock)
    ensures KeptInv(ClientStep(s, id, s.clients[id], NowLock))
  {
    var job, t := s.clients[id].job, ClientStep(s, id, s.clients[id], NowLock);
    assert InFlight(s) == None && InFlight(t) == Some(job);
    hide Inv, InFlight, Contains, Last;
    HandOverKept(s, t, job);
  }

  /** A signal clears the queue only when the worker has ended. */
  lemma QuietKept(s: State, id: Id, a: ClientAction)
    requires Inv(s) && KeptInv(s) && id in s.clients && ClientEnabled(s, s.clients[id], a) && s.worker != Gone
    requires a.Signal? || a.RequeueLock? || a.RequeueSignal?
    ensures KeptInv(ClientStep(s, id, s.clients[id], a))
  {
    assert LaneExclusive(s);
    assert HoldsLane(s.clients[id]) <==> s.lane == OfClient(id);
    hide Inv, Contains, Last, Holds, Same;
    MovesOnly(s, ClientStep(s, id, s.clients[id], a));
  }

  lemma ClientKept(s: State, id: Id, a: ClientAction)
    requires Inv(s) && Increasing(s.handed) && KeptInv(s) && id in s.clients && ClientEnabled(s, s.clients[id], a)
    requires s.worker != Gone
    ensures KeptInv(ClientStep(s, id, s.clients[id], a))
  {
    assert LaneExclusive(s);
    assert HoldsLane(s.clients[id]) <==> s.lane == OfClient(id);
    hide Inv, KeptInv, Increasing, Settle, Discarded, DiscardParked;
    var c := s.clients[id];
    match a {
      case NowLock => hide ClientStep; LockKept(s, id);
      case NowSettled(deferred) => SettleKept(s, ClientStep(s, id, c, a), c.job, deferred);
      case NowDiscardQueued => DiscardKept(s, ClientStep(s, id, c, a), c.job);
      case NowDiscardParked => DiscardKept(s, ClientStep(s, id, c, a), c.job);
      case Requeue(order) => hide ClientStep; RequeueKept(s, id, order);
      case _ => hide ClientStep; QuietKept(s, id, a);
    }
  }

  lemma StaysAlive(s: State, a: Action)
    requires Enabled(s, a) && a != W(End) && s.worker != Gone
    ensures Step(s, a).worker != Gone
  {
    hide Settle, Popped, Pushed, Discarded, DiscardParked, RequeueAll, Newer;
  }

  lemma StepKept(s: State, a: Action)
    requires Inv(s) && Increasing(s.handed) && KeptInv(s) && Enabled(s, a) && a != W(End) && s.worker != Gone
    ensures KeptInv(Step(s, a)) && Step(s, a).worker != Gone
  {
    StaysAlive(s, a);
    hide Inv, KeptInv, Increasing, WorkerStep, ClientStep, CallStep, WorkerEnabled, ClientEnabled, CallEnabled;
    match a
    case W(w) => WorkerKept(s, w);
    case C(id, c) => if id in s.clients { ClientKept(s, id, c); } else { CallKept(s, id, c); }
  }

  // -------------------------------------------------------------------------------- whole runs

  /** The worker does not end. */
  predicate Lives(run: seq<Action>) { forall i | 0 <= i < |run| :: run[i] != W(End) }

  lemma {:induction false} RunKept(s: State, run: seq<Action>)
    requires Inv(s) && KeptInv(s) && s.worker != Gone && Runs(s, run) && Lives(run)
    requires Increasing(After(s, run).handed)
    ensures KeptInv(After(s, run)) && Inv(After(s, run)) && After(s, run).worker != Gone
    decreases |run|
  {
    hide Step, Enabled, Inv, KeptInv;
    if run != [] {
      var t := Step(s, run[0]);
      HandedGrows(s, run);
      HandedGrows(t, run[1..]);
      PrefixIncreasing(s.handed, After(s, run).handed);
      hide Increasing;
      StepKept(s, run[0]);
      StepKeepsInv(s, run[0]);
      RunKept(t, run[1..]);
    }
  }

  lemma PrefixIncreasing(l: seq<Job>, m: seq<Job>)
    requires l <= m && Increasing(m)
    ensures Increasing(l)
  {
    assert forall i | 0 <= i < |l| :: l[i] == m[i];
  }

  /** Over every run in which jobs are handed over in increasing order and the worker does not end, the last job handed
      over for a pubkey is queued, parked, being published or settled. */
  lemma LastJobIsKept(run: seq<Action>, p: Pubkey)
    requires Runs(INITIAL, run) && Lives(run) && Increasing(After(INITIAL, run).handed)
    ensures var s := After(INITIAL, run); Last(s.handed, p).Some? ==> Kept(s, Last(s.handed, p).value)
  {
    assert Inv(INITIAL) && KeptInv(INITIAL);
    RunKept(INITIAL, run);
    assert LastKept(After(INITIAL, run), p);
  }

  lemma NothingInFlight(s: State)
    requires Inv(s) && s.worker != Gone && forall a | Enabled(s, a) :: !Internal(a)
    ensures InFlight(s) == None && s.queue.jobs == map[]
  {
    if s.queue.jobs != map[] { var a := NeverStuck(s); }
    LaneIsFree(s);
  }

  /** What the relay has last of a pubkey is the last job handed over for it, once no step is left but new calls and
      nothing is parked. */
  lemma LastJobIsSettled(run: seq<Action>, p: Pubkey)
    requires Runs(INITIAL, run) && Lives(run) && Increasing(After(INITIAL, run).handed)
    requires After(INITIAL, run).parked == map[] && forall a | Enabled(After(INITIAL, run), a) :: !Internal(a)
    ensures var s := After(INITIAL, run);
            match Last(s.handed, p)
            case None => Last(s.log, p) == None
            case Some(job) => Last(s.log, p).Some? && Same(Last(s.log, p).value, job)
  {
    var s := After(INITIAL, run);
    assert Inv(INITIAL) && KeptInv(INITIAL) && OrderInv(INITIAL);
    RunKept(INITIAL, run);
    RunKeepsOrder(INITIAL, run);
    NothingInFlight(s);
    hide Runs, After, Enabled, Internal, Inv, InFlight, Lives;
    assert LastKept(s, p) && Increasing(s.log);
    LastIsThere(s.log, p);
    LastIsThere(s.handed, p);
    if Last(s.log, p).Some? {
      KnownInLog(s, Last(s.log, p).value);
      LastIsNewest(s.handed, Last(s.log, p).value);
    }
    if Last(s.handed, p).Some? { LastIsNewest(s.log, Last(s.handed, p).value); }
  }

  lemma KnownInLog(s: State, job: Job)
    requires Known(s) && Contains(s.log, job)
    ensures Contains(s.handed, job)
  {
    var i :| 0 <= i < |s.log| && Same(s.log[i], job);
    ContainsSame(s.handed, s.log[i], job);
  }

  // ------------------------------------------------------------------------ every call is taken

  /** The publisher has taken charge of the job, or a `publish_now` of it waits for the lane. */
  ghost predicate Taken(s: State, job: Job) {
    job in s.handed || exists id :: id in s.clients && s.clients[id] == NowWaiting(job)
  }

  lemma StepTakes(s: State, a: Action, job: Job)
    requires Enabled(s, a) && (Taken(s, job) || job in CallOf(a))
    ensures Taken(Step(s, a), job)
  {
    var t := Step(s, a);
    StepLog(s, a);
    if job in s.handed {
      assert job in t.handed;
    } else if job in CallOf(a) {
      assert a.id in t.clients && (t.clients[a.id] == NowWaiting(job) || job in t.handed);
    } else {
      var id :| id in s.clients && s.clients[id] == NowWaiting(job);
      WaitingStays(s, a, id);
    }
  }

  lemma WaitingStays(s: State, a: Action, id: Id)
    requires Enabled(s, a) && id in s.clients && s.clients[id].NowWaiting?
    ensures var t := Step(s, a);
            (id in t.clients && t.clients[id] == s.clients[id]) || s.clients[id].job in t.handed
  {
    hide ClientStep, WorkerStep, CallStep;
    match a {
      case W(w) => WorkerClients(s, w);
      case C(k, c) =>
        if k in s.clients { ClientClients(s, k, c); } else { CallClients(s, k, c); }
    }
  }

  lemma WorkerClients(s: State, a: WorkerAction)
    requires WorkerEnabled(s, a)
    ensures WorkerStep(s, a).clients == s.clients
  {
    hide Settle, Popped;
  }

  lemma CallClients(s: State, k: Id, a: ClientAction)
    requires CallEnabled(s, a) && k !in s.clients
    ensures forall id | id in s.clients ::
              id in CallStep(s, k, a).clients && CallStep(s, k, a).clients[id] == s.clients[id]
  {
  }

  lemma ClientClients(s: State, k: Id, a: ClientAction)
    requires k in s.clients && ClientEnabled(s, s.clients[k], a)
    ensures var t := ClientStep(s, k, s.clients[k], a);
            && (forall id | id in s.clients && id != k :: id in t.clients && t.clients[id] == s.clients[id])
            && (s.clients[k].NowWaiting? ==> t.handed == s.handed + [s.clients[k].job])
  {
    hide Settle, Popped, Pushed, Discarded, DiscardParked, RequeueAll, Newer;
  }

  lemma {:induction false} RunTakes(s: State, run: seq<Action>, job: Job)
    requires Runs(s, run) && (Taken(s, job) || job in Calls(run))
    ensures Taken(After(s, run), job)
    decreases |run|
  {
    hide Taken, Step, Enabled, CallOf;
    if run != [] {
      if Taken(s, job) || job in CallOf(run[0]) { StepTakes(s, run[0], job); }
      RunTakes(Step(s, run[0]), run[1..], job);
    }
  }

  /** Where no step is left but new calls, the publisher has taken charge of every job any caller handed in. */
  lemma EveryCallIsTaken(run: seq<Action>, job: Job)
    requires Runs(INITIAL, run) && Lives(run) && forall a | Enabled(After(INITIAL, run), a) :: !Internal(a)
    requires job in Calls(run)
    ensures job in After(INITIAL, run).handed
  {
    var s := After(INITIAL, run);
    RunTakes(INITIAL, run, job);
    RunKeepsInv(INITIAL, run);
    RunLives(INITIAL, run);
    LaneIsFree(s);
    forall id | id in s.clients ensures !s.clients[id].NowWaiting? {
      assert Internal(C(id, NowLock)) && !Enabled(s, C(id, NowLock));
    }
  }

  lemma {:induction false} RunLives(s: State, run: seq<Action>)
    requires Runs(s, run) && Lives(run) && s.worker != Gone
    ensures After(s, run).worker != Gone
    decreases |run|
  {
    hide Step, Enabled;
    if run != [] {
      StaysAlive(s, run[0]);
      RunLives(Step(s, run[0]), run[1..]);
    }
  }

  lemma LaneIsFree(s: State)
    requires Inv(s) && s.worker != Gone && forall a | Enabled(s, a) :: !Internal(a)
    ensures s.lane == Free
  {
    assert LaneExclusive(s);
    hide Inv, NoLostWakeup, Queue.Valid;
    assert !Enabled(s, W(Settled(false))) && !Enabled(s, W(Pop));
    if s.lane.OfClient? { HoldsNoLane(s, s.lane.id); }
  }

  lemma HoldsNoLane(s: State, id: Id)
    requires id in s.clients && forall a | Enabled(s, a) :: !Internal(a)
    ensures !HoldsLane(s.clients[id])
  {
    assert !Enabled(s, C(id, NowDiscardQueued)) && !Enabled(s, C(id, NowDiscardParked));
    assert !Enabled(s, C(id, NowSettled(false))) && !Enabled(s, C(id, RequeueSignal));
    SomeOrder(s.parked);
    var order :| Elements(order) == s.parked.Keys && |order| == |s.parked|;
    assert !Enabled(s, C(id, Requeue(order)));
  }
}
