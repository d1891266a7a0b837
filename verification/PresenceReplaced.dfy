/** What an awaited publication replaces stays replaced: in every run, whoever calls what, and however the relay
    answers. */
module PresenceReplaced {
  import opened Order
  import opened PendingQueue
  import opened PresenceProtocol
  import opened PresenceOrder

  /** Not a job that `r` replaced: of another pubkey, newer, or handed over no earlier than `r` itself. */
  ghost predicate Later(handed: seq<Job>, base: nat, r: Job, job: Job) {
    job.pubkey == r.pubkey && job.revision <= r.revision ==> base <= |handed| && Among(handed[base..], job)
  }

  ghost predicate AllLater(handed: seq<Job>, base: nat, r: Job, jobs: map<Pubkey, Job>) {
    forall p | p in jobs :: Later(handed, base, r, jobs[p])
  }

  /** The call of `r` holds the lane: nothing is discarded yet, then the queued jobs are, then the parked ones too. */
  ghost predicate Stage(s: State, id: Id, base: nat, r: Job) {
    || (id in s.clients && s.clients[id] == NowLocked(r))
    || (id in s.clients && s.clients[id] == NowDiscarded(r) && AllLater(s.handed, base, r, s.queue.jobs))
    || (AllLater(s.handed, base, r, s.queue.jobs) && AllLater(s.handed, base, r, s.parked)
        && (InFlight(s).Some? ==> Later(s.handed, base, r, InFlight(s).value)))
  }

  ghost predicate Replaced(s: State, id: Id, base: nat, from: nat, r: Job) {
    && base < |s.handed| && s.handed[base] == r && from <= |s.log|
    && Stage(s, id, base, r)
    && forall i | from <= i < |s.log| :: Later(s.handed, base, r, s.log[i])
  }

  lemma LaterGrows(a: seq<Job>, b: seq<Job>, base: nat, r: Job, job: Job)
    requires a <= b && Later(a, base, r, job)
    ensures Later(b, base, r, job)
  {
    if job.pubkey == r.pubkey && job.revision <= r.revision {
      assert a[base..] <= b[base..];
      AmongGrows(a[base..], b[base..], job);
    }
  }

  lemma SameLater(handed: seq<Job>, base: nat, r: Job, job: Job, other: Job)
    requires Later(handed, base, r, job) && other.pubkey == job.pubkey && other.revision == job.revision
    ensures Later(handed, base, r, other)
  {
  }

  lemma HandedLater(handed: seq<Job>, base: nat, r: Job, i: nat)
    requires base <= i < |handed|
    ensures Later(handed, base, r, handed[i])
  {
    assert handed[base..][i - base] == handed[i];
  }

  /** What is left of a table once what `r` replaces is gone. */
  lemma DiscardedLater(handed: seq<Job>, base: nat, r: Job, jobs: map<Pubkey, Job>, rest: map<Pubkey, Job>)
    requires FiledByPubkey(jobs)
    requires rest == if r.pubkey in jobs && jobs[r.pubkey].revision <= r.revision then jobs - {r.pubkey} else jobs
    ensures AllLater(handed, base, r, rest)
  {
  }

  lemma SettledLater(handed: seq<Job>, base: nat, r: Job, parked: map<Pubkey, Job>, job: Job, deferred: bool)
    requires AllLater(handed, base, r, parked) && Later(handed, base, r, job)
    ensures AllLater(handed, base, r, Settle(parked, job, deferred))
  {
    SameLater(handed, base, r, job, job.(deferrals := job.deferrals + 1));
  }

  lemma {:induction false} RequeuedLater(handed: seq<Job>, base: nat, r: Job, q: Queue, parked: map<Pubkey, Job>,
                                         order: seq<Pubkey>)
    requires AllLater(handed, base, r, q.jobs) && AllLater(handed, base, r, parked)
             && forall p | p in order :: p in parked
    ensures AllLater(handed, base, r, RequeueAll(q, parked, order).jobs)
    decreases |order|
  {
    hide Later;
    if order != [] {
      var job := parked[order[0]];
      RequeuedLater(handed, base, r, if Newer(q, job) then Pushed(q, job) else q, parked, order[1..]);
    }
  }

  lemma PushedLater(handed: seq<Job>, base: nat, r: Job, q: Queue, job: Job)
    requires AllLater(handed, base, r, q.jobs) && base <= |handed|
    ensures AllLater(handed + [job], base, r, Pushed(q, job).jobs)
  {
    HandedLater(handed + [job], base, r, |handed|);
    forall p | p in q.jobs ensures Later(handed + [job], base, r, q.jobs[p]) {
      LaterGrows(handed, handed + [job], base, r, q.jobs[p]);
    }
    hide Later;
  }

  lemma AllGrow(a: seq<Job>, b: seq<Job>, base: nat, r: Job, jobs: map<Pubkey, Job>)
    requires a <= b && AllLater(a, base, r, jobs)
    ensures AllLater(b, base, r, jobs)
  {
    forall p | p in jobs ensures Later(b, base, r, jobs[p]) { LaterGrows(a, b, base, r, jobs[p]); }
  }

  // -------------------------------------------------------------------------------- each step

  lemma WorkerStage(s: State, a: WorkerAction, id: Id, base: nat, r: Job)
    requires Inv(s) && WorkerEnabled(s, a) && Stage(s, id, base, r)
    ensures Stage(WorkerStep(s, a), id, base, r)
    ensures a.Settled? ==> Later(s.handed, base, r, s.worker.job)
  {
    assert LaneExclusive(s);
    hide Inv, NoLostWakeup, Queue.Valid, Later, Settle;
    if a.Settled? { SettledIf(s, id, base, r, s.worker.job, a.deferred); }
  }

  /** The job in flight under the worker is not a replaced one, nor what it leaves parked. */
  lemma SettledIf(s: State, id: Id, base: nat, r: Job, job: Job, deferred: bool)
    requires LaneExclusive(s) && Stage(s, id, base, r) && InFlight(s) == Some(job)
    requires s.lane.OfClient? ==> s.lane.id in s.clients && s.clients[s.lane.id].NowPublishing?
    ensures Later(s.handed, base, r, job) && AllLater(s.handed, base, r, s.queue.jobs)
    ensures AllLater(s.handed, base, r, Settle(s.parked, job, deferred))
  {
    hide Later, Settle;
    SettledLater(s.handed, base, r, s.parked, job, deferred);
  }

  lemma CallStage(s: State, k: Id, a: ClientAction, id: Id, base: nat, r: Job)
    requires Inv(s) && k !in s.clients && CallEnabled(s, a) && Stage(s, id, base, r) && base <= |s.handed|
    ensures Stage(CallStep(s, k, a), id, base, r)
  {
    var t := CallStep(s, k, a);
    assert LaneExclusive(s) && s.handed <= t.handed;
    hide Inv, NoLostWakeup, Queue.Valid, Later, AllLater;
    assert InFlight(t) == InFlight(s);
    if AllLater(s.handed, base, r, s.queue.jobs) && a.Submit? { PushedLater(s.handed, base, r, s.queue, a.job); }
    if AllLater(s.handed, base, r, s.parked) { AllGrow(s.handed, t.handed, base, r, s.parked); }
    if InFlight(s).Some? && Later(s.handed, base, r, InFlight(s).value) {
      LaterGrows(s.handed, t.handed, base, r, InFlight(s).value);
    }
  }

  /** While another call requeues, the call of `r` is past its discards. */
  lemma RequeueComesAfter(s: State, k: Id, id: Id, base: nat, r: Job)
    requires Inv(s) && k in s.clients && s.clients[k] == RequeueLocked && Stage(s, id, base, r)
    ensures AllLater(s.handed, base, r, s.queue.jobs) && AllLater(s.handed, base, r, s.parked)
    ensures InFlight(s).Some? ==> Later(s.handed, base, r, InFlight(s).value)
  {
    assert LaneExclusive(s) && HoldsLane(s.clients[k]);
    hide AllLater, Later, NoLostWakeup, Queue.Valid;
  }

  lemma RequeueStage(s: State, k: Id, order: seq<Pubkey>, id: Id, base: nat, r: Job)
    requires Inv(s) && k in s.clients && ClientEnabled(s, s.clients[k], Requeue(order)) && Stage(s, id, base, r)
    ensures Stage(ClientStep(s, k, s.clients[k], Requeue(order)), id, base, r)
  {
    RequeueComesAfter(s, k, id, base, r);
    RequeueFields(s, k, order);
    RequeueFlight(s, k, order);
    hide Inv, InFlight, Later, RequeueAll, ClientStep, ClientEnabled, Elements;
    RequeuedLater(s.handed, base, r, s.queue, s.parked, order);
  }

  lemma LockStage(s: State, k: Id, id: Id, base: nat, r: Job)
    requires Inv(s) && k in s.clients && ClientEnabled(s, s.clients[k], NowLock) && Stage(s, id, base, r)
             && base <= |s.handed|
    ensures Stage(ClientStep(s, k, s.clients[k], NowLock), id, base, r)
  {
    var t := ClientStep(s, k, s.clients[k], NowLock);
    assert LaneExclusive(s);
    assert id in s.clients ==> !HoldsLane(s.clients[id]);
    hide Inv, NoLostWakeup, Queue.Valid, Later, AllLater;
    AllGrow(s.handed, t.handed, base, r, s.queue.jobs);
    AllGrow(s.handed, t.handed, base, r, s.parked);
    HandedLater(t.handed, base, r, |s.handed|);
  }

  lemma DiscardStage(s: State, k: Id, a: ClientAction, id: Id, base: nat, r: Job)
    requires Inv(s) && k in s.clients && ClientEnabled(s, s.clients[k], a)
             && (a.NowDiscardQueued? || a.NowDiscardParked?)
    requires Stage(s, id, base, r) && Later(s.handed, base, r, r)
    ensures Stage(ClientStep(s, k, s.clients[k], a), id, base, r)
  {
    var c, t := s.clients[k], ClientStep(s, k, s.clients[k], a);
    QueueFiled(s.queue);
    assert LaneExclusive(s) && HoldsLane(c) && FiledByPubkey(s.parked);
    hide Inv, NoLostWakeup, Queue.Valid, Later;
    if k == id && c == NowLocked(r) && a.NowDiscardQueued? {
      DiscardedLater(s.handed, base, r, s.queue.jobs, t.queue.jobs);
    }
    if k == id && c == NowDiscarded(r) && a.NowDiscardParked? {
      DiscardedLater(s.handed, base, r, s.parked, t.parked);
    }
  }

  lemma ClientStage(s: State, k: Id, a: ClientAction, id: Id, base: nat, r: Job)
    requires Inv(s) && k in s.clients && ClientEnabled(s, s.clients[k], a) && Stage(s, id, base, r)
    requires base < |s.handed| && s.handed[base] == r
    ensures Stage(ClientStep(s, k, s.clients[k], a), id, base, r)
    ensures a.NowSettled? ==> Later(s.handed, base, r, s.clients[k].job)
  {
    HandedLater(s.handed, base, r, base);
    assert LaneExclusive(s);
    match a {
      case NowLock => LockStage(s, k, id, base, r);
      case NowDiscardQueued => DiscardStage(s, k, a, id, base, r);
      case NowDiscardParked => DiscardStage(s, k, a, id, base, r);
      case Requeue(order) => RequeueStage(s, k, order, id, base, r);
      case NowSettled(deferred) =>
        hide Inv, NoLostWakeup, Queue.Valid, Later, Settle;
        assert HoldsLane(s.clients[k]);
        SettledIf(s, id, base, r, s.clients[k].job, deferred);
      case _ =>
        hide Inv, NoLostWakeup, Queue.Valid, Later;
    }
  }

  /** The job a step settles, if it settles one. */
  ghost function SettledBy(s: State, a: Action): Option<Job>
    requires Enabled(s, a)
  {
    match a
    case W(w) => if w.Settled? && !w.deferred then Some(s.worker.job) else None
    case C(k, c) => if k in s.clients && c.NowSettled? && !c.deferred then Some(s.clients[k].job) else None
  }

  function Settling(job: Option<Job>): seq<Job> { if job.Some? then [job.value] else [] }

  lemma WorkerLog(s: State, a: WorkerAction)
    requires WorkerEnabled(s, a)
    ensures WorkerStep(s, a).log == s.log + Settling(SettledBy(s, W(a))) && WorkerStep(s, a).handed == s.handed
  {
    hide Settle, Popped;
  }

  lemma ClientLog(s: State, k: Id, a: ClientAction)
    requires k in s.clients && ClientEnabled(s, s.clients[k], a)
    ensures ClientStep(s, k, s.clients[k], a).log == s.log + Settling(SettledBy(s, C(k, a)))
    ensures s.handed <= ClientStep(s, k, s.clients[k], a).handed
  {
    hide Settle, Newer, Discarded, DiscardParked;
  }

  lemma StepLog(s: State, a: Action)
    requires Enabled(s, a)
    ensures Step(s, a).log == s.log + Settling(SettledBy(s, a))
    ensures s.handed <= Step(s, a).handed
  {
    hide WorkerStep, ClientStep, WorkerEnabled, ClientEnabled, Pushed, Settling;
    match a {
      case W(w) => WorkerLog(s, w);
      case C(k, c) =>
        if k in s.clients {
          ClientLog(s, k, c);
        } else {
          assert s.log + Settling(None) == s.log by { CallLog(s); }
        }
    }
  }

  lemma CallLog(s: State)
    ensures s.log + Settling(None) == s.log
  {
  }

  lemma StepStage(s: State, a: Action, id: Id, base: nat, r: Job)
    requires Inv(s) && Enabled(s, a) && Stage(s, id, base, r) && base < |s.handed| && s.handed[base] == r
    ensures Stage(Step(s, a), id, base, r)
    ensures SettledBy(s, a).Some? ==> Later(s.handed, base, r, SettledBy(s, a).value)
  {
    hide Inv, Stage, Later, WorkerStep, ClientStep, CallStep, WorkerEnabled, ClientEnabled, CallEnabled;
    match a
    case W(w) => WorkerStage(s, w, id, base, r);
    case C(k, c) => if k in s.clients { ClientStage(s, k, c, id, base, r); } else { CallStage(s, k, c, id, base, r); }
  }

  lemma StepReplaced(s: State, a: Action, id: Id, base: nat, from: nat, r: Job)
    requires Inv(s) && Enabled(s, a) && Replaced(s, id, base, from, r)
    ensures Replaced(Step(s, a), id, base, from, r)
  {
    hide Inv, Stage, Later, Enabled, Step, SettledBy;
    var t := Step(s, a);
    StepStage(s, a, id, base, r);
    StepLog(s, a);
    forall i | from <= i < |t.log| ensures Later(t.handed, base, r, t.log[i]) {
      LaterGrows(s.handed, t.handed, base, r, t.log[i]);
    }
  }

  lemma {:induction false} RunReplaced(s: State, run: seq<Action>, id: Id, base: nat, from: nat, r: Job)
    requires Inv(s) && Runs(s, run) && Replaced(s, id, base, from, r)
    ensures Replaced(After(s, run), id, base, from, r)
    decreases |run|
  {
    hide Inv, Replaced, Step, Enabled;
    if run != [] {
      StepReplaced(s, run[0], id, base, from, r);
      StepKeepsInv(s, run[0]);
      RunReplaced(Step(s, run[0]), run[1..], id, base, from, r);
    }
  }

  /** Once a `publish_now` of revision r has taken the lane, whatever settles for its pubkey with a revision of at most
      r was handed over then or later: a job that was queued or parked before never settles,
      not even when r is refused. */
  lemma ReplacedNeverSettles(before: seq<Action>, id: Id, after: seq<Action>, i: nat)
    requires Runs(INITIAL, before) && id in After(INITIAL, before).clients
             && Enabled(After(INITIAL, before), C(id, NowLock))
    requires Runs(Step(After(INITIAL, before), C(id, NowLock)), after)
    requires |After(INITIAL, before).log| <= i < |After(Step(After(INITIAL, before), C(id, NowLock)), after).log|
    ensures var s := After(INITIAL, before);
            var r, t := s.clients[id].job, After(Step(s, C(id, NowLock)), after);
            t.log[i].pubkey == r.pubkey && t.log[i].revision <= r.revision ==>
              |s.handed| <= |t.handed| && Among(t.handed[|s.handed|..], t.log[i])
  {
    var s := After(INITIAL, before);
    var r, locked := s.clients[id].job, Step(s, C(id, NowLock));
    RunKeepsInv(INITIAL, before);
    StepKeepsInv(s, C(id, NowLock));
    assert Replaced(locked, id, |s.handed|, |s.log|, r);
    hide Inv, Runs, After, Step, Stage;
    RunReplaced(locked, after, id, |s.handed|, |s.log|, r);
  }
}
