/** The interleavings of `src/presence_publisher.rs` and `presence_publisher/deferred.rs`: submitters, awaited
    publications, requeues of refused jobs and the background worker, one atomic lock section or channel
    operation per step. The relay's answer is an input of the step that ends a publication. */
module PresenceProtocol {
  import opened PendingQueue

  type Id = nat

  datatype Worker =
    | Receiving                  // in `signal_rx.recv().await`
    | WantsLane
    | HasLane
    | Publishing(job: Job)
    | Gone                       // the worker has ended: the channel is closed

  datatype Client =
    | Signalling                 // `submit` has pushed and not yet signalled
    | NowWaiting(job: Job)       // `publish_now` awaits the lane
    | NowLocked(job: Job)
    | NowDiscarded(job: Job)     // queued jobs discarded, parked ones not yet
    | NowPublishing(job: Job)
    | RequeueWaiting
    | RequeueLocked
    | RequeueSignalling          // still holds the lane

  datatype Lane = Free | OfWorker | OfClient(id: Id)

  /** `handed` and `log` are history: jobs in the order the publisher took charge of them (a submission at its
      push, an awaited publication when it gets the lane) and settled publications in order. */
  datatype State = State(
    queue: Queue,
    parked: map<Pubkey, Job>,
    signal: bool,
    lane: Lane,
    worker: Worker,
    clients: map<Id, Client>,
    handed: seq<Job>,
    log: seq<Job>)

  datatype WorkerAction = Receive | Lock | Pop | Settled(deferred: bool) | End

  datatype ClientAction =
    | Submit(job: Job)
    | Signal
    | NowCall(job: Job)
    | NowLock
    | NowDiscardQueued
    | NowDiscardParked
    | NowSettled(deferred: bool)
    | RequeueCall
    | RequeueLock
    | Requeue(order: seq<Pubkey>)
    | RequeueSignal

  datatype Action = W(work: WorkerAction) | C(id: Id, act: ClientAction)

  const INITIAL := State(EMPTY, map[], false, Free, Receiving, map[], [], [])

  // -------------------------------------------------------------- deferred jobs

  function Park(parked: map<Pubkey, Job>, job: Job): map<Pubkey, Job> {
    if job.pubkey in parked && parked[job.pubkey].revision > job.revision then parked else parked[job.pubkey := job]
  }

  function DiscardParked(parked: map<Pubkey, Job>, p: Pubkey, revision: nat): map<Pubkey, Job> {
    if p in parked && parked[p].revision <= revision then parked - {p} else parked
  }

  function Settle(parked: map<Pubkey, Job>, job: Job, deferred: bool): map<Pubkey, Job> {
    if deferred then Park(parked, job.(deferrals := job.deferrals + 1))
    else DiscardParked(parked, job.pubkey, job.revision)
  }

  /** `requeue_into`, visiting the parked pubkeys in the given order. */
  function RequeueAll(q: Queue, parked: map<Pubkey, Job>, order: seq<Pubkey>): Queue
    requires forall p | p in order :: p in parked
    decreases |order|
  {
    if order == [] then q
    else
      var job := parked[order[0]];
      RequeueAll(if Newer(q, job) then Pushed(q, job) else q, parked, order[1..])
  }

  /** No job at least as new is queued for the pubkey of `job`. */
  predicate Newer(q: Queue, job: Job) {
    job.pubkey in q.jobs ==> q.jobs[job.pubkey].revision < job.revision
  }

  // --------------------------------------------------------------------- steps

  function Elements(order: seq<Pubkey>): set<Pubkey> { set p | p in order }

  predicate WorkerEnabled(s: State, a: WorkerAction) {
    match a
    case Receive => s.worker == Receiving && s.signal
    case Lock => s.worker == WantsLane && s.lane == Free
    case Pop => s.worker == HasLane
    case Settled(_) => s.worker.Publishing?
    case End => s.worker != Gone
  }

  predicate ClientEnabled(s: State, c: Client, a: ClientAction) {
    match a
    case Submit(_) => false
    case Signal => c == Signalling
    case NowCall(_) => false
    case NowLock => c.NowWaiting? && s.lane == Free
    case NowDiscardQueued => c.NowLocked?
    case NowDiscardParked => c.NowDiscarded?
    case NowSettled(_) => c.NowPublishing?
    case RequeueCall => false
    case RequeueLock => c == RequeueWaiting && s.lane == Free
    case Requeue(order) => c == RequeueLocked && Elements(order) == s.parked.Keys && |order| == |s.parked|
    case RequeueSignal => c == RequeueSignalling
  }

  /** Whether a fresh caller may begin; a requeue begins only when something is parked. */
  predicate CallEnabled(s: State, a: ClientAction) {
    a.Submit? || a.NowCall? || (a.RequeueCall? && s.parked != map[])
  }

  predicate Enabled(s: State, a: Action) {
    match a
    case W(w) => WorkerEnabled(s, w)
    case C(id, c) => if id in s.clients then ClientEnabled(s, s.clients[id], c) else CallEnabled(s, c)
  }

  function WorkerStep(s: State, a: WorkerAction): State
    requires WorkerEnabled(s, a)
  {
    match a
    case Receive => s.(signal := false, worker := WantsLane)
    case Lock => s.(lane := OfWorker, worker := HasLane)
    case Pop =>
      if s.queue.order == [] || s.queue.order[0] !in s.queue.jobs
      then s.(queue := Popped(s.queue), lane := Free, worker := Receiving)
      else s.(queue := Popped(s.queue), worker := Publishing(s.queue.jobs[s.queue.order[0]]))
    case Settled(deferred) =>
      s.(parked := Settle(s.parked, s.worker.job, deferred), lane := Free, worker := WantsLane,
         log := if deferred then s.log else s.log + [s.worker.job])
    case End => s.(worker := Gone, signal := false, lane := if s.lane == OfWorker then Free else s.lane)
  }

  function Set(s: State, id: Id, c: Client): State { s.(clients := s.clients[id := c]) }
  function Drop(s: State, id: Id): State { s.(clients := s.clients - {id}) }

  function CallStep(s: State, id: Id, a: ClientAction): State
    requires CallEnabled(s, a)
  {
    match a
    case Submit(job) => Set(s.(queue := Pushed(s.queue, job), handed := s.handed + [job]), id, Signalling)
    case NowCall(job) => Set(s, id, NowWaiting(job))
    case _ => Set(s, id, RequeueWaiting)
  }

  function ClientStep(s: State, id: Id, c: Client, a: ClientAction): State
    requires ClientEnabled(s, c, a)
  {
    match a
    case Signal =>
      // `try_send`: sent, already full, or closed (which clears the queue).
      Drop(if s.worker == Gone then s.(queue := EMPTY) else s.(signal := true), id)
    case NowLock => Set(s.(lane := OfClient(id), handed := s.handed + [c.job]), id, NowLocked(c.job))
    case NowDiscardQueued =>
      Set(s.(queue := Discarded(s.queue, c.job.pubkey, c.job.revision)), id, NowDiscarded(c.job))
    case NowDiscardParked =>
      Set(s.(parked := DiscardParked(s.parked, c.job.pubkey, c.job.revision)), id, NowPublishing(c.job))
    case NowSettled(deferred) =>
      Drop(s.(parked := Settle(s.parked, c.job, deferred), lane := Free,
              log := if deferred then s.log else s.log + [c.job]), id)
    case RequeueLock => Set(s.(lane := OfClient(id)), id, RequeueLocked)
    case Requeue(order) =>
      assert forall p | p in order :: p in Elements(order);
      var t := s.(queue := RequeueAll(s.queue, s.parked, order), parked := map[]);
      if exists p | p in s.parked :: Newer(s.queue, s.parked[p]) then Set(t, id, RequeueSignalling)
      else Drop(t.(lane := Free), id)
    case RequeueSignal => Drop(s.(lane := Free, signal := s.worker != Gone), id)
  }

  function Step(s: State, a: Action): State
    requires Enabled(s, a)
  {
    match a
    case W(w) => WorkerStep(s, w)
    case C(id, c) => if id in s.clients then ClientStep(s, id, s.clients[id], c) else CallStep(s, id, c)
  }

  /** A run, and the state it ends in. */
  predicate Runs(s: State, run: seq<Action>)
    decreases |run|
  {
    run == [] || (Enabled(s, run[0]) && Runs(Step(s, run[0]), run[1..]))
  }

  function After(s: State, run: seq<Action>): State
    requires Runs(s, run)
    decreases |run|
  {
    if run == [] then s else After(Step(s, run[0]), run[1..])
  }

  lemma Extend(s: State, run: seq<Action>, a: Action)
    requires Runs(s, run) && Enabled(After(s, run), a)
    ensures Runs(s, run + [a]) && After(s, run + [a]) == Step(After(s, run), a)
    decreases |run|
  {
    hide Step, Enabled;
    if run == [] {
      assert [a][1..] == [];
    } else {
      Extend(Step(s, run[0]), run[1..], a);
      assert (run + [a])[1..] == run[1..] + [a];
    }
  }

  lemma Append(s: State, run: seq<Action>, more: seq<Action>)
    requires Runs(s, run) && Runs(After(s, run), more)
    ensures Runs(s, run + more) && After(s, run + more) == After(After(s, run), more)
    decreases |run|
  {
    hide Step, Enabled;
    if run == [] {
      assert run + more == more;
    } else {
      Append(Step(s, run[0]), run[1..], more);
      assert (run + more)[1..] == run[1..] + more;
    }
  }

  // ---------------------------------------------------------- what every step keeps

  predicate HoldsLane(c: Client) {
    c.NowLocked? || c.NowDiscarded? || c.NowPublishing? || c.RequeueLocked? || c.RequeueSignalling?
  }

  ghost predicate LaneExclusive(s: State) {
    && (s.lane == OfWorker <==> s.worker == HasLane || s.worker.Publishing?)
    && (forall id | id in s.clients :: HoldsLane(s.clients[id]) <==> s.lane == OfClient(id))
    && (s.lane.OfClient? ==> s.lane.id in s.clients)
  }

  predicate WillSignal(c: Client) { c.Signalling? || c.RequeueSignalling? }

  /** A queued job is never forgotten: a wakeup is pending, or underway, or owed by a submitter. */
  ghost predicate NoLostWakeup(s: State) {
    s.queue.jobs != map[] ==>
      || s.signal
      || s.worker != Receiving
      || exists id :: id in s.clients && WillSignal(s.clients[id])
  }

  ghost predicate FiledByPubkey(jobs: map<Pubkey, Job>) { forall p | p in jobs :: jobs[p].pubkey == p }

  ghost predicate Inv(s: State) {
    s.queue.Valid() && FiledByPubkey(s.parked) && LaneExclusive(s) && NoLostWakeup(s)
  }

  lemma {:induction false} RequeueAllKeeps(q: Queue, parked: map<Pubkey, Job>, order: seq<Pubkey>)
    requires q.Valid() && FiledByPubkey(parked) && forall p | p in order :: p in parked
    ensures var r := RequeueAll(q, parked, order);
            && r.Valid() && |r.jobs| <= |q.jobs| + |order|
            && (forall p | p in r.jobs ::
                  (p in q.jobs && r.jobs[p] == q.jobs[p]) || (p in parked && r.jobs[p] == parked[p]))
            && ((forall p | p in order :: !Newer(q, parked[p])) ==> r == q)
    decreases |order|
  {
    if order != [] {
      var job := parked[order[0]];
      PushValid(q, job);
      RequeueAllKeeps(if Newer(q, job) then Pushed(q, job) else q, parked, order[1..]);
    }
  }

  lemma SettleKeeps(parked: map<Pubkey, Job>, job: Job, deferred: bool)
    requires FiledByPubkey(parked)
    ensures FiledByPubkey(Settle(parked, job, deferred))
    ensures |Settle(parked, job, deferred)| <= |parked| + 1
  {
  }

  lemma RequeueKeepsQueue(s: State, id: Id, c: Client, order: seq<Pubkey>)
    requires s.queue.Valid() && FiledByPubkey(s.parked) && ClientEnabled(s, c, Requeue(order))
    ensures ClientStep(s, id, c, Requeue(order)).queue.Valid()
            && FiledByPubkey(ClientStep(s, id, c, Requeue(order)).parked)
  {
    assert forall p | p in order :: p in Elements(order);
    hide Queue.Valid, RequeueAll, Newer;
    RequeueAllKeeps(s.queue, s.parked, order);
  }

  lemma ClientKeepsQueue(s: State, id: Id, c: Client, a: ClientAction)
    requires s.queue.Valid() && FiledByPubkey(s.parked) && ClientEnabled(s, c, a)
    ensures ClientStep(s, id, c, a).queue.Valid() && FiledByPubkey(ClientStep(s, id, c, a).parked)
  {
    assert EMPTY.Valid();
    hide Queue.Valid;
    match a {
      case NowDiscardQueued =>
        hide Discarded;
        DiscardValid(s.queue, c.job.pubkey, c.job.revision);
      case Requeue(order) =>
        hide ClientStep;
        RequeueKeepsQueue(s, id, c, order);
      case NowSettled(deferred) =>
        hide Settle;
        SettleKeeps(s.parked, c.job, deferred);
      case _ =>
    }
  }

  lemma StepKeepsQueue(s: State, a: Action)
    requires s.queue.Valid() && FiledByPubkey(s.parked) && Enabled(s, a)
    ensures Step(s, a).queue.Valid() && FiledByPubkey(Step(s, a).parked)
  {
    hide Queue.Valid;
    match a
    case W(w) => PopValid(s.queue);
    case C(id, c) =>
      if id in s.clients { ClientKeepsQueue(s, id, s.clients[id], c); }
      else if c.Submit? { PushValid(s.queue, c.job); }
  }

  lemma WorkerKeepsLane(s: State, a: WorkerAction)
    requires s.queue.Valid() && LaneExclusive(s) && WorkerEnabled(s, a)
    ensures LaneExclusive(WorkerStep(s, a))
  {
  }

  lemma ClientKeepsLane(s: State, id: Id, a: ClientAction)
    requires LaneExclusive(s) && id in s.clients && ClientEnabled(s, s.clients[id], a)
    ensures LaneExclusive(ClientStep(s, id, s.clients[id], a))
  {
  }

  lemma StepKeepsLane(s: State, a: Action)
    requires s.queue.Valid() && LaneExclusive(s) && Enabled(s, a)
    ensures LaneExclusive(Step(s, a))
  {
    match a
    case W(w) => WorkerKeepsLane(s, w);
    case C(id, c) => if id in s.clients { ClientKeepsLane(s, id, c); }
  }

  lemma ClientKeepsWakeup(s: State, id: Id, a: ClientAction)
    requires s.queue.Valid() && FiledByPubkey(s.parked) && NoLostWakeup(s)
    requires id in s.clients && ClientEnabled(s, s.clients[id], a)
    ensures NoLostWakeup(ClientStep(s, id, s.clients[id], a))
  {
    hide Queue.Valid, Settle;
    var t := ClientStep(s, id, s.clients[id], a);
    match a {
      case Signal =>
      case RequeueSignal =>
      case Requeue(order) =>
        assert forall p | p in order :: p in Elements(order);
        RequeueAllKeeps(s.queue, s.parked, order);
        if id in t.clients { assert WillSignal(t.clients[id]); }
        else { OtherClientsStillOwe(s, t, id); }
      case _ => OtherClientsStillOwe(s, t, id);
    }
  }

  lemma StepKeepsWakeup(s: State, a: Action)
    requires s.queue.Valid() && FiledByPubkey(s.parked) && NoLostWakeup(s) && Enabled(s, a)
    ensures NoLostWakeup(Step(s, a))
  {
    PopValid(s.queue);
    match a {
      case W(w) =>
        if w.Pop? && s.queue.order != [] { assert WorkerStep(s, w).worker.Publishing?; }
      case C(id, c) =>
        if id in s.clients { ClientKeepsWakeup(s, id, c); }
        else if c.Submit? { assert WillSignal(CallStep(s, id, c).clients[id]); }
        else { OtherClientsStillOwe(s, CallStep(s, id, c), id); }
    }
  }

  /** A step of a client that owed no signal leaves every debt in place. */
  lemma OtherClientsStillOwe(s: State, t: State, id: Id)
    requires NoLostWakeup(s)
    requires id in s.clients && WillSignal(s.clients[id]) ==> id in t.clients && t.clients[id] == s.clients[id]
    requires forall other | other in s.clients && other != id ::
               other in t.clients && t.clients[other] == s.clients[other]
    requires t.queue.jobs != map[] ==> s.queue.jobs != map[]
    requires t.signal == s.signal && t.worker == s.worker
    ensures NoLostWakeup(t)
  {
    if t.queue.jobs != map[] && !s.signal && s.worker == Receiving {
      var owed :| owed in s.clients && WillSignal(s.clients[owed]);
      assert WillSignal(t.clients[owed]);
    }
  }

  lemma StepKeepsInv(s: State, a: Action)
    requires Inv(s) && Enabled(s, a)
    ensures Inv(Step(s, a))
  {
    StepKeepsQueue(s, a);
    StepKeepsLane(s, a);
    StepKeepsWakeup(s, a);
  }

  lemma {:induction false} RunKeepsInv(s: State, run: seq<Action>)
    requires Inv(s) && Runs(s, run)
    ensures Inv(After(s, run))
    decreases |run|
  {
    if run != [] {
      StepKeepsInv(s, run[0]);
      RunKeepsInv(Step(s, run[0]), run[1..]);
    }
  }

  /** In every interleaving no wakeup is lost. */
  lemma WakeupsNeverLost(run: seq<Action>)
    requires Runs(INITIAL, run)
    ensures Inv(After(INITIAL, run)) && NoLostWakeup(After(INITIAL, run))
  {
    RunKeepsInv(INITIAL, run);
  }

  /** In every interleaving at most one publication is under way. */
  lemma OnePublicationAtATime(run: seq<Action>, id: Id, other: Id)
    requires Runs(INITIAL, run)
    ensures var s := After(INITIAL, run);
            id in s.clients && s.clients[id].NowPublishing? ==>
              && !s.worker.Publishing?
              && (other in s.clients && s.clients[other].NowPublishing? ==> other == id)
  {
    RunKeepsInv(INITIAL, run);
  }
}
