/** Once callers stop, the queue empties: every further step uses up a budget, and while a job is queued
    some step is possible. */
module PresenceProgress {
  import opened Order
  import opened PendingQueue
  import opened PresenceProtocol

  /** Steps the program takes by itself, as opposed to a new call or the end of the worker. */
  predicate Internal(a: Action) {
    match a
    case W(w) => !w.End?
    case C(_, c) => !c.Submit? && !c.NowCall? && !c.RequeueCall?
  }

  // ---------------------------------------------------------------- what is left to do

  ghost function Sum(clients: map<Id, Client>, weight: Client -> nat): nat
    decreases |clients|
  {
    if clients == map[] then 0
    else
      var id :| id in clients;
      weight(clients[id]) + Sum(clients - {id}, weight)
  }

  lemma {:induction false} SumRemove(clients: map<Id, Client>, id: Id, weight: Client -> nat)
    requires id in clients
    ensures Sum(clients, weight) == weight(clients[id]) + Sum(clients - {id}, weight)
    decreases |clients|
  {
    var first :| first in clients && Sum(clients, weight) == weight(clients[first]) + Sum(clients - {first}, weight);
    if first != id {
      SumRemove(clients - {first}, id, weight);
      SumRemove(clients - {id}, first, weight);
      assert clients - {first} - {id} == clients - {id} - {first};
    }
  }

  lemma SumChange(clients: map<Id, Client>, id: Id, c: Client, weight: Client -> nat)
    requires id in clients
    ensures Sum(clients[id := c], weight) == Sum(clients, weight) - weight(clients[id]) + weight(c)
    ensures Sum(clients - {id}, weight) == Sum(clients, weight) - weight(clients[id])
  {
    SumRemove(clients, id, weight);
    SumRemove(clients[id := c], id, weight);
    assert clients[id := c] - {id} == clients - {id};
  }

  function RoundWeight(c: Client): nat { if c.RequeueWaiting? then 2 else if c.RequeueLocked? then 1 else 0 }

  function JobWeight(c: Client): nat {
    if c.NowWaiting? || c.NowLocked? || c.NowDiscarded? || c.NowPublishing? then 1 else 0
  }

  function WorkWeight(c: Client): nat {
    match c
    case NowLocked(_) => 3
    case NowDiscarded(_) => 2
    case NowPublishing(_) => 1
    case RequeueWaiting => 0
    case RequeueLocked => 0
    case _ => 4
  }

  function WorkerWork(w: Worker): nat {
    match w case Receiving => 0 case HasLane => 1 case WantsLane => 2 case Publishing(_) => 3 case Gone => 0
  }

  ghost function Rounds(s: State): nat { Sum(s.clients, RoundWeight) }

  /** Jobs that are queued, parked or being published. */
  ghost function Jobs(s: State): nat {
    |s.queue.jobs| + |s.parked| + (if s.worker.Publishing? then 1 else 0) + Sum(s.clients, JobWeight)
  }

  ghost function Work(s: State): nat {
    3 * |s.queue.jobs| + WorkerWork(s.worker) + (if s.signal then 3 else 0) + Sum(s.clients, WorkWeight)
  }

  /** An upper bound on the internal steps left. */
  ghost function Budget(s: State): nat { Rounds(s) * (3 * Jobs(s) + 5) + Work(s) }

  ghost predicate Shrinks(s: State, t: State) {
    && Jobs(t) <= Jobs(s)
    && (|| (Rounds(t) == Rounds(s) && Work(t) < Work(s))
        || (Rounds(t) < Rounds(s) && Work(t) <= Work(s) + 3 * Jobs(s) + 4))
  }

  /** Only the queue and the worker changed: a job was taken out to be published, or there was none. */
  lemma TakenShrinks(s: State, t: State)
    requires t.clients == s.clients && t.parked == s.parked && t.signal == s.signal && s.worker == HasLane
    requires || (t.worker == Receiving && |t.queue.jobs| == |s.queue.jobs|)
             || (t.worker.Publishing? && |t.queue.jobs| == |s.queue.jobs| - 1)
    ensures Shrinks(s, t)
  {
    hide Sum;
  }

  lemma PopShrinks(s: State)
    requires Inv(s) && WorkerEnabled(s, Pop)
    ensures Shrinks(s, WorkerStep(s, Pop))
  {
    hide Shrinks, LaneExclusive, NoLostWakeup, FiledByPubkey, Queue.Valid, Popped;
    PopCount(s.queue);
    TakenShrinks(s, WorkerStep(s, Pop));
  }

  lemma PopCount(q: Queue)
    requires q.Valid()
    ensures q.order != [] ==> q.order[0] in q.jobs && |Popped(q).jobs| == |q.jobs| - 1
    ensures q.order == [] ==> Popped(q) == q
  {
    PopValid(q);
    if q.order != [] { assert |q.jobs - {q.order[0]}| == |q.jobs| - 1; }
  }

  lemma WorkerShrinks(s: State, a: WorkerAction)
    requires Inv(s) && WorkerEnabled(s, a) && !a.End?
    ensures Shrinks(s, WorkerStep(s, a))
  {
    if a.Pop? {
      hide Inv, Shrinks;
      PopShrinks(s);
    } else {
      assert FiledByPubkey(s.parked);
      hide Inv, Sum, Settle, Popped;
      if a.Settled? { SettleKeeps(s.parked, s.worker.job, a.deferred); }
    }
  }

  lemma ClientShrinksRest(s: State, id: Id, c: Client, a: ClientAction)
    requires s.queue.Valid() && FiledByPubkey(s.parked) && ClientEnabled(s, c, a)
    ensures var t := ClientStep(s, id, c, a);
            && t.worker == s.worker
            && |t.queue.jobs| + |t.parked| <= |s.queue.jobs| + |s.parked| + (if a.NowSettled? then 1 else 0)
            && (!a.Requeue? ==> |t.queue.jobs| <= |s.queue.jobs|)
            && (a.Signal? || a.RequeueSignal? || t.signal == s.signal)
  {
    hide Queue.Valid;
    match a {
      case NowDiscardQueued =>
        var q := Discarded(s.queue, c.job.pubkey, c.job.revision);
        assert q == s.queue || q.jobs == s.queue.jobs - {c.job.pubkey};
      case NowDiscardParked =>
        var parked := DiscardParked(s.parked, c.job.pubkey, c.job.revision);
        assert parked == s.parked || parked == s.parked - {c.job.pubkey};
      case NowSettled(deferred) => SettleKeeps(s.parked, c.job, deferred);
      case Requeue(order) =>
        assert forall p | p in order :: p in Elements(order);
        RequeueAllKeeps(s.queue, s.parked, order);
      case _ =>
    }
  }

  ghost function NewClient(s: State, c: Client, a: ClientAction): Option<Client>
    requires ClientEnabled(s, c, a)
  {
    match a
    case NowLock => Some(NowLocked(c.job))
    case NowDiscardQueued => Some(NowDiscarded(c.job))
    case NowDiscardParked => Some(NowPublishing(c.job))
    case RequeueLock => Some(RequeueLocked)
    case Requeue(_) => if exists p | p in s.parked :: Newer(s.queue, s.parked[p]) then Some(RequeueSignalling) else None
    case _ => None
  }

  ghost function WeightOf(c: Option<Client>, weight: Client -> nat): nat {
    match c case None => 0 case Some(c) => weight(c)
  }

  lemma ClientTableChange(s: State, id: Id, a: ClientAction, weight: Client -> nat)
    requires id in s.clients && ClientEnabled(s, s.clients[id], a)
    ensures Sum(ClientStep(s, id, s.clients[id], a).clients, weight)
         == Sum(s.clients, weight) - weight(s.clients[id]) + WeightOf(NewClient(s, s.clients[id], a), weight)
  {
    hide Sum;
    var next := NewClient(s, s.clients[id], a);
    SumChange(s.clients, id, if next.Some? then next.value else s.clients[id], weight);
  }

  lemma ClientShrinks(s: State, id: Id, a: ClientAction)
    requires Inv(s) && id in s.clients && ClientEnabled(s, s.clients[id], a)
    ensures Shrinks(s, ClientStep(s, id, s.clients[id], a))
  {
    hide Queue.Valid, LaneExclusive, NoLostWakeup, Sum, ClientStep;
    ClientShrinksRest(s, id, s.clients[id], a);
    ClientTableChange(s, id, a, RoundWeight);
    ClientTableChange(s, id, a, JobWeight);
    ClientTableChange(s, id, a, WorkWeight);
  }

  lemma StepShrinks(s: State, a: Action)
    requires Inv(s) && Enabled(s, a) && Internal(a)
    ensures Shrinks(s, Step(s, a))
  {
    hide Inv, Shrinks, WorkerStep, ClientStep, WorkerEnabled, ClientEnabled;
    match a {
      case W(w) => WorkerShrinks(s, w);
      case C(id, c) => ClientShrinks(s, id, c);
    }
  }

  /** Every internal step uses up budget. */
  lemma StepUsesBudget(s: State, a: Action)
    requires Inv(s) && Enabled(s, a) && Internal(a)
    ensures Budget(Step(s, a)) < Budget(s)
  {
    hide Inv, Jobs, Work, Rounds, Step, Enabled;
    StepShrinks(s, a);
    var t := Step(s, a);
    LowerBudget(Rounds(s), Rounds(t), Jobs(s), Jobs(t), Work(s), Work(t));
  }

  lemma LowerBudget(r: nat, r': nat, j: nat, j': nat, w: nat, w': nat)
    requires j' <= j && ((r' == r && w' < w) || (r' < r && w' <= w + 3 * j + 4))
    ensures r' * (3 * j' + 5) + w' < r * (3 * j + 5) + w
  {
    assert r' * (3 * j' + 5) <= r' * (3 * j + 5);
    if r' < r {
      assert (r' + 1) * (3 * j + 5) <= r * (3 * j + 5);
      assert (r' + 1) * (3 * j + 5) == r' * (3 * j + 5) + 3 * j + 5;
    }
  }

  ghost predicate AllInternal(run: seq<Action>) { forall i | 0 <= i < |run| :: Internal(run[i]) }

  /** No run of internal steps is longer than the budget, so once calls stop the program settles. */
  lemma {:induction false} InternalRunsEnd(s: State, run: seq<Action>)
    requires Inv(s) && Runs(s, run) && AllInternal(run)
    ensures |run| + Budget(After(s, run)) <= Budget(s)
    decreases |run|
  {
    hide Step, Enabled, Budget, Inv;
    if run != [] {
      StepKeepsInv(s, run[0]);
      StepUsesBudget(s, run[0]);
      InternalRunsEnd(Step(s, run[0]), run[1..]);
    }
  }

  /** While the worker lives and a job is queued, some internal step is possible. */
  lemma NeverStuck(s: State) returns (a: Action)
    requires Inv(s) && s.worker != Gone && s.queue.jobs != map[]
    ensures Enabled(s, a) && Internal(a)
  {
    hide Queue.Valid;
    match s.worker {
      case HasLane => a := W(Pop);
      case Publishing(_) => a := W(Settled(false));
      case Receiving =>
        if s.signal { a := W(Receive); }
        else {
          var id :| id in s.clients && WillSignal(s.clients[id]);
          a := C(id, if s.clients[id] == Signalling then Signal else RequeueSignal);
        }
      case WantsLane =>
        match s.lane {
          case Free => a := W(Lock);
          case OfClient(id) =>
            assert HoldsLane(s.clients[id]);
            match s.clients[id] {
              case NowLocked(_) => a := C(id, NowDiscardQueued);
              case NowDiscarded(_) => a := C(id, NowDiscardParked);
              case NowPublishing(_) => a := C(id, NowSettled(false));
              case RequeueSignalling => a := C(id, RequeueSignal);
              case RequeueLocked =>
                SomeOrder(s.parked);
                var order :| Elements(order) == s.parked.Keys && |order| == |s.parked|;
                a := C(id, Requeue(order));
            }
          case OfWorker => assert false;
        }
    }
  }

  lemma SomeOrder(parked: map<Pubkey, Job>)
    ensures exists order :: Elements(order) == parked.Keys && |order| == |parked|
  {
    var order := Ascending(parked.Keys);
    assert Elements(order) == parked.Keys;
  }

  /** Once calls stop, the queue empties: wherever a run has led, any internal run that goes on as long as a
      step is possible is finite (`InternalRunsEnd`) and stops only at an empty queue, and one such run exists. */
  lemma {:induction false} QueueDrains(s: State) returns (run: seq<Action>)
    requires Inv(s) && s.worker != Gone
    ensures (forall a | Enabled(s, a) :: !Internal(a)) ==> s.queue.jobs == map[]
    ensures Runs(s, run) && AllInternal(run) && After(s, run).queue.jobs == map[]
    decreases Budget(s)
  {
    hide Inv, Budget, Step, Enabled, Internal;
    run := [];
    if s.queue.jobs != map[] {
      var a := NeverStuck(s);
      StepKeepsInv(s, a);
      StepUsesBudget(s, a);
      InternalKeepsWorker(s, a);
      var rest := QueueDrains(Step(s, a));
      run := [a] + rest;
      assert run[1..] == rest;
    }
  }

  lemma InternalKeepsWorker(s: State, a: Action)
    requires Enabled(s, a) && Internal(a) && s.worker != Gone
    ensures Step(s, a).worker != Gone
  {
  }
}
