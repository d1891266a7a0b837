/** The latest-per-pubkey publication queue of `src/presence_publisher.rs`:
    the value the queue holds, the simple list it stands for, and the mutable object itself. */
module PendingQueue {
  import opened Order

  type Pubkey = string

  /** A job and the pubkey its status outcome names; `trigger` stands for its remaining payload. */
  datatype Job = Job(pubkey: Pubkey, revision: nat, trigger: string, deferrals: nat)

  datatype Queue = Queue(order: seq<Pubkey>, jobs: map<Pubkey, Job>) {
    /** `order` lists each key of `jobs` exactly once, and a job is filed under its own pubkey. */
    ghost predicate Valid() {
      && NoDup(order)
      && (forall p :: p in order <==> p in jobs)
      && (forall p | p in jobs :: jobs[p].pubkey == p)
    }
  }

  const EMPTY := Queue([], map[])

  function Without(s: seq<Pubkey>, p: Pubkey): (r: seq<Pubkey>)
    ensures forall x :: x in r <==> x in s && x != p
    ensures NoDup(s) ==> NoDup(r)
  {
    if s == [] then []
    else
      var rest := Without(s[1..], p);
      assert s == [s[0]] + s[1..];
      assert NoDup(s) ==> s[0] !in s[1..] && NoDup(s[1..]);
      if s[0] == p then rest else [s[0]] + rest
  }

  function Pushed(q: Queue, job: Job): Queue {
    Queue(if job.pubkey in q.jobs then q.order else q.order + [job.pubkey], q.jobs[job.pubkey := job])
  }

  function Discarded(q: Queue, p: Pubkey, revision: nat): Queue {
    if p in q.jobs && q.jobs[p].revision <= revision then Queue(Without(q.order, p), q.jobs - {p}) else q
  }

  function Popped(q: Queue): Queue {
    if q.order == [] then q else Queue(q.order[1..], q.jobs - {q.order[0]})
  }

  lemma PushValid(q: Queue, job: Job)
    requires q.Valid()
    ensures Pushed(q, job).Valid()
  {
  }

  lemma DiscardValid(q: Queue, p: Pubkey, revision: nat)
    requires q.Valid()
    ensures Discarded(q, p, revision).Valid()
  {
  }

  /** A pop keeps the queue valid, and a valid queue has a job for its front. */
  lemma PopValid(q: Queue)
    requires q.Valid()
    ensures Popped(q).Valid()
    ensures q.order != [] ==> q.order[0] in q.jobs && q.order[0] !in Popped(q).jobs
    ensures q.order == [] <==> q.jobs == map[]
  {
    if q.order != [] {
      HeadNotInTail(q.order);
      assert q.order[0] in q.jobs;
    } else {
      assert forall x :: x !in q.jobs;
    }
  }

  lemma HeadNotInTail(order: seq<Pubkey>)
    requires NoDup(order) && order != []
    ensures NoDup(order[1..]) && order[0] !in order[1..]
    ensures forall p :: p in order <==> p == order[0] || p in order[1..]
  {
    assert order == [order[0]] + order[1..];
  }

  // ---------------------------------------------------------------- the simple form

  /** The queue as a plain list: one job per pubkey, a resubmission replaces in place. */
  ghost function List(q: Queue): seq<Job>
    requires q.Valid()
  {
    ListOf(q.order, q.jobs)
  }

  ghost function ListOf(order: seq<Pubkey>, jobs: map<Pubkey, Job>): seq<Job>
    requires forall p | p in order :: p in jobs
  {
    if order == [] then [] else [jobs[order[0]]] + ListOf(order[1..], jobs)
  }

  ghost function ListPush(l: seq<Job>, job: Job): seq<Job> {
    if l == [] then [job]
    else if l[0].pubkey == job.pubkey then [job] + l[1..]
    else [l[0]] + ListPush(l[1..], job)
  }

  ghost function ListDiscard(l: seq<Job>, p: Pubkey, revision: nat): seq<Job> {
    if l == [] then []
    else (if l[0].pubkey == p && l[0].revision <= revision then [] else [l[0]]) + ListDiscard(l[1..], p, revision)
  }

  ghost predicate Filed(order: seq<Pubkey>, jobs: map<Pubkey, Job>) {
    NoDup(order) && forall p | p in order :: p in jobs && jobs[p].pubkey == p
  }

  lemma {:induction false} SameList(order: seq<Pubkey>, a: map<Pubkey, Job>, b: map<Pubkey, Job>)
    requires forall p | p in order :: p in a && p in b && a[p] == b[p]
    ensures ListOf(order, a) == ListOf(order, b)
  {
    if order != [] { SameList(order[1..], a, b); }
  }

  lemma {:induction false} PushOnList(order: seq<Pubkey>, jobs: map<Pubkey, Job>, job: Job)
    requires Filed(order, jobs)
    ensures var order' := if job.pubkey in order then order else order + [job.pubkey];
            ListOf(order', jobs[job.pubkey := job]) == ListPush(ListOf(order, jobs), job)
  {
    if order != [] {
      HeadNotInTail(order);
      if order[0] == job.pubkey {
        SameList(order[1..], jobs, jobs[job.pubkey := job]);
      } else {
        PushOnList(order[1..], jobs, job);
        assert (order + [job.pubkey])[1..] == order[1..] + [job.pubkey];
      }
    }
  }

  lemma PushRefinesList(q: Queue, job: Job)
    requires q.Valid()
    ensures Pushed(q, job).Valid() && List(Pushed(q, job)) == ListPush(List(q), job)
  {
    PushValid(q, job);
    PushOnList(q.order, q.jobs, job);
  }

  lemma {:induction false} DiscardOnList(order: seq<Pubkey>, jobs: map<Pubkey, Job>, p: Pubkey, revision: nat)
    requires Filed(order, jobs)
    ensures ListDiscard(ListOf(order, jobs), p, revision)
         == ListOf(if p in jobs && jobs[p].revision <= revision then Without(order, p) else order, jobs)
  {
    if order != [] {
      HeadNotInTail(order);
      DiscardOnList(order[1..], jobs, p, revision);
    }
  }

  lemma DiscardRefinesList(q: Queue, p: Pubkey, revision: nat)
    requires q.Valid()
    ensures Discarded(q, p, revision).Valid()
    ensures List(Discarded(q, p, revision)) == ListDiscard(List(q), p, revision)
  {
    DiscardValid(q, p, revision);
    DiscardOnList(q.order, q.jobs, p, revision);
    var d := Discarded(q, p, revision);
    SameList(d.order, d.jobs, q.jobs);
  }

  lemma PopRefinesList(q: Queue)
    requires q.Valid() && q.order != []
    ensures Popped(q).Valid() && List(q) == [q.jobs[q.order[0]]] + List(Popped(q))
  {
    PopValid(q);
    HeadNotInTail(q.order);
    SameList(q.order[1..], q.jobs, q.jobs - {q.order[0]});
  }

  // ------------------------------------------------------- runs of queue operations

  datatype Op = Put(job: Job) | Take | Discard(pubkey: Pubkey, revision: nat) | Reset

  function Apply(q: Queue, op: Op): Queue {
    match op
    case Put(job) => Pushed(q, job)
    case Take => Popped(q)
    case Discard(p, revision) => Discarded(q, p, revision)
    case Reset => EMPTY
  }

  function ApplyAll(q: Queue, ops: seq<Op>): Queue
    decreases |ops|
  {
    if ops == [] then q else ApplyAll(Apply(q, ops[0]), ops[1..])
  }

  function Takes(ops: seq<Op>): nat {
    if ops == [] then 0 else (if ops[0].Take? then 1 else 0) + Takes(ops[1..])
  }

  /** The job last submitted for `p` by `ops`, or `job` when they submit none. */
  function LastSubmitted(ops: seq<Op>, p: Pubkey, job: Job): Job
    decreases |ops|
  {
    if ops == [] then job
    else LastSubmitted(ops[1..], p, Resubmitted(ops[0], p, job))
  }

  ghost predicate Spares(ops: seq<Op>, p: Pubkey) {
    forall i | 0 <= i < |ops| :: !ops[i].Reset? && (ops[i].Discard? ==> ops[i].pubkey != p)
  }

  /** The job of `p` once `op` has been applied, when it is still queued. */
  function Resubmitted(op: Op, p: Pubkey, job: Job): Job {
    if op.Put? && op.job.pubkey == p then op.job else job
  }

  lemma OneOperation(q: Queue, op: Op, p: Pubkey, i: nat) returns (j: nat)
    requires q.Valid() && i < |q.order| && q.order[i] == p && p in q.jobs
    requires !op.Reset? && (op.Discard? ==> op.pubkey != p) && (op.Take? ==> i > 0)
    ensures Apply(q, op).Valid() && j < |Apply(q, op).order| && Apply(q, op).order[j] == p
    ensures p in Apply(q, op).jobs && Apply(q, op).jobs[p] == Resubmitted(op, p, q.jobs[p])
    ensures j <= i && (op.Take? ==> j == i - 1)
  {
    match op {
      case Put(job) => PushValid(q, job); j := i;
      case Take => PopValid(q); j := i - 1;
      case Discard(other, revision) =>
        DiscardValid(q, other, revision);
        j := WithoutMovesForward(q.order, other, i);
        if Apply(q, op) == q { j := i; }
    }
  }

  /** No starvation: a pubkey at position `i` is taken by one of the next `i + 1` takes, however often any
      pubkey is resubmitted meanwhile, and what is taken is the job last submitted for it. */
  lemma {:induction false} LeavesWithin(q: Queue, ops: seq<Op>, p: Pubkey, i: nat) returns (k: nat)
    requires q.Valid() && i < |q.order| && q.order[i] == p && p in q.jobs
    requires Spares(ops, p) && i < Takes(ops)
    ensures k < |ops| && ops[k].Take? && Takes(ops[..k]) <= i
    ensures var at := ApplyAll(q, ops[..k]);
            at.order != [] && at.order[0] == p && p in at.jobs
            && at.jobs[p] == LastSubmitted(ops[..k], p, q.jobs[p])
    decreases |ops|
  {
    if ops[0].Take? && i == 0 {
      k := 0;
    } else {
      var j := OneOperation(q, ops[0], p, i);
      assert Spares(ops[1..], p) by { assert forall m | 0 <= m < |ops| - 1 :: ops[1..][m] == ops[m + 1]; }
      var rest := LeavesWithin(Apply(q, ops[0]), ops[1..], p, j);
      k := rest + 1;
      assert ops[..k][0] == ops[0] && ops[..k][1..] == ops[1..][..rest];
    }
  }

  lemma {:induction false} WithoutMovesForward(s: seq<Pubkey>, p: Pubkey, i: nat) returns (j: nat)
    requires i < |s| && s[i] != p
    ensures j <= i && j < |Without(s, p)| && Without(s, p)[j] == s[i]
  {
    if i == 0 {
      j := 0;
    } else {
      j := WithoutMovesForward(s[1..], p, i - 1);
      if s[0] != p { j := j + 1; }
    }
  }

  // ------------------------------------------------------------ the mutable object

  class PendingPublishJobs {
    var order: seq<Pubkey>
    var jobs: map<Pubkey, Job>

    ghost function Value(): Queue reads this { Queue(order, jobs) }

    constructor ()
      ensures Value() == EMPTY && Value().Valid()
    {
      order, jobs := [], map[];
    }

    method Push(job: Job)
      requires Value().Valid()
      modifies this
      ensures Value() == Pushed(old(Value()), job) && Value().Valid()
    {
      PushValid(Value(), job);
      var known := job.pubkey in jobs;
      jobs := jobs[job.pubkey := job];
      if !known { order := order + [job.pubkey]; }
    }

    method DiscardSuperseded(p: Pubkey, revision: nat)
      requires Value().Valid()
      modifies this
      ensures Value() == Discarded(old(Value()), p, revision) && Value().Valid()
    {
      DiscardValid(Value(), p, revision);
      if p in jobs && jobs[p].revision <= revision {
        jobs := jobs - {p};
        order := Without(order, p);
      }
    }

    method PopFront() returns (job: Option<Job>)
      requires Value().Valid()
      modifies this
      ensures Value() == Popped(old(Value())) && Value().Valid()
      ensures job == if old(order) == [] then None else Some(old(jobs)[old(order)[0]])
    {
      PopValid(Value());
      if order == [] { return None; }
      var p := order[0];
      order := order[1..];
      job := if p in jobs then Some(jobs[p]) else None;
      jobs := jobs - {p};
    }

    method Clear()
      modifies this
      ensures Value() == EMPTY && Value().Valid()
    {
      order := [];
      jobs := map[];
    }
  }
}
