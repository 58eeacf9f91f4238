/** The job registry of core/jobs.py as a value and its atomic steps.

    Every lock-held region of the source is one function from registry to registry; the class in
    JobRegistry.dfy performs the same steps in place. */
module Jobs {
  import opened Common

  type JobId = string

  datatype Status = IN_QUEUE | IN_PROGRESS | COMPLETED | FAILED

  datatype Job = Job(
    id: JobId,
    payload: Json,
    status: Status,
    output: Option<Json>,
    error: Option<string>,
    cancel: bool)

  /** Where the single worker thread stands. */
  datatype Worker =
    | NotStarted           // no thread was ever created
    | AtLock               // in the loop, about to examine the queue under the lock
    | Parked               // waiting on the condition variable, not notified
    | Busy(job: JobId)     // outside the lock, inside `run_fn` for this job
    | Leaving              // the loop has returned, `is_alive()` is still true
    | Gone                 // the thread is dead

  /** What `run_fn` did: it returned, raised `Cancelled`, or raised another `Exception`. */
  datatype Outcome = Returned(output: Json) | WasCancelled | Raised(message: string)

  datatype Registry = Registry(
    jobs: map<JobId, Job>,
    queue: seq<JobId>,
    completedOrder: seq<JobId>,
    maxCompleted: nat,
    stop: bool,
    worker: Worker)

  const CANCELED_EARLY := "canceled before start"
  const CANCELED := "canceled"

  function NewJob(id: JobId, payload: Json): Job {
    Job(id, payload, IN_QUEUE, None, None, false)
  }

  predicate Terminal(j: Job) {
    j.status == COMPLETED || j.status == FAILED
  }

  /** `_ensure_worker_locked`: a new thread only when none is alive. */
  function EnsureWorker(w: Worker): Worker {
    if w == NotStarted || w == Gone then AtLock else w
  }

  /** `notify`: releases the parked worker, if there is one. */
  function Notify(w: Worker): Worker {
    if w == Parked then AtLock else w
  }

  /** `deque.remove(id)` with its ValueError ignored. */
  function Remove(q: seq<JobId>, id: JobId): seq<JobId> {
    if q == [] then []
    else if q[0] == id then q[1..]
    else [q[0]] + Remove(q[1..], id)
  }

  /** The eviction loop: pop the oldest terminal id while there are too many. */
  function EvictJobs(jobs: map<JobId, Job>, order: seq<JobId>, max: nat): map<JobId, Job> {
    if |order| <= max then jobs else EvictJobs(jobs - {order[0]}, order[1..], max)
  }

  function EvictOrder(order: seq<JobId>, max: nat): seq<JobId> {
    if |order| <= max then order else EvictOrder(order[1..], max)
  }

  /** `_retain_locked` */
  function Retain(r: Registry, id: JobId): Registry {
    r.(jobs := EvictJobs(r.jobs, r.completedOrder + [id], r.maxCompleted),
       completedOrder := EvictOrder(r.completedOrder + [id], r.maxCompleted))
  }

  function Store(r: Registry, job: Job): Registry {
    r.(jobs := r.jobs[job.id := job])
  }

  function Submit(r: Registry, id: JobId, payload: Json): Registry {
    Store(r, NewJob(id, payload)).(
      queue := r.queue + [id],
      worker := Notify(EnsureWorker(r.worker)))
  }

  function Cancel(r: Registry, id: JobId): Registry {
    if id !in r.jobs then r
    else
      var job := r.jobs[id];
      match job.status
      case IN_QUEUE =>
        Retain(r.(jobs := r.jobs[id := job.(status := FAILED, error := Some(CANCELED_EARLY))],
                  queue := Remove(r.queue, id)), id)
      case IN_PROGRESS => r.(jobs := r.jobs[id := job.(cancel := true)])
      case COMPLETED => r
      case FAILED => r
  }

  function Shutdown(r: Registry): Registry {
    r.(stop := true, worker := Notify(r.worker))
  }

  /** One pass of the worker loop through its lock-held region. */
  function Turn(r: Registry): Registry {
    if r.queue == [] then
      r.(worker := if r.stop then Leaving else Parked)
    else
      var id := r.queue[0];
      var popped := r.(queue := r.queue[1..]);
      if id !in r.jobs || r.jobs[id].status != IN_QUEUE then popped
      else if r.jobs[id].cancel then
        Retain(popped.(jobs := r.jobs[id := r.jobs[id].(status := FAILED, error := Some(CANCELED_EARLY))]), id)
      else
        popped.(jobs := r.jobs[id := r.jobs[id].(status := IN_PROGRESS)], worker := Busy(id))
  }

  /** The job's fields after `run_fn` ended with outcome `o`. */
  function Settled(job: Job, o: Outcome): Job {
    match o
    case Returned(output) => job.(output := Some(output), status := COMPLETED)
    case WasCancelled => job.(status := FAILED, error := Some(CANCELED))
    case Raised(message) => job.(status := FAILED, error := Some(Take(message, 500)))
  }

  /** The worker records the outcome of the job it ran and goes back to the lock. */
  function Finish(r: Registry, o: Outcome): Registry
    requires r.worker.Busy?
  {
    var id := r.worker.job;
    var settled := if id in r.jobs then r.(jobs := r.jobs[id := Settled(r.jobs[id], o)]) else r;
    Retain(settled, id).(worker := AtLock)
  }

  /** What `should_cancel` answers for the job. */
  predicate IsCancelled(r: Registry, id: JobId) {
    id in r.jobs && r.jobs[id].cancel
  }

  // --- the step relation, and the histories that the registry forgets --------------------------

  datatype Action =
    | DoSubmit(id: JobId, payload: Json)
    | DoCancel(target: JobId)
    | DoShutdown
    | DoTurn               // the worker enters its critical section
    | DoWake               // the condition variable releases the worker without a notify
    | DoFinish(outcome: Outcome)
    | DoExit               // the returned worker thread dies

  datatype Logged = Logged(
    reg: Registry,
    submitted: seq<JobId>,   // every id ever submitted, in order
    started: seq<JobId>,     // every id ever passed to `run_fn`, in order
    finished: seq<JobId>,    // every id that became terminal, in order, never forgotten
    dropped: set<JobId>)     // the ids canceled before they started

  function Init(maxCompleted: nat): Logged {
    Logged(Registry(map[], [], [], maxCompleted, false, NotStarted), [], [], [], {})
  }

  predicate Enabled(l: Logged, a: Action) {
    match a
    case DoSubmit(id, _) => id !in l.submitted     // uuid4 never repeats
    case DoCancel(_) => true
    case DoShutdown => true
    case DoTurn => l.reg.worker == AtLock
    case DoWake => l.reg.worker == Parked
    case DoFinish(_) => l.reg.worker.Busy?
    case DoExit => l.reg.worker == Leaving
  }

  function Next(l: Logged, a: Action): Logged
    requires Enabled(l, a)
  {
    var r := l.reg;
    match a
    case DoSubmit(id, payload) =>
      l.(reg := Submit(r, id, payload), submitted := l.submitted + [id])
    case DoCancel(id) =>
      var l' := l.(reg := Cancel(r, id));
      if id in r.jobs && r.jobs[id].status == IN_QUEUE
      then l'.(finished := l.finished + [id], dropped := l.dropped + {id})
      else l'
    case DoShutdown => l.(reg := Shutdown(r))
    case DoTurn =>
      var l' := l.(reg := Turn(r));
      if r.queue == [] then l'
      else
        var id := r.queue[0];
        if id !in r.jobs || r.jobs[id].status != IN_QUEUE then l'
        else if r.jobs[id].cancel then l'.(finished := l.finished + [id], dropped := l.dropped + {id})
        else l'.(started := l.started + [id])
    case DoWake => l.(reg := r.(worker := AtLock))
    case DoFinish(o) => l.(reg := Finish(r, o), finished := l.finished + [r.worker.job])
    case DoExit => l.(reg := r.(worker := Gone))
  }

  ghost predicate CanRun(l: Logged, acts: seq<Action>)
    decreases |acts|
  {
    acts == [] || (Enabled(l, acts[0]) && CanRun(Next(l, acts[0]), acts[1..]))
  }

  ghost function Run(l: Logged, acts: seq<Action>): Logged
    requires CanRun(l, acts)
    decreases |acts|
  {
    if acts == [] then l else Run(Next(l, acts[0]), acts[1..])
  }

  // --- the invariant -----------------------------------------------------------------------------

  ghost predicate Running(r: Registry, id: JobId) {
    r.worker == Busy(id)
  }

  /** A job waiting to start carries nothing but its payload. */
  predicate Waiting(j: Job) {
    j.status == IN_QUEUE && j.output == None && j.error == None && !j.cancel
  }

  /** A finished job carries exactly one of output and error. */
  predicate Closed(j: Job) {
    || (j.status == COMPLETED && j.output.Some? && j.error == None)
    || (j.status == FAILED && j.output == None && j.error.Some?)
  }

  ghost predicate JobsOk(r: Registry) {
    && (forall id :: id in r.jobs <==> id in r.queue || Running(r, id) || id in r.completedOrder)
    && (forall id :: id in r.jobs ==> r.jobs[id].id == id)
    && (forall id :: id in r.queue ==> id in r.jobs && Waiting(r.jobs[id]))
    && (forall id :: Running(r, id) ==>
         id in r.jobs && r.jobs[id].status == IN_PROGRESS && r.jobs[id].output == None && r.jobs[id].error == None)
    && (forall id :: id in r.completedOrder ==> id in r.jobs && Closed(r.jobs[id]))
  }

  ghost predicate HistoryOk(l: Logged) {
    var r := l.reg;
    && NoDup(l.submitted)
    && NoDup(l.finished)
    && (forall id :: id in l.submitted <==> id in r.queue || Running(r, id) || id in l.finished)
    && (forall id :: id in l.finished ==> id !in r.queue && !Running(r, id))
    && (forall id :: id in l.dropped ==> id in l.finished)
    && r.completedOrder == Last(l.finished, r.maxCompleted)
    && Without(l.submitted, l.dropped) == l.started + r.queue
  }

  ghost predicate WorkerOk(r: Registry) {
    && (r.worker == NotStarted ==> r.queue == [])
    && (r.worker == Parked ==> r.queue == [] && !r.stop)
    && (r.worker == Leaving || r.worker == Gone ==> r.stop)
  }

  ghost predicate Inv(l: Logged) {
    JobsOk(l.reg) && HistoryOk(l) && WorkerOk(l.reg)
  }

  // --- what the helper functions compute --------------------------------------------------------

  lemma {:induction false} RemoveIsWithout(q: seq<JobId>, id: JobId)
    requires NoDup(q)
    ensures Remove(q, id) == Without(q, {id})
  {
    if q != [] {
      var tail := q[1..];
      assert NoDup(tail);
      RemoveIsWithout(tail, id);
      assert q == [q[0]] + tail;
      WithoutConcat([q[0]], tail, {id});
      if q[0] == id {
        WithoutAbsent(tail, id);
      }
      assert Without([q[0]], {id}) == if q[0] == id then [] else [q[0]];
    }
  }

  lemma {:induction false} EvictOrderIsLast(order: seq<JobId>, max: nat)
    ensures EvictOrder(order, max) == Last(order, max)
    decreases |order|
  {
    if |order| > max {
      EvictOrderIsLast(order[1..], max);
    }
  }

  lemma OlderFirst(order: seq<JobId>, max: nat)
    requires |order| > max
    ensures Older(order, max) == [order[0]] + Older(order[1..], max)
    ensures (set x | x in Older(order, max)) == {order[0]} + set x | x in Older(order[1..], max)
  {
    assert Older(order, max) == [order[0]] + Older(order[1..], max);
  }

  lemma {:induction false} EvictDropsOlder(jobs: map<JobId, Job>, order: seq<JobId>, max: nat)
    ensures EvictJobs(jobs, order, max) == jobs - (set x | x in Older(order, max))
    decreases |order|
  {
    if |order| > max {
      var rest := set x | x in Older(order[1..], max);
      EvictDropsOlder(jobs - {order[0]}, order[1..], max);
      OlderFirst(order, max);
      assert jobs - {order[0]} - rest == jobs - ({order[0]} + rest);
    }
  }

  /** The eviction loop keeps exactly the newest `max` ids, and drops the records of the others. */
  lemma EvictKeepsNewest(jobs: map<JobId, Job>, order: seq<JobId>, max: nat)
    ensures EvictOrder(order, max) == Last(order, max)
    ensures EvictJobs(jobs, order, max) == jobs - (set x | x in Older(order, max))
  {
    EvictOrderIsLast(order, max);
    EvictDropsOlder(jobs, order, max);
  }

  lemma NoDupSplit<T(!new)>(s: seq<T>, n: nat)
    requires NoDup(s)
    ensures s == Older(s, n) + Last(s, n)
    ensures forall x :: x in s ==> (x in Older(s, n) <==> x !in Last(s, n))
  {
    assert s == Older(s, n) + Last(s, n);
  }

  /** Retaining a job that has just become terminal, where `log` is the complete finish log. */
  lemma RetainEffect(r: Registry, id: JobId, log: seq<JobId>)
    requires r.completedOrder == Last(log, r.maxCompleted)
    requires NoDup(log + [id])
    ensures var r' := Retain(r, id);
      && r'.completedOrder == Last(log + [id], r.maxCompleted)
      && (forall x :: x in r'.jobs <==>
            x in r.jobs && (x !in r.completedOrder + [id] || x in r'.completedOrder))
      && (forall x :: x in r'.jobs ==> r'.jobs[x] == r.jobs[x])
      && (forall x :: x in r'.completedOrder ==> x in r.completedOrder + [id])
  {
    var order := r.completedOrder + [id];
    EvictKeepsNewest(r.jobs, order, r.maxCompleted);
    LastAppend(log, id, r.maxCompleted);
    assert NoDup(order) by {
      var k := |log| - |r.completedOrder|;
      assert forall i :: 0 <= i < |order| ==> order[i] == (log + [id])[k + i];
    }
    NoDupSplit(order, r.maxCompleted);
  }
}
