/** The registry class of core/jobs.py, updated in place, against the value steps of module Jobs. */
module JobRegistryClass {
  import opened Common
  import opened Jobs
  import opened JobsTheorems
  import opened StatusEnvelope

  /** The Job dataclass: the record that the registry, the worker and the status readers share. */
  class JobRecord {
    const id: JobId
    const payload: Json
    var status: Status
    var output: Option<Json>
    var error: Option<string>
    var cancel: bool

    constructor (id: JobId, payload: Json)
      ensures View() == NewJob(id, payload) && this.id == id
    {
      this.id, this.payload := id, payload;
      status, output, error, cancel := IN_QUEUE, None, None, false;
    }

    function View(): Job
      reads this
    {
      Job(id, payload, status, output, error, cancel)
    }

    /** The field writes of the three arms, in their order in the source. `trace` holds the fields
        before, between and after them, which is what lock-free readers can meet. */
    method Settle(o: Outcome) returns (ghost trace: seq<Fields>)
      modifies this
      ensures View() == Settled(old(View()), o)
      ensures trace == WriteOrder(FieldsOf(old(View())), FieldsOf(View()))
    {
      trace := [FieldsOf(View())];
      match o {
        case Returned(result) =>
          output := Some(result);
          trace := trace + [FieldsOf(View())];
          status := COMPLETED;
        case WasCancelled =>
          status := FAILED;
          trace := trace + [FieldsOf(View())];
          error := Some(CANCELED);
        case Raised(message) =>
          status := FAILED;
          trace := trace + [FieldsOf(View())];
          error := Some(Take(message, 500));
      }
      trace := trace + [FieldsOf(View())];
    }
  }

  class JobRegistry {
    var jobs: map<JobId, JobRecord>
    var queue: seq<JobId>
    var completedOrder: seq<JobId>
    const maxCompleted: nat
    var stop: bool
    var worker: Worker

    ghost predicate Valid()
      reads this, jobs.Values
    {
      forall k :: k in jobs ==> jobs[k].id == k
    }

    ghost function View(): Registry
      reads this, jobs.Values
    {
      Registry(map k | k in jobs :: jobs[k].View(), queue, completedOrder, maxCompleted, stop, worker)
    }

    constructor (maxCompleted: nat)
      ensures Valid() && View() == Init(maxCompleted).reg
    {
      this.maxCompleted := maxCompleted;
      jobs, queue, completedOrder, stop, worker := map[], [], [], false, NotStarted;
    }

    method Submit(id: JobId, payload: Json) returns (job: JobRecord)
      requires Valid() && id !in jobs
      modifies this
      ensures Valid() && fresh(job) && jobs == old(jobs)[id := job]
      ensures job.id == id && job.payload == payload && job.status == IN_QUEUE
      ensures job.output == None && job.error == None && !job.cancel
      ensures View() == Jobs.Submit(old(View()), id, payload)
    {
      job := new JobRecord(id, payload);
      StoreRecord(job);
      ghost var r := View();
      queue := queue + [id];
      EnsureWorkerLocked();
      worker := Notify(worker);
      assert View().jobs == r.jobs;
    }

    method StoreRecord(job: JobRecord)
      requires Valid()
      modifies this`jobs
      ensures Valid() && jobs == old(jobs)[job.id := job] && View() == Store(old(View()), job.View())
    {
      ghost var r := View();
      jobs := jobs[job.id := job];
      assert View().jobs == r.jobs[job.id := job.View()];
    }

    method EnsureWorkerLocked()
      modifies this`worker
      ensures worker == EnsureWorker(old(worker))
    {
      if worker == NotStarted || worker == Gone {
        worker := AtLock;
      }
    }

    method Get(id: JobId) returns (job: JobRecord?)
      requires Valid()
      ensures job == null <==> id !in View().jobs
      ensures job != null ==> job.id == id && job in jobs.Values && job.View() == View().jobs[id]
    {
      job := if id in jobs then jobs[id] else null;
    }

    /** `deque.remove`, ignoring a missing id. */
    method RemoveFromQueue(id: JobId)
      modifies this`queue
      ensures queue == Remove(old(queue), id)
    {
      var i := 0;
      while i < |queue| && queue[i] != id
        invariant 0 <= i <= |queue|
        invariant queue == old(queue)
        invariant Remove(queue, id) == queue[..i] + Remove(queue[i..], id)
      {
        RemoveOneOn(queue, i, id);
        i := i + 1;
      }
      if i < |queue| {
        assert queue[i..][1..] == queue[i + 1..];
        queue := queue[..i] + queue[i + 1..];
      } else {
        assert queue[..i] == queue && queue[..i] + [] == queue;
      }
    }

    method RetainLocked(id: JobId)
      requires Valid()
      modifies this`jobs, this`completedOrder
      ensures Valid() && View() == Retain(old(View()), id)
      ensures forall k :: k in jobs ==> k in old(jobs) && jobs[k] == old(jobs)[k]
    {
      completedOrder := completedOrder + [id];
      assert View().jobs == old(View()).jobs;
      while |completedOrder| > maxCompleted
        invariant Valid()
        invariant forall k :: k in jobs ==> k in old(jobs) && jobs[k] == old(jobs)[k]
        invariant EvictOrder(completedOrder, maxCompleted)
               == EvictOrder(old(completedOrder) + [id], maxCompleted)
        invariant EvictJobs(View().jobs, completedOrder, maxCompleted)
               == EvictJobs(old(View()).jobs, old(completedOrder) + [id], maxCompleted)
        decreases |completedOrder|
      {
        EvictOldest();
      }
    }

    method EvictOldest()
      requires Valid() && completedOrder != []
      modifies this`jobs, this`completedOrder
      ensures Valid() && completedOrder == old(completedOrder)[1..] && jobs == old(jobs) - {old(completedOrder)[0]}
      ensures View().jobs == old(View()).jobs - {old(completedOrder)[0]}
    {
      var oldest := completedOrder[0];
      ghost var before := View().jobs;
      completedOrder := completedOrder[1..];
      jobs := jobs - {oldest};
      assert View().jobs == before - {oldest};
    }

    /** Fails a job that never started and retains it. `trace` is as for `Settle`. */
    method FailBeforeStart(job: JobRecord) returns (ghost trace: seq<Fields>)
      requires Valid() && job.id in jobs && jobs[job.id] == job
      modifies this`jobs, this`completedOrder, job
      ensures Valid() && trace == WriteOrder(FieldsOf(old(job.View())), FieldsOf(job.View()))
      ensures var r, id := old(View()), job.id;
        var failed := old(job.View()).(status := FAILED, error := Some(CANCELED_EARLY));
        View() == Retain(r.(jobs := r.jobs[id := failed]), id) && job.View() == failed
      ensures forall k :: k in jobs ==> k in old(jobs) && jobs[k] == old(jobs)[k]
    {
      ghost var r := View();
      trace := [FieldsOf(job.View())];
      job.status := FAILED;
      trace := trace + [FieldsOf(job.View())];
      job.error := Some(CANCELED_EARLY);
      trace := trace + [FieldsOf(job.View())];
      assert View().jobs == r.jobs[job.id := job.View()];
      RetainLocked(job.id);
    }

    method Cancel(id: JobId) returns (stopped: bool)
      requires Valid()
      modifies this`jobs, this`queue, this`completedOrder, if id in jobs then {jobs[id]} else {}
      ensures Valid() && stopped
      ensures View() == Jobs.Cancel(old(View()), id)
      ensures id in old(jobs) ==> old(jobs)[id].View() == CanceledRecord(old(jobs[id].View()))
      ensures forall k :: k in jobs ==> k in old(jobs) && jobs[k] == old(jobs)[k]
    {
      stopped := true;
      if id in jobs {
        var job := jobs[id];
        ghost var r := View();
        if job.status == IN_QUEUE {
          RemoveFromQueue(id);
          assert View().jobs == r.jobs;
          var _ := FailBeforeStart(job);
        } else if job.status == IN_PROGRESS {
          job.cancel := true;
          assert View().jobs == r.jobs[id := r.jobs[id].(cancel := true)];
        }
      }
    }

    /** The lock-held part of one pass of the worker loop, on a queue that is not empty. */
    method PopJob() returns (run: JobRecord?)
      requires Valid() && worker == AtLock && queue != []
      modifies this, if queue[0] in jobs then {jobs[queue[0]]} else {}
      ensures old(queue[0]) in old(jobs) ==> old(jobs[queue[0]]).View() == TakenRecord(old(jobs[queue[0]].View()))
      ensures Valid() && View() == Turn(old(View()))
      ensures run != null <==> worker.Busy?
      ensures run != null ==> run.id == worker.job && run.id in jobs && jobs[run.id] == run
      ensures forall k :: k in jobs ==> k in old(jobs) && jobs[k] == old(jobs)[k]
    {
      var id := queue[0];
      ghost var r := View();
      queue := queue[1..];
      assert View().jobs == r.jobs;
      if id !in jobs || jobs[id].status != IN_QUEUE {
        return null;
      }
      run := jobs[id];
      if run.cancel {
        var _ := FailBeforeStart(run);
        return null;
      }
      run.status := IN_PROGRESS;
      worker := Busy(id);
      assert View().jobs == r.jobs[id := r.jobs[id].(status := IN_PROGRESS)];
    }

    /** One pass of the worker loop: wait, leave, or pop a job and decide whether to run it. */
    method WorkerTurn() returns (run: JobRecord?)
      requires Valid() && worker == AtLock
      modifies this, if queue != [] && queue[0] in jobs then {jobs[queue[0]]} else {}
      ensures old(queue) != [] && old(queue[0]) in old(jobs) ==>
        old(jobs[queue[0]]).View() == TakenRecord(old(jobs[queue[0]].View()))
      ensures Valid() && View() == Turn(old(View()))
      ensures run != null <==> worker.Busy?
      ensures run != null ==> run.id == worker.job && run.id in jobs && jobs[run.id] == run
      ensures forall k :: k in jobs ==> k in old(jobs) && jobs[k] == old(jobs)[k]
    {
      run := null;
      ghost var r := View();
      if queue == [] && !stop {
        worker := Parked;
        assert View().jobs == r.jobs;
      } else if stop && queue == [] {
        worker := Leaving;
        assert View().jobs == r.jobs;
      } else {
        run := PopJob();
      }
    }

    /** The three ways `run_fn` can end. The worker writes to the record it holds, which is the one
        in the map unless the id has been evicted. */
    method RecordOutcome(job: JobRecord, o: Outcome)
      requires Valid() && worker == Busy(job.id)
      requires job.id in jobs ==> jobs[job.id] == job
      modifies this, job
      ensures Valid() && View() == Finish(old(View()), o)
      ensures job.View() == Settled(old(job.View()), o)
      ensures forall k :: k in jobs ==> k in old(jobs) && jobs[k] == old(jobs)[k]
    {
      ghost var r := View();
      var _ := job.Settle(o);
      assert View().jobs == if job.id in r.jobs then r.jobs[job.id := job.View()] else r.jobs;
      ghost var v := View();
      RetainLocked(job.id);
      assert View() == Retain(v, job.id);
      ghost var w := View();
      worker := AtLock;
      assert View().jobs == w.jobs;
    }

    /** The worker runs the job it has taken, then records how that ended. */
    method RunTaken(job: JobRecord, run: Json -> Outcome)
      requires Valid() && worker == Busy(job.id) && job.id in jobs && jobs[job.id] == job
      modifies this, job
      ensures Valid() && View() == Finish(old(View()), run(old(View()).jobs[job.id].payload))
      ensures forall k :: k in jobs ==> k in old(jobs) && jobs[k] == old(jobs)[k]
    {
      assert View().jobs[job.id].payload == job.payload;
      RecordOutcome(job, run(job.payload));
    }

    method IsCancelled(id: JobId) returns (c: bool)
      requires Valid()
      ensures c == Jobs.IsCancelled(View(), id)
    {
      c := id in jobs && jobs[id].cancel;
    }

    method Shutdown()
      requires Valid()
      modifies this`stop, this`worker
      ensures Valid() && View() == Jobs.Shutdown(old(View()))
    {
      stop := true;
      worker := Notify(worker);
    }

    lemma KnownOrNew(l: Logged, a: Action)
      requires Inv(l) && Enabled(l, a) && View() == l.reg
      ensures a.DoSubmit? ==> a.id !in jobs
      ensures a.DoFinish? ==> worker.Busy? && worker.job in jobs
    {
      assert View().jobs.Keys == jobs.Keys;
      assert a.DoSubmit? ==> a.id !in l.reg.jobs by {
        RetainedAreFinished(l);
      }
      assert a.DoFinish? ==> Running(l.reg, l.reg.worker.job);
    }

    /** What one thread does in one critical section: a client calls a method, or the worker loop moves on.
        The records written are those of the step, evicted or not. */
    method Step(a: Action, ghost l: Logged)
      requires Valid() && Inv(l) && Enabled(l, a) && View() == l.reg
      modifies this, jobs.Values
      ensures Valid() && View() == Next(l, a).reg
      ensures fresh(jobs.Values - old(jobs.Values))
      ensures forall k :: k in old(jobs) ==> old(jobs)[k].View() == Written(l.reg, a, k)
    {
      match a
      case DoSubmit(id, payload) => SubmitStep(id, payload, l);
      case DoCancel(id) => CancelStep(id, l);
      case DoShutdown => Shutdown();
      case DoTurn => TurnStep(l);
      case DoWake => MoveWorker(AtLock);
      case DoFinish(o) => FinishStep(o, l);
      case DoExit => MoveWorker(Gone);
    }

    method SubmitStep(id: JobId, payload: Json, ghost l: Logged)
      requires Valid() && Inv(l) && Enabled(l, DoSubmit(id, payload)) && View() == l.reg
      modifies this
      ensures Valid() && View() == Next(l, DoSubmit(id, payload)).reg
      ensures fresh(jobs.Values - old(jobs.Values))
    {
      KnownOrNew(l, DoSubmit(id, payload));
      var _ := Submit(id, payload);
    }

    method CancelStep(id: JobId, ghost l: Logged)
      requires Valid() && View() == l.reg
      modifies this, jobs.Values
      ensures Valid() && View() == Next(l, DoCancel(id)).reg && jobs.Values <= old(jobs.Values)
      ensures forall k :: k in old(jobs) ==>
        old(jobs)[k].View() == if k == id then CanceledRecord(l.reg.jobs[k]) else l.reg.jobs[k]
    {
      RecordsAreDistinct(id);
      var _ := Cancel(id);
    }

    /** No two ids share a record, and the registry value shows each. */
    lemma RecordsAreDistinct(id: JobId)
      requires Valid()
      ensures forall k :: k in jobs ==> jobs[k].View() == View().jobs[k]
      ensures id in jobs ==> forall k :: k in jobs && k != id ==> jobs[k] != jobs[id]
    {
    }

    method TurnStep(ghost l: Logged)
      requires Valid() && worker == AtLock && View() == l.reg
      modifies this, jobs.Values
      ensures Valid() && View() == Next(l, DoTurn).reg && jobs.Values <= old(jobs.Values)
      ensures forall k :: k in old(jobs) ==> old(jobs)[k].View() == Written(l.reg, DoTurn, k)
    {
      ghost var known := jobs;
      assert forall k :: k in known ==> l.reg.jobs[k] == known[k].View() && known[k].id == k;
      var _ := WorkerTurn();
    }

    method FinishStep(o: Outcome, ghost l: Logged)
      requires Valid() && Inv(l) && worker.Busy? && View() == l.reg
      modifies this, jobs.Values
      ensures Valid() && View() == Next(l, DoFinish(o)).reg && jobs.Values <= old(jobs.Values)
      ensures forall k :: k in old(jobs) ==> old(jobs)[k].View() == Written(l.reg, DoFinish(o), k)
    {
      ghost var known := jobs;
      KnownOrNew(l, DoFinish(o));
      assert forall k :: k in known ==> l.reg.jobs[k] == known[k].View() && known[k].id == k;
      RecordOutcome(jobs[worker.job], o);
    }

    method MoveWorker(w: Worker)
      requires Valid()
      modifies this`worker
      ensures Valid() && View() == old(View()).(worker := w)
    {
      ghost var r := View();
      worker := w;
      assert View().jobs == r.jobs;
    }

    /** Any number of threads, interleaved in any way at the lock: the object goes through the very states of
        the step relation. */
    method Interleave(acts: seq<Action>, ghost l: Logged)
      requires Valid() && Inv(l) && CanRun(l, acts) && View() == l.reg
      modifies this, jobs.Values
      ensures Valid() && View() == Run(l, acts).reg
    {
      ghost var m := l;
      var i := 0;
      assert acts[0..] == acts;
      while i < |acts|
        invariant 0 <= i <= |acts|
        invariant Valid() && Inv(m) && View() == m.reg
        invariant CanRun(m, acts[i..]) && Run(m, acts[i..]) == Run(l, acts)
        invariant fresh(jobs.Values - old(jobs.Values))
      {
        assert acts[i..][0] == acts[i] && acts[i..][1..] == acts[i + 1..];
        Step(acts[i], m);
        NextKeeps(m, acts[i]);
        m := Next(m, acts[i]);
        i := i + 1;
      }
    }

    /** Once around the worker loop: a turn, and the job if there is one. */
    method OnePass(run: Json -> Outcome)
      requires Valid() && worker == AtLock && stop
      modifies this, jobs.Values
      ensures Valid() && View() == PassOver(old(View()), run)
      ensures jobs.Values <= old(jobs.Values)
    {
      var job := WorkerTurn();
      if job != null {
        RunTaken(job, run);
      }
    }

    /** The worker loop after a shutdown, with no other thread left to interfere. */
    method RunLoop(run: Json -> Outcome)
      requires Valid() && worker == AtLock && stop
      modifies this, jobs.Values
      ensures Valid() && View() == Drain(old(View()), run)
    {
      while worker != Leaving
        invariant Valid() && stop && (worker == AtLock || worker == Leaving)
        invariant jobs.Values <= old(jobs.Values)
        invariant Drain(old(View()), run) == if worker == Leaving then View() else Drain(View(), run)
        decreases worker == AtLock, |queue|
      {
        PassOverEffect(View(), run);
        OnePass(run);
      }
    }
  }

  lemma RemoveOneOn(q: seq<JobId>, i: nat, id: JobId)
    requires i < |q| && q[i] != id
    ensures q[..i] + Remove(q[i..], id) == q[..i + 1] + Remove(q[i + 1..], id)
  {
    assert q[i..][1..] == q[i + 1..];
    assert q[..i + 1] == q[..i] + [q[i]];
  }

  // --- the drain as a function of the registry ----------------------------------------------------

  /** A turn, and the end of the job if the turn took one. */
  function PassOver(r: Registry, run: Json -> Outcome): Registry
    requires r.worker == AtLock
  {
    var t := Turn(r);
    if t.worker.Busy? then Finish(t, run(t.jobs[t.worker.job].payload)) else t
  }

  lemma PassOverEffect(r: Registry, run: Json -> Outcome)
    requires r.worker == AtLock && r.stop
    ensures var p := PassOver(r, run);
      && p.stop && (p.worker == Leaving || (p.worker == AtLock && |p.queue| < |r.queue|))
  {
  }

  /** Passes until the loop returns. */
  function Drain(r: Registry, run: Json -> Outcome): Registry
    requires r.worker == AtLock && r.stop
    decreases |r.queue|
  {
    PassOverEffect(r, run);
    var p := PassOver(r, run);
    if p.worker == Leaving then p else Drain(p, run)
  }

  /** The state after one job of the queue has been taken and finished. */
  lemma TakeAndFinish(l: Logged, o: Outcome)
    requires Inv(l) && l.reg.worker == AtLock && l.reg.queue != []
    ensures var t := Next(l, DoTurn);
      && t.reg.worker == Busy(l.reg.queue[0]) && t.reg.worker.job in t.reg.jobs
      && var f := Next(t, DoFinish(o));
         && Inv(f) && f.reg.worker == AtLock && f.reg.stop == l.reg.stop
         && f.reg.queue == l.reg.queue[1..]
         && f.started == l.started + [l.reg.queue[0]]
         && f.finished == l.finished + [l.reg.queue[0]]
  {
    NextKeeps(l, DoTurn);
    TurnAlwaysStarts(l);
    NextKeeps(Next(l, DoTurn), DoFinish(o));
  }

  predicate Draining(l: Logged) {
    l.reg.worker == AtLock && l.reg.stop
  }

  /** How `run` ends for the job at the head of the queue. */
  ghost function HeadOutcome(l: Logged, run: Json -> Outcome): Outcome
    requires Inv(l) && Draining(l) && l.reg.queue != []
  {
    TakeAndFinish(l, WasCancelled);
    var t := Next(l, DoTurn).reg;
    run(t.jobs[t.worker.job].payload)
  }

  /** The registry after that job. */
  ghost function AfterHead(l: Logged, run: Json -> Outcome): (f: Logged)
    requires Inv(l) && Draining(l) && l.reg.queue != []
    ensures Inv(f) && Draining(f)
    ensures f.reg.queue == l.reg.queue[1..]
    ensures f.started == l.started + [l.reg.queue[0]] && f.finished == l.finished + [l.reg.queue[0]]
  {
    var o := HeadOutcome(l, run);
    TakeAndFinish(l, o);
    Next(Next(l, DoTurn), DoFinish(o))
  }

  ghost function DrainRun(l: Logged, run: Json -> Outcome): seq<Action>
    requires Inv(l) && Draining(l)
    decreases |l.reg.queue|
  {
    if l.reg.queue == [] then [DoTurn]
    else [DoTurn] + ([DoFinish(HeadOutcome(l, run))] + DrainRun(AfterHead(l, run), run))
  }

  lemma DrainStep(l: Logged, run: Json -> Outcome)
    requires Inv(l) && Draining(l) && l.reg.queue != []
    ensures Drain(l.reg, run) == Drain(AfterHead(l, run).reg, run)
  {
    var o := HeadOutcome(l, run);
    TakeAndFinish(l, o);
    DrainUnfolds(l.reg, run);
    NextRegistry(l, DoTurn);
    NextRegistry(Next(l, DoTurn), DoFinish(o));
  }

  lemma DrainUnfolds(r: Registry, run: Json -> Outcome)
    requires r.worker == AtLock && r.stop && Turn(r).worker.Busy? && Turn(r).worker.job in Turn(r).jobs
    ensures var f := Finish(Turn(r), run(Turn(r).jobs[Turn(r).worker.job].payload));
      f.worker == AtLock && f.stop && Drain(r, run) == Drain(f, run)
  {
    PassOverEffect(r, run);
  }

  lemma NextRegistry(l: Logged, a: Action)
    requires Enabled(l, a)
    ensures a.DoTurn? ==> Next(l, a).reg == Turn(l.reg)
    ensures a.DoFinish? ==> Next(l, a).reg == Finish(l.reg, a.outcome)
  {
  }

  /** Draining is a run of the step relation. */
  lemma {:induction false} DrainIsARun(l: Logged, run: Json -> Outcome)
    requires Inv(l) && Draining(l)
    ensures CanRun(l, DrainRun(l, run)) && Run(l, DrainRun(l, run)).reg == Drain(l.reg, run)
    decreases |l.reg.queue|
  {
    if l.reg.queue == [] {
      RunStep(l, DoTurn, []);
      assert DrainRun(l, run) == [DoTurn] + [];
    } else {
      var o, f := HeadOutcome(l, run), AfterHead(l, run);
      DrainStep(l, run);
      DrainIsARun(f, run);
      TakeAndFinish(l, o);
      RunTwoSteps(l, DoTurn, DoFinish(o), DrainRun(f, run));
    }
  }

  /** It takes the jobs of the queue in order and finishes each. */
  lemma {:induction false} DrainHistory(l: Logged, run: Json -> Outcome)
    requires Inv(l) && Draining(l) && CanRun(l, DrainRun(l, run))
    ensures var l' := Run(l, DrainRun(l, run));
      && l'.started == l.started + l.reg.queue && l'.finished == l.finished + l.reg.queue
      && l'.reg.queue == [] && l'.reg.worker == Leaving
    decreases |l.reg.queue|
  {
    if l.reg.queue == [] {
      RunStep(l, DoTurn, []);
      assert DrainRun(l, run) == [DoTurn] + [];
    } else {
      var o, f := HeadOutcome(l, run), AfterHead(l, run);
      DrainIsARun(f, run);
      DrainHistory(f, run);
      TakeAndFinish(l, o);
      RunTwoSteps(l, DoTurn, DoFinish(o), DrainRun(f, run));
      FrontAndRest(l.started, l.reg.queue);
      FrontAndRest(l.finished, l.reg.queue);
    }
  }

  /** Draining is a run of the step relation that serves the whole queue in order and leaves the
      worker gone from its loop with every submitted job terminal. */
  lemma DrainServesTheQueue(l: Logged, run: Json -> Outcome)
    requires Inv(l) && Draining(l)
    ensures var acts := DrainRun(l, run);
      && CanRun(l, acts)
      && var l' := Run(l, acts);
         && l'.reg == Drain(l.reg, run)
         && l'.started == l.started + l.reg.queue
         && l'.finished == l.finished + l.reg.queue
         && l'.reg.queue == [] && l'.reg.worker == Leaving
  {
    DrainIsARun(l, run);
    DrainHistory(l, run);
  }

  lemma FrontAndRest<T>(s: seq<T>, q: seq<T>)
    requires q != []
    ensures s + [q[0]] + q[1..] == s + q
  {
  }

  lemma RunTwoSteps(l: Logged, a: Action, b: Action, rest: seq<Action>)
    requires Enabled(l, a) && Enabled(Next(l, a), b) && CanRun(Next(Next(l, a), b), rest)
    ensures CanRun(l, [a] + ([b] + rest))
    ensures Run(l, [a] + ([b] + rest)) == Run(Next(Next(l, a), b), rest)
  {
    RunStep(Next(l, a), b, rest);
    RunStep(l, a, [b] + rest);
  }
}
