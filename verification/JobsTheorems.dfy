/** What the job registry keeps, over every interleaving of its atomic steps. */
module JobsTheorems {
  import opened Common
  import opened Jobs

  lemma KnownIsSubmitted(l: Logged, id: JobId)
    requires Inv(l) && id in l.reg.jobs
    ensures id in l.submitted
  {
    RetainedAreFinished(l);
  }

  // --- every step keeps the invariant -----------------------------------------------------------

  lemma InvInit(maxCompleted: nat)
    ensures Inv(Init(maxCompleted))
  {
  }

  lemma RetainedAreFinished(l: Logged)
    requires HistoryOk(l)
    ensures forall x :: x in l.reg.completedOrder ==> x in l.finished
  {
  }

  lemma NoDupAppend<T(!new)>(s: seq<T>, x: T)
    requires NoDup(s) && x !in s
    ensures NoDup(s + [x])
  {
  }

  lemma SubmitKeepsJobs(l: Logged, id: JobId, payload: Json)
    requires Inv(l) && id !in l.submitted
    ensures JobsOk(Submit(l.reg, id, payload))
  {
    RetainedAreFinished(l);
  }

  lemma SubmitKeepsHistory(l: Logged, id: JobId, payload: Json)
    requires Inv(l) && id !in l.submitted
    ensures HistoryOk(Next(l, DoSubmit(id, payload)))
  {
    NoDupAppend(l.submitted, id);
    WithoutAppend(l.submitted, id, l.dropped);
    assert l.started + l.reg.queue + [id] == l.started + (l.reg.queue + [id]);
  }

  /** The common part of every step that makes a job terminal. */
  lemma RetainKeepsJobs(r: Registry, id: JobId, log: seq<JobId>)
    requires r.completedOrder == Last(log, r.maxCompleted)
    requires NoDup(log + [id])
    requires forall x :: x in r.jobs <==> x in r.queue || Running(r, x) || x in r.completedOrder + [id]
    requires forall x :: x in r.jobs ==> r.jobs[x].id == x
    requires forall x :: x in r.queue ==> x in r.jobs && Waiting(r.jobs[x])
    requires forall x :: Running(r, x) ==>
      x in r.jobs && r.jobs[x].status == IN_PROGRESS && r.jobs[x].output == None && r.jobs[x].error == None
    requires forall x :: x in r.completedOrder + [id] ==> x in r.jobs && Closed(r.jobs[x])
    ensures JobsOk(Retain(r, id))
    ensures Retain(r, id).completedOrder == Last(log + [id], r.maxCompleted)
  {
    RetainEffect(r, id, log);
  }

  /** What canceling a queued job does to the queue and to the histories. */
  lemma DropEffect(l: Logged, id: JobId)
    requires HistoryOk(l) && id in l.reg.queue
    ensures var q := Remove(l.reg.queue, id);
      && (forall x :: x in q <==> x in l.reg.queue && x != id)
      && Without(l.submitted, l.dropped + {id}) == l.started + q
  {
    QueueNoDup(l);
    RemoveIsWithout(l.reg.queue, id);
    forall x
      ensures x in Remove(l.reg.queue, id) <==> x in l.reg.queue && x != id
    {
      WithoutMember(l.reg.queue, {id}, x);
    }
    WithoutOneMore(l.submitted, l.dropped, id);
    WithoutConcat(l.started, l.reg.queue, {id});
    StartedNotQueued(l, id);
    WithoutAbsent(l.started, id);
  }

  lemma CancelKeeps(l: Logged, id: JobId)
    requires Inv(l)
    ensures Inv(Next(l, DoCancel(id)))
  {
    if id in l.reg.jobs && l.reg.jobs[id].status == IN_QUEUE {
      CancelQueuedKeepsJobs(l, id);
      CancelQueuedKeepsHistory(l, id);
    } else {
      FlagKeeps(l, id);
    }
  }

  lemma FlagKeeps(l: Logged, id: JobId)
    requires Inv(l) && !(id in l.reg.jobs && l.reg.jobs[id].status == IN_QUEUE)
    ensures Inv(Next(l, DoCancel(id)))
  {
    FlagKeepsJobs(l.reg, id);
  }

  lemma FlagKeepsJobs(r: Registry, id: JobId)
    requires JobsOk(r) && !(id in r.jobs && r.jobs[id].status == IN_QUEUE)
    ensures JobsOk(Cancel(r, id))
    ensures Cancel(r, id) == r.(jobs := Cancel(r, id).jobs)
  {
  }

  function EarlyCanceled(r: Registry, id: JobId): Registry
    requires id in r.jobs
  {
    r.(jobs := r.jobs[id := r.jobs[id].(status := FAILED, error := Some(CANCELED_EARLY))],
       queue := Remove(r.queue, id))
  }

  lemma CancelQueuedKeepsJobs(l: Logged, id: JobId)
    requires Inv(l) && id in l.reg.jobs && l.reg.jobs[id].status == IN_QUEUE
    ensures JobsOk(Cancel(l.reg, id)) && id in l.reg.queue
    ensures Cancel(l.reg, id).completedOrder == Last(l.finished + [id], l.reg.maxCompleted)
  {
    RetainedAreFinished(l);
    assert id in l.reg.queue;
    DropEffect(l, id);
    NoDupAppend(l.finished, id);
    RetainKeepsJobs(EarlyCanceled(l.reg, id), id, l.finished);
  }

  lemma CancelQueuedKeepsHistory(l: Logged, id: JobId)
    requires Inv(l) && id in l.reg.jobs && l.reg.jobs[id].status == IN_QUEUE
    ensures HistoryOk(Next(l, DoCancel(id)))
  {
    CancelQueuedKeepsJobs(l, id);
    assert !Running(l.reg, id);
    DroppedHistory(l, id, Cancel(l.reg, id));
  }

  /** Whatever became of the records, a job that left the queue early is accounted for. */
  lemma DroppedHistory(l: Logged, id: JobId, r: Registry)
    requires HistoryOk(l) && id in l.reg.queue && !Running(l.reg, id)
    requires r.queue == Remove(l.reg.queue, id) && r.worker == l.reg.worker && r.maxCompleted == l.reg.maxCompleted
    requires r.completedOrder == Last(l.finished + [id], r.maxCompleted)
    ensures HistoryOk(l.(reg := r, finished := l.finished + [id], dropped := l.dropped + {id}))
  {
    DropEffect(l, id);
    NoDupAppend(l.finished, id);
  }

  lemma QueueNoDup(l: Logged)
    requires HistoryOk(l)
    ensures NoDup(l.started + l.reg.queue) && NoDup(l.reg.queue) && NoDup(l.started)
  {
    WithoutNoDup(l.submitted, l.dropped);
    var all := l.started + l.reg.queue;
    assert l.reg.queue == all[|l.started|..] && l.started == all[..|l.started|];
  }

  lemma StartedNotQueued(l: Logged, id: JobId)
    requires HistoryOk(l) && id in l.reg.queue
    ensures id !in l.started
  {
    QueueNoDup(l);
    var all := l.started + l.reg.queue;
    var j :| 0 <= j < |l.reg.queue| && l.reg.queue[j] == id;
    assert all[|l.started| + j] == id;
    assert forall i :: 0 <= i < |l.started| ==> all[i] == l.started[i];
  }

  /** Under the invariant the popped job is always a waiting, unflagged one. */
  lemma TurnAlwaysStarts(l: Logged)
    requires Inv(l) && l.reg.worker == AtLock && l.reg.queue != []
    ensures var id := l.reg.queue[0];
      && id in l.reg.jobs && l.reg.jobs[id].status == IN_QUEUE && !l.reg.jobs[id].cancel
      && Turn(l.reg).worker == Busy(id)
      && Next(l, DoTurn).started == l.started + [id]
  {
    assert l.reg.queue[0] in l.reg.queue;
  }

  lemma PopEffect(l: Logged)
    requires Inv(l) && l.reg.queue != []
    ensures var id, rest := l.reg.queue[0], l.reg.queue[1..];
      id !in rest && forall x :: x in l.reg.queue <==> x == id || x in rest
  {
    QueueNoDup(l);
    assert l.reg.queue == [l.reg.queue[0]] + l.reg.queue[1..];
  }

  /** What a turn does to a queue that is not empty. */
  lemma TurnEffect(l: Logged)
    requires Inv(l) && l.reg.worker == AtLock && l.reg.queue != []
    ensures var r, id := l.reg, l.reg.queue[0];
      && id in r.jobs && Waiting(r.jobs[id])
      && Turn(r) == r.(queue := r.queue[1..], jobs := r.jobs[id := r.jobs[id].(status := IN_PROGRESS)],
                       worker := Busy(id))
      && Next(l, DoTurn) == l.(reg := Turn(r), started := l.started + [id])
  {
    TurnAlwaysStarts(l);
  }

  lemma TurnKeepsJobs(l: Logged)
    requires Inv(l) && l.reg.worker == AtLock
    ensures JobsOk(Turn(l.reg))
  {
    if l.reg.queue != [] {
      TurnEffect(l);
      PopEffect(l);
      QueueIsNotRetained(l);
      TakenKeepsJobs(l.reg, l.reg.queue[0], Turn(l.reg));
    }
  }

  lemma QueueIsNotRetained(l: Logged)
    requires HistoryOk(l)
    ensures forall id :: id in l.reg.queue ==> id !in l.reg.completedOrder
  {
    RetainedAreFinished(l);
  }

  lemma TakenKeepsJobs(r: Registry, id: JobId, t: Registry)
    requires JobsOk(r) && r.worker == AtLock
    requires id in r.jobs && Waiting(r.jobs[id]) && id !in r.completedOrder && id !in t.queue
    requires forall x :: x in r.queue <==> x == id || x in t.queue
    requires t.jobs == r.jobs[id := r.jobs[id].(status := IN_PROGRESS)]
    requires t.worker == Busy(id) && t.completedOrder == r.completedOrder
    ensures JobsOk(t)
  {
  }

  lemma TurnKeepsHistory(l: Logged)
    requires Inv(l) && l.reg.worker == AtLock
    ensures HistoryOk(Next(l, DoTurn))
  {
    if l.reg.queue != [] {
      TurnEffect(l);
      PopEffect(l);
      TakenHistory(l, l.reg.queue[0], Turn(l.reg));
    }
  }

  lemma TakenHistory(l: Logged, id: JobId, t: Registry)
    requires HistoryOk(l) && l.reg.worker == AtLock && l.reg.queue == [id] + t.queue
    requires forall x :: x in l.reg.queue <==> x == id || x in t.queue
    requires id !in t.queue && t.worker == Busy(id)
    requires t.maxCompleted == l.reg.maxCompleted && t.completedOrder == l.reg.completedOrder
    ensures HistoryOk(l.(reg := t, started := l.started + [id]))
  {
    assert l.started + l.reg.queue == l.started + [id] + t.queue;
  }

  lemma FinishKeepsJobs(l: Logged, o: Outcome)
    requires Inv(l) && l.reg.worker.Busy?
    ensures JobsOk(Finish(l.reg, o))
    ensures Finish(l.reg, o).completedOrder == Last(l.finished + [l.reg.worker.job], l.reg.maxCompleted)
  {
    var r := l.reg;
    var id := r.worker.job;
    assert Running(r, id);
    RetainedAreFinished(l);
    NoDupAppend(l.finished, id);
    var settled := r.(jobs := r.jobs[id := Settled(r.jobs[id], o)], worker := AtLock);
    RetainKeepsJobs(settled, id, l.finished);
    assert Finish(r, o) == Retain(settled, id);
  }

  lemma FinishKeepsHistory(l: Logged, o: Outcome)
    requires Inv(l) && l.reg.worker.Busy?
    ensures HistoryOk(Next(l, DoFinish(o)))
  {
    FinishKeepsJobs(l, o);
    FinishFields(l.reg, o);
    NextFinish(l, o);
    RunningIsNotQueued(l.reg);
    FinishedHistory(l, Finish(l.reg, o));
  }

  lemma NextFinish(l: Logged, o: Outcome)
    requires l.reg.worker.Busy?
    ensures Next(l, DoFinish(o)) == l.(reg := Finish(l.reg, o), finished := l.finished + [l.reg.worker.job])
  {
  }

  lemma FinishFields(r: Registry, o: Outcome)
    requires r.worker.Busy?
    ensures var f := Finish(r, o);
      f.queue == r.queue && f.worker == AtLock && f.maxCompleted == r.maxCompleted && f.stop == r.stop
  {
  }

  lemma RunningIsNotQueued(r: Registry)
    requires JobsOk(r) && r.worker.Busy?
    ensures r.worker.job !in r.queue
  {
    assert Running(r, r.worker.job);
  }

  lemma FinishedHistory(l: Logged, r: Registry)
    requires HistoryOk(l) && l.reg.worker.Busy? && l.reg.worker.job !in l.reg.queue
    requires r.queue == l.reg.queue && r.worker == AtLock && r.maxCompleted == l.reg.maxCompleted
    requires r.completedOrder == Last(l.finished + [l.reg.worker.job], r.maxCompleted)
    ensures HistoryOk(l.(reg := r, finished := l.finished + [l.reg.worker.job]))
  {
    assert Running(l.reg, l.reg.worker.job);
    NoDupAppend(l.finished, l.reg.worker.job);
  }

  lemma WorkerKeeps(l: Logged, a: Action)
    requires Inv(l) && Enabled(l, a)
    ensures WorkerOk(Next(l, a).reg)
  {
    match a
    case DoCancel(id) => CancelKeepsWorker(l.reg, id);
    case DoTurn => TurnKeepsWorker(l);
    case _ =>
  }

  lemma {:induction false} RemoveFromNothing(q: seq<JobId>, id: JobId)
    ensures q == [] ==> Remove(q, id) == []
  {
  }

  lemma CancelKeepsWorker(r: Registry, id: JobId)
    requires WorkerOk(r)
    ensures WorkerOk(Cancel(r, id))
  {
    RemoveFromNothing(r.queue, id);
  }

  lemma TurnKeepsWorker(l: Logged)
    requires Inv(l) && l.reg.worker == AtLock
    ensures WorkerOk(Turn(l.reg))
  {
    if l.reg.queue != [] {
      TurnAlwaysStarts(l);
    }
  }

  lemma OthersKeepJobs(l: Logged, a: Action)
    requires JobsOk(l.reg) && Enabled(l, a) && (a.DoShutdown? || a.DoWake? || a.DoExit?)
    ensures JobsOk(Next(l, a).reg)
  {
    var r, t := l.reg, Next(l, a).reg;
    assert t.jobs == r.jobs && t.queue == r.queue && t.completedOrder == r.completedOrder;
    assert forall id :: Running(t, id) <==> Running(r, id);
  }

  lemma StepKeepsJobs(l: Logged, a: Action)
    requires Inv(l) && Enabled(l, a)
    ensures JobsOk(Next(l, a).reg)
  {
    match a
    case DoSubmit(id, payload) => SubmitKeepsJobs(l, id, payload);
    case DoCancel(id) => CancelKeeps(l, id);
    case DoTurn => TurnKeepsJobs(l);
    case DoFinish(o) => FinishKeepsJobs(l, o);
    case _ => OthersKeepJobs(l, a);
  }

  lemma StepKeepsHistory(l: Logged, a: Action)
    requires Inv(l) && Enabled(l, a)
    ensures HistoryOk(Next(l, a))
  {
    match a
    case DoSubmit(id, payload) => SubmitKeepsHistory(l, id, payload);
    case DoCancel(id) => CancelKeeps(l, id);
    case DoTurn => TurnKeepsHistory(l);
    case DoFinish(o) => FinishKeepsHistory(l, o);
    case _ =>
  }

  lemma NextKeeps(l: Logged, a: Action)
    requires Inv(l) && Enabled(l, a)
    ensures Inv(Next(l, a))
  {
    WorkerKeeps(l, a);
    StepKeepsJobs(l, a);
    StepKeepsHistory(l, a);
  }

  lemma {:induction false} RunKeeps(l: Logged, acts: seq<Action>)
    requires Inv(l) && CanRun(l, acts)
    ensures Inv(Run(l, acts))
    decreases |acts|
  {
    if acts != [] {
      NextKeeps(l, acts[0]);
      RunKeeps(Next(l, acts[0]), acts[1..]);
    }
  }

  // --- the map, the queue and the retention deque agree ------------------------------------------

  function RunningCount(r: Registry): nat {
    if r.worker.Busy? then 1 else 0
  }

  function RunningIds(r: Registry): set<JobId> {
    if r.worker.Busy? then {r.worker.job} else {}
  }

  function Elems<T>(s: seq<T>): set<T> {
    set x | x in s
  }

  /** In every reachable state the job map splits exactly into queued, running and retained ids, and
      every id ever submitted is queued, running, retained or evicted, in exactly one of these ways. */
  lemma JobMapPartition(maxCompleted: nat, acts: seq<Action>)
    requires CanRun(Init(maxCompleted), acts)
    ensures var l := Run(Init(maxCompleted), acts);
      var r, evicted := l.reg, Older(l.finished, maxCompleted);
      && r.jobs.Keys == Elems(r.queue) + RunningIds(r) + Elems(r.completedOrder)
      && (forall id :: id in r.queue ==> r.jobs[id].status == IN_QUEUE)
      && (forall id :: id in RunningIds(r) ==> r.jobs[id].status == IN_PROGRESS)
      && (forall id :: id in r.completedOrder ==> Closed(r.jobs[id]))
      && |r.jobs| == |r.queue| + RunningCount(r) + |r.completedOrder|
      && |l.submitted| == |r.queue| + RunningCount(r) + |r.completedOrder| + |evicted|
  {
    InvInit(maxCompleted);
    RunKeeps(Init(maxCompleted), acts);
    MaxIsFixed(Init(maxCompleted), acts);
    var l := Run(Init(maxCompleted), acts);
    assert JobsOk(l.reg);
    assert forall id :: id in RunningIds(l.reg) ==> Running(l.reg, id);
    PartsAreDisjoint(l);
    CountJobs(l);
  }

  lemma {:induction false} MaxIsFixed(l: Logged, acts: seq<Action>)
    requires CanRun(l, acts)
    ensures Run(l, acts).reg.maxCompleted == l.reg.maxCompleted
    decreases |acts|
  {
    if acts != [] {
      MaxIsFixed(Next(l, acts[0]), acts[1..]);
    }
  }

  lemma DisjointCard<T>(a: set<T>, b: set<T>, c: set<T>)
    requires a !! b && a !! c && b !! c
    ensures |a + b + c| == |a| + |b| + |c|
  {
  }

  /** The parts of the job map, and of the submission log, do not overlap. */
  lemma PartsAreDisjoint(l: Logged)
    requires Inv(l)
    ensures var r := l.reg;
      && r.jobs.Keys == Elems(r.queue) + RunningIds(r) + Elems(r.completedOrder)
      && Elems(l.submitted) == Elems(r.queue) + RunningIds(r) + Elems(l.finished)
      && Elems(r.queue) !! RunningIds(r) !! Elems(l.finished)
      && Elems(r.completedOrder) <= Elems(l.finished)
  {
    assert forall id :: id in RunningIds(l.reg) <==> Running(l.reg, id);
  }

  lemma CountKnown(l: Logged)
    requires Inv(l)
    ensures |l.reg.jobs| == |l.reg.queue| + RunningCount(l.reg) + |l.reg.completedOrder|
  {
    var r := l.reg;
    PartsAreDisjoint(l);
    PartSizes(l);
    DisjointCard(Elems(r.queue), RunningIds(r), Elems(r.completedOrder));
    assert |r.jobs| == |r.jobs.Keys|;
  }

  lemma CountSubmitted(l: Logged)
    requires Inv(l)
    ensures |l.submitted| == |l.reg.queue| + RunningCount(l.reg) + |l.finished|
  {
    var r := l.reg;
    PartsAreDisjoint(l);
    PartSizes(l);
    DisjointCard(Elems(r.queue), RunningIds(r), Elems(l.finished));
  }

  lemma CountJobs(l: Logged)
    requires Inv(l)
    ensures var r := l.reg;
      && |r.jobs| == |r.queue| + RunningCount(r) + |r.completedOrder|
      && |l.submitted| == |r.queue| + RunningCount(r) + |r.completedOrder| + |Older(l.finished, r.maxCompleted)|
  {
    CountKnown(l);
    CountSubmitted(l);
    CountFinished(l);
  }

  lemma CountFinished(l: Logged)
    requires HistoryOk(l)
    ensures |l.finished| == |l.reg.completedOrder| + |Older(l.finished, l.reg.maxCompleted)|
  {
    OlderAndLast(l.finished, l.reg.maxCompleted);
  }

  lemma OlderAndLast<T>(s: seq<T>, n: nat)
    ensures |s| == |Last(s, n)| + |Older(s, n)|
  {
  }

  lemma PartSizes(l: Logged)
    requires HistoryOk(l)
    ensures |Elems(l.reg.queue)| == |l.reg.queue|
    ensures |RunningIds(l.reg)| == RunningCount(l.reg)
    ensures |Elems(l.reg.completedOrder)| == |l.reg.completedOrder|
    ensures |Elems(l.finished)| == |l.finished|
    ensures |Elems(l.submitted)| == |l.submitted|
  {
    QueueNoDup(l);
    NoDupCard(l.reg.queue);
    NoDupCard(l.finished);
    NoDupCard(l.submitted);
    NoDupLast(l.finished, l.reg.maxCompleted);
    NoDupCard(l.reg.completedOrder);
  }

  lemma NoDupLast<T(!new)>(s: seq<T>, n: nat)
    requires NoDup(s)
    ensures NoDup(Last(s, n))
  {
    var k := |s| - |Last(s, n)|;
    assert forall i :: 0 <= i < |Last(s, n)| ==> Last(s, n)[i] == s[k + i];
  }

  /** Bounded retention is a window on the unbounded finish log: the deque holds the newest
      `maxCompleted` ids that became terminal, in finish order, and a lookup misses exactly the ids
      never submitted and the terminal ids that have left the window. */
  lemma RetentionWindow(maxCompleted: nat, acts: seq<Action>, id: JobId)
    requires CanRun(Init(maxCompleted), acts)
    ensures var l := Run(Init(maxCompleted), acts);
      && l.reg.completedOrder == Last(l.finished, maxCompleted)
      && (id !in l.reg.jobs <==> id !in l.submitted || id in Older(l.finished, maxCompleted))
  {
    InvInit(maxCompleted);
    RunKeeps(Init(maxCompleted), acts);
    MaxIsFixed(Init(maxCompleted), acts);
    NoDupSplit(Run(Init(maxCompleted), acts).finished, maxCompleted);
  }

  /** First in, first out: the submissions that were not canceled before their start are, in order,
      the jobs already started followed by the jobs still queued. No job starts twice. */
  lemma FifoService(maxCompleted: nat, acts: seq<Action>)
    requires CanRun(Init(maxCompleted), acts)
    ensures var l := Run(Init(maxCompleted), acts);
      && Without(l.submitted, l.dropped) == l.started + l.reg.queue
      && NoDup(l.started + l.reg.queue)
  {
    InvInit(maxCompleted);
    RunKeeps(Init(maxCompleted), acts);
    QueueNoDup(Run(Init(maxCompleted), acts));
  }

  // --- the life of one job -----------------------------------------------------------------------

  function Rank(s: Status): nat {
    match s case IN_QUEUE => 0 case IN_PROGRESS => 1 case COMPLETED => 2 case FAILED => 2
  }

  /** `b` is a later record of the job recorded by `a`. */
  predicate LaterRecord(a: Job, b: Job) {
    && b.id == a.id && b.payload == a.payload
    && Rank(a.status) <= Rank(b.status)
    && (a.cancel ==> b.cancel)
    && (Terminal(a) ==> b == a)
  }

  lemma HistoriesGrow(l: Logged, a: Action, id: JobId)
    requires Enabled(l, a)
    ensures var l' := Next(l, a);
      && (id in l.submitted ==> id in l'.submitted)
      && (id in l.finished ==> id in l'.finished)
      && (id in l.dropped ==> id in l'.dropped)
  {
  }

  lemma StepAdvances(l: Logged, a: Action, id: JobId)
    requires Inv(l) && Enabled(l, a) && id in l.submitted
    requires id in Next(l, a).reg.jobs
    ensures id in l.reg.jobs && LaterRecord(l.reg.jobs[id], Next(l, a).reg.jobs[id])
  {
    match a
    case DoCancel(x) =>
      EvictOnlyRemoves(l.reg, x);
    case DoTurn =>
      if l.reg.queue != [] {
        TurnAlwaysStarts(l);
      }
    case DoFinish(o) =>
      FinishAdvances(l, o, id);
    case _ =>
  }

  lemma FinishAdvances(l: Logged, o: Outcome, id: JobId)
    requires Inv(l) && l.reg.worker.Busy?
    requires id in Finish(l.reg, o).jobs
    ensures id in l.reg.jobs && LaterRecord(l.reg.jobs[id], Finish(l.reg, o).jobs[id])
  {
    var x := l.reg.worker.job;
    assert Running(l.reg, x);
    EvictKeepsNewest(l.reg.jobs[x := Settled(l.reg.jobs[x], o)], l.reg.completedOrder + [x], l.reg.maxCompleted);
  }

  function CanceledRecord(j: Job): Job {
    match j.status
    case IN_QUEUE => j.(status := FAILED, error := Some(CANCELED_EARLY))
    case IN_PROGRESS => j.(cancel := true)
    case COMPLETED => j
    case FAILED => j
  }

  lemma EvictOnlyRemoves(r: Registry, x: JobId)
    ensures forall id :: id in Cancel(r, x).jobs ==>
      id in r.jobs && (id != x ==> Cancel(r, x).jobs[id] == r.jobs[id])
    ensures x in Cancel(r, x).jobs ==> Cancel(r, x).jobs[x] == CanceledRecord(r.jobs[x])
  {
    if x in r.jobs && r.jobs[x].status == IN_QUEUE {
      EvictKeepsNewest(r.jobs[x := r.jobs[x].(status := FAILED, error := Some(CANCELED_EARLY))],
                       r.completedOrder + [x], r.maxCompleted);
    }
  }

  lemma LaterTransitive(a: Job, b: Job, c: Job)
    requires LaterRecord(a, b) && LaterRecord(b, c)
    ensures LaterRecord(a, c)
  {
  }

  /** Between any two moments of a run a job only moves forward, keeps its payload and its cancel
      flag, and never changes again once terminal; a forgotten job never comes back. */
  lemma {:induction false} LifecycleIsMonotone(l: Logged, acts: seq<Action>, id: JobId)
    requires Inv(l) && CanRun(l, acts) && id in l.submitted
    ensures var l' := Run(l, acts);
      && id in l'.submitted
      && (id in l'.reg.jobs ==> id in l.reg.jobs && LaterRecord(l.reg.jobs[id], l'.reg.jobs[id]))
      && (id in l.finished ==> id in l'.finished)
      && (id in l.dropped ==> id in l'.dropped)
    decreases |acts|
  {
    if acts != [] {
      var m := Next(l, acts[0]);
      HistoriesGrow(l, acts[0], id);
      if id in m.reg.jobs {
        StepAdvances(l, acts[0], id);
      }
      NextKeeps(l, acts[0]);
      LifecycleIsMonotone(m, acts[1..], id);
      if id in Run(m, acts[1..]).reg.jobs {
        LaterTransitive(l.reg.jobs[id], m.reg.jobs[id], Run(m, acts[1..]).reg.jobs[id]);
      }
    }
  }

  /** Whatever a client submitted under an id is what the registry holds, and hands to `run_fn`, under it. */
  lemma {:induction false} PayloadStays(l: Logged, acts: seq<Action>, id: JobId, payload: Json)
    requires Inv(l) && CanRun(l, acts) && DoSubmit(id, payload) in acts
    ensures id in Run(l, acts).reg.jobs ==> Run(l, acts).reg.jobs[id].payload == payload
    decreases |acts|
  {
    var m := Next(l, acts[0]);
    NextKeeps(l, acts[0]);
    if acts[0] == DoSubmit(id, payload) {
      assert m.reg.jobs[id].payload == payload && id in m.submitted;
      LifecycleIsMonotone(m, acts[1..], id);
    } else {
      PayloadStays(m, acts[1..], id, payload);
    }
  }

  lemma {:induction false} KnownOrSubmitted(l: Logged, acts: seq<Action>, id: JobId)
    requires Inv(l) && CanRun(l, acts) && id in Run(l, acts).reg.jobs
    ensures id in l.submitted || DoSubmit(id, Run(l, acts).reg.jobs[id].payload) in acts
    decreases |acts|
  {
    if acts == [] {
      KnownIsSubmitted(l, id);
    } else {
      var m := Next(l, acts[0]);
      NextKeeps(l, acts[0]);
      KnownOrSubmitted(m, acts[1..], id);
      if id in m.submitted && id !in l.submitted {
        assert acts[0].DoSubmit? && acts[0].id == id;
        PayloadStays(l, acts, id, acts[0].payload);
      }
    }
  }

  /** In every reachable registry a job has the one payload that was submitted under its id. */
  lemma PayloadWasSubmitted(maxCompleted: nat, acts: seq<Action>, id: JobId)
    requires CanRun(Init(maxCompleted), acts)
    ensures var r := Run(Init(maxCompleted), acts).reg;
      id in r.jobs ==>
        && DoSubmit(id, r.jobs[id].payload) in acts
        && forall p :: DoSubmit(id, p) in acts ==> p == r.jobs[id].payload
  {
    var l := Init(maxCompleted);
    InvInit(maxCompleted);
    if id in Run(l, acts).reg.jobs {
      KnownOrSubmitted(l, acts, id);
      forall p | DoSubmit(id, p) in acts
        ensures p == Run(l, acts).reg.jobs[id].payload
      {
        PayloadStays(l, acts, id, p);
      }
    }
  }

  // --- cancel ------------------------------------------------------------------------------------

  /** A job canceled while it is queued is failed on the spot and never passed to `run_fn`. */
  lemma CanceledEarlyNeverStarts(l: Logged, id: JobId, acts: seq<Action>)
    requires Inv(l) && id in l.reg.queue
    requires CanRun(Next(l, DoCancel(id)), acts)
    ensures id !in Run(Next(l, DoCancel(id)), acts).started
  {
    var m := Next(l, DoCancel(id));
    NextKeeps(l, DoCancel(id));
    LifecycleIsMonotone(m, acts, id);
    RunKeeps(m, acts);
    var l' := Run(m, acts);
    WithoutMember(l'.submitted, l'.dropped, id);
    assert id !in l'.started + l'.reg.queue;
  }

  /** A job canceled while it runs is seen as canceled by every later poll until it finishes. */
  lemma CanceledRunningStaysFlagged(l: Logged, id: JobId, acts: seq<Action>)
    requires Inv(l) && l.reg.worker == Busy(id)
    requires CanRun(Next(l, DoCancel(id)), acts)
    ensures Run(Next(l, DoCancel(id)), acts).reg.worker == Busy(id) ==>
      IsCancelled(Run(Next(l, DoCancel(id)), acts).reg, id)
  {
    assert Running(l.reg, id);
    var m := Next(l, DoCancel(id));
    NextKeeps(l, DoCancel(id));
    LifecycleIsMonotone(m, acts, id);
    RunKeeps(m, acts);
    if Run(m, acts).reg.worker == Busy(id) {
      assert Running(Run(m, acts).reg, id);
    }
  }

  /** Canceling twice is canceling once, in every registry state. */
  lemma CancelIsIdempotent(r: Registry, id: JobId)
    ensures Cancel(Cancel(r, id), id) == Cancel(r, id)
  {
    EvictOnlyRemoves(r, id);
  }

  // --- the condition variable and the worker thread -----------------------------------------------

  /** Somebody will look at the queue: it is empty, or the worker is in its loop and not asleep. */
  predicate Served(r: Registry) {
    r.queue == [] || r.worker == AtLock || r.worker.Busy?
  }

  /** No wakeup is lost: a worker left asleep has nothing to do and has not been told to stop. */
  lemma NoLostWakeup(maxCompleted: nat, acts: seq<Action>)
    requires CanRun(Init(maxCompleted), acts)
    ensures var r := Run(Init(maxCompleted), acts).reg;
      r.worker == Parked ==> r.queue == [] && !r.stop
  {
    InvInit(maxCompleted);
    RunKeeps(Init(maxCompleted), acts);
  }

  /** A submission is left without a worker exactly when it arrives between the return of the worker
      loop and the death of its thread: `_ensure_worker_locked` then trusts `is_alive()`. */
  lemma SubmitServedIff(l: Logged, id: JobId, payload: Json)
    requires Inv(l) && id !in l.submitted
    ensures Served(Submit(l.reg, id, payload)) <==> l.reg.worker != Leaving
  {
  }

  /** No other step takes the worker away from a non-empty queue. */
  lemma StepsKeepServed(l: Logged, a: Action)
    requires Inv(l) && Enabled(l, a) && !a.DoSubmit?
    requires Served(l.reg)
    ensures Served(Next(l, a).reg)
  {
    match a
    case DoCancel(id) =>
      if id in l.reg.jobs && l.reg.jobs[id].status == IN_QUEUE {
        DropEffect(l, id);
      }
    case DoTurn =>
      if l.reg.queue != [] {
        TurnAlwaysStarts(l);
      }
    case _ =>
  }

  /** Every submission of the run found the worker loop not yet returned, or its thread dead. */
  ghost predicate NoSubmitWhileLeaving(l: Logged, acts: seq<Action>)
    requires CanRun(l, acts)
    decreases |acts|
  {
    acts == [] || ((acts[0].DoSubmit? ==> l.reg.worker != Leaving) &&
                   NoSubmitWhileLeaving(Next(l, acts[0]), acts[1..]))
  }

  lemma {:induction false} RunsStayServed(l: Logged, acts: seq<Action>)
    requires Inv(l) && Served(l.reg) && CanRun(l, acts) && NoSubmitWhileLeaving(l, acts)
    ensures Served(Run(l, acts).reg)
    decreases |acts|
  {
    if acts != [] {
      NextKeeps(l, acts[0]);
      if acts[0].DoSubmit? {
        SubmitServedIff(l, acts[0].id, acts[0].payload);
      } else {
        StepsKeepServed(l, acts[0]);
      }
      RunsStayServed(Next(l, acts[0]), acts[1..]);
    }
  }

  lemma {:induction false} RunConcat(l: Logged, xs: seq<Action>, ys: seq<Action>)
    requires CanRun(l, xs) && CanRun(Run(l, xs), ys)
    ensures CanRun(l, xs + ys) && Run(l, xs + ys) == Run(Run(l, xs), ys)
    decreases |xs|
  {
    if xs == [] {
      assert xs + ys == ys;
    } else {
      assert (xs + ys)[1..] == xs[1..] + ys;
      RunConcat(Next(l, xs[0]), xs[1..], ys);
    }
  }

  lemma RunStep(l: Logged, a: Action, acts: seq<Action>)
    requires Enabled(l, a) && CanRun(Next(l, a), acts)
    ensures CanRun(l, [a] + acts) && Run(l, [a] + acts) == Run(Next(l, a), acts)
  {
    assert ([a] + acts)[1..] == acts;
  }

  /** One job runs to its end and the registry is told to stop. */
  lemma OneJobThenStop(a: JobId, payload: Json, o: Outcome) returns (acts: seq<Action>)
    ensures CanRun(Init(256), acts)
    ensures var l := Run(Init(256), acts);
      l.submitted == [a] && l.reg.queue == [] && l.reg.worker == AtLock && l.reg.stop
  {
    var s1 := Next(Init(256), DoSubmit(a, payload));
    var s2 := Next(s1, DoTurn);
    var s3 := Next(s2, DoFinish(o));
    RunStep(s3, DoShutdown, []);
    RunStep(s2, DoFinish(o), [DoShutdown]);
    RunStep(s1, DoTurn, [DoFinish(o)] + [DoShutdown]);
    RunStep(Init(256), DoSubmit(a, payload), [DoTurn] + ([DoFinish(o)] + [DoShutdown]));
    acts := [DoSubmit(a, payload)] + ([DoTurn] + ([DoFinish(o)] + [DoShutdown]));
  }

  predicate Stranded(r: Registry, id: JobId) {
    id in r.jobs && r.jobs[id].status == IN_QUEUE && r.worker == Gone
  }

  /** The failing case is reachable: a job submitted in that window is left queued with no thread. */
  lemma SubmitCanStrand(a: JobId, b: JobId, payload: Json, o: Outcome)
    requires a != b
    ensures exists acts :: CanRun(Init(256), acts) && Stranded(Run(Init(256), acts).reg, b)
  {
    var first := OneJobThenStop(a, payload, o);
    var l := Run(Init(256), first);
    var s1 := Next(l, DoTurn);
    var s2 := Next(s1, DoSubmit(b, payload));
    RunStep(s2, DoExit, []);
    RunStep(s1, DoSubmit(b, payload), [DoExit]);
    RunStep(l, DoTurn, [DoSubmit(b, payload)] + [DoExit]);
    RunConcat(Init(256), first, [DoTurn] + ([DoSubmit(b, payload)] + [DoExit]));
  }

  /** Only another submission (or a cancel) repairs it. */
  lemma {:induction false} StrandedUntilSubmit(l: Logged, acts: seq<Action>)
    requires Inv(l) && !Served(l.reg) && CanRun(l, acts)
    requires forall a :: a in acts ==> !a.DoSubmit? && !a.DoCancel?
    ensures !Served(Run(l, acts).reg) && Run(l, acts).reg.queue == l.reg.queue
    decreases |acts|
  {
    if acts != [] {
      NextKeeps(l, acts[0]);
      StrandedUntilSubmit(Next(l, acts[0]), acts[1..]);
    }
  }

  lemma StopStep(l: Logged, a: Action)
    requires Enabled(l, a)
    ensures Next(l, a).reg.stop <==> l.reg.stop || a == DoShutdown
  {
  }

  lemma {:induction false} StopIsKept(l: Logged, acts: seq<Action>)
    requires CanRun(l, acts)
    ensures Run(l, acts).reg.stop <==> l.reg.stop || DoShutdown in acts
    decreases |acts|
  {
    if acts != [] {
      StopStep(l, acts[0]);
      StopIsKept(Next(l, acts[0]), acts[1..]);
      assert acts == [acts[0]] + acts[1..];
    }
  }

  /** The registry is told to stop by a shutdown and by nothing else. */
  lemma StopsIff(maxCompleted: nat, acts: seq<Action>)
    requires CanRun(Init(maxCompleted), acts)
    ensures Run(Init(maxCompleted), acts).reg.stop <==> DoShutdown in acts
  {
    StopIsKept(Init(maxCompleted), acts);
  }

  // --- drain ---------------------------------------------------------------------------------------

  function Work(r: Registry): nat {
    2 * |r.queue| + RunningCount(r)
  }

  predicate Productive(l: Logged, a: Action) {
    a.DoFinish? || (a.DoTurn? && l.reg.queue != [])
  }

  /** How many takes and finishes the run performs. */
  ghost function Effort(l: Logged, acts: seq<Action>): nat
    requires CanRun(l, acts)
    decreases |acts|
  {
    if acts == [] then 0
    else (if Productive(l, acts[0]) then 1 else 0) + Effort(Next(l, acts[0]), acts[1..])
  }

  lemma RemoveLength(q: seq<JobId>, id: JobId)
    ensures |Remove(q, id)| <= |q|
  {
  }

  /** Without further submissions every take and every finish uses up work, so that any run contains
      at most `2 * |queue| + running` of them. */
  lemma {:induction false} DrainIsBounded(l: Logged, acts: seq<Action>)
    requires CanRun(l, acts)
    requires forall a :: a in acts ==> !a.DoSubmit?
    ensures Effort(l, acts) + Work(Run(l, acts).reg) <= Work(l.reg)
    decreases |acts|
  {
    if acts != [] {
      if acts[0].DoCancel? {
        RemoveLength(l.reg.queue, acts[0].target);
      }
      DrainIsBounded(Next(l, acts[0]), acts[1..]);
    }
  }

  /** The worker loop returns only after a shutdown, and only once every job ever submitted is terminal. */
  lemma WorkerLeavesNothingBehind(l: Logged)
    requires Inv(l) && l.reg.worker == AtLock && Turn(l.reg).worker == Leaving
    ensures l.reg.stop
    ensures forall id :: id in l.submitted ==> id in l.finished
    ensures forall id :: id in l.reg.jobs ==> Closed(l.reg.jobs[id])
  {
    if l.reg.queue != [] {
      TurnAlwaysStarts(l);
    }
  }
}
