/** `Job.status_dict` read without the lock while the worker writes: every interleaving of the reader's
    field reads with the writer's field writes. */
module StatusEnvelope {
  import opened Common
  import opened Jobs
  import opened JobsTheorems

  datatype Fields = Fields(status: Status, output: Option<Json>, error: Option<string>)

  datatype Envelope = Envelope(status: Status, output: Option<Json>, error: Option<string>)

  const FRESH := Fields(IN_QUEUE, None, None)

  /** One field assignment by the registry (or none). Output is written before COMPLETED, but FAILED
      is written before error. */
  predicate Write(a: Fields, b: Fields) {
    || b == a
    || (a == FRESH && b == a.(status := IN_PROGRESS))
    || (a.status == IN_PROGRESS && a.output == None && b.output.Some? && b == a.(output := b.output))
    || (a.status == IN_PROGRESS && a.output.Some? && b == a.(status := COMPLETED))
    || ((a.status == IN_QUEUE || a.status == IN_PROGRESS) && a.output == None && b == a.(status := FAILED))
    || (a.status == FAILED && a.error == None && b.error.Some? && b == a.(error := b.error))
  }

  ghost predicate History(h: seq<Fields>) {
    h != [] && h[0] == FRESH && forall i :: 0 < i < |h| ==> Write(h[i - 1], h[i])
  }

  /** The moments of the reader's seven field reads, in program order. */
  ghost predicate Moments(t: seq<nat>, h: seq<Fields>) {
    && |t| == 7
    && (forall i :: 0 <= i < 7 ==> t[i] < |h|)
    && (forall i :: 0 < i < 7 ==> t[i - 1] <= t[i])
  }

  /** `status_dict`, each read at its own moment. */
  function StatusDict(h: seq<Fields>, t: seq<nat>): Envelope
    requires Moments(t, h)
  {
    Envelope(
      h[t[0]].status,
      if h[t[1]].status == COMPLETED && h[t[2]].output.Some? then h[t[3]].output else None,
      if h[t[4]].status == FAILED && h[t[5]].error.Some? then h[t[6]].error else None)
  }

  /** The status shown is one that the record had while it was read. */
  lemma StatusWasThere(h: seq<Fields>, t: seq<nat>)
    requires Moments(t, h)
    ensures exists m :: t[0] <= m <= t[6] < |h| && StatusDict(h, t).status == h[m].status
  {
    assert t[0] <= t[1] <= t[2] <= t[3] <= t[4] <= t[5] <= t[6];
    assert t[0] < |h| && t[6] < |h|;
    assert StatusDict(h, t).status == h[t[0]].status;
  }

  /** What a record says to a reader who meets no write: its status, the output of a COMPLETED job and the error of
      a FAILED one. */
  predicate Shows(e: Envelope, f: Fields) {
    && e.status == f.status
    && e.output == (if f.status == COMPLETED then f.output else None)
    && e.error == (if f.status == FAILED then f.error else None)
  }

  lemma StillRecordIsShown(h: seq<Fields>, t: seq<nat>, m: nat)
    requires Moments(t, h) && m < |h| && forall i :: 0 <= i < 7 ==> t[i] == m
    ensures Shows(StatusDict(h, t), h[m])
  {
  }

  /** `b` may follow `a` after any number of writes. */
  predicate Follows(a: Fields, b: Fields) {
    && (a.output.Some? ==> b.output == a.output)
    && (a.error.Some? ==> b.error == a.error)
    && (a.status == COMPLETED || a.status == FAILED ==> b.status == a.status)
    && (a.status == COMPLETED ==> b == a)
    && (a.status == IN_PROGRESS ==> b.status != IN_QUEUE)
  }

  predicate Consistent(a: Fields) {
    && (a.status == COMPLETED ==> a.output.Some? && a.error == None)
    && (a.error.Some? ==> a.status == FAILED)
    && (a.status == FAILED ==> a.output == None)
  }

  lemma {:induction false} LaterFollows(h: seq<Fields>, i: nat, j: nat)
    requires History(h) && i <= j < |h|
    ensures Follows(h[i], h[j]) && Consistent(h[j])
    decreases j
  {
    if j > 0 {
      LaterFollows(h, if i < j then i else j - 1, j - 1);
      assert Write(h[j - 1], h[j]);
    }
  }

  /** For every interleaving: an envelope that says COMPLETED carries the job's output, which is final;
      any output shown is that one; output and error never appear together; an error shown is final. */
  lemma EnvelopeIsHonest(h: seq<Fields>, t: seq<nat>)
    requires History(h) && Moments(t, h)
    ensures var e, final := StatusDict(h, t), h[|h| - 1];
      && (e.status == COMPLETED ==> e.output.Some?)
      && (e.output.Some? ==> e.output == final.output && final.status == COMPLETED && e.error == None)
      && (e.error.Some? ==> e.error == final.error && final.status == FAILED)
  {
    var n := |h| - 1;
    LaterFollows(h, t[0], t[1]);
    LaterFollows(h, t[1], t[2]);
    LaterFollows(h, t[2], t[3]);
    LaterFollows(h, t[3], t[4]);
    LaterFollows(h, t[1], t[4]);
    LaterFollows(h, t[3], n);
    LaterFollows(h, t[1], n);
    LaterFollows(h, t[4], n);
    LaterFollows(h, t[5], t[6]);
    LaterFollows(h, t[6], n);
  }

  /** One reader shows the error of a FAILED job exactly when its first look at the field finds it. */
  lemma ErrorIsShownIff(h: seq<Fields>, t: seq<nat>)
    requires History(h) && Moments(t, h) && StatusDict(h, t).status == FAILED
    ensures StatusDict(h, t).error.Some? <==> h[t[5]].error.Some?
  {
    assert t[0] <= t[1] <= t[2] <= t[3] <= t[4];
    LaterFollows(h, t[0], t[4]);
    LaterFollows(h, t[5], t[6]);
  }

  /** The record says FAILED, and the error is yet to be written. */
  predicate HalfFailed(f: Fields) {
    f.status == FAILED && f.error == None
  }

  predicate LacksError(e: Envelope) {
    e.status == FAILED && e.error == None
  }

  /** The mirror for FAILED is false. A reader that starts at moment `m` can see FAILED without the error
      exactly when the record is half failed at that very moment. */
  lemma FailedEnvelopeHasErrorIff(h: seq<Fields>, m: nat)
    requires History(h) && m < |h|
    ensures (forall t :: Moments(t, h) && t[0] == m ==> !LacksError(StatusDict(h, t))) <==> !HalfFailed(h[m])
  {
    if HalfFailed(h[m]) {
      var t: seq<nat> := [m, m, m, m, m, m, m];
      assert Moments(t, h) && t[0] == m;
      assert LacksError(StatusDict(h, t));
    } else {
      forall t | Moments(t, h) && t[0] == m
        ensures !LacksError(StatusDict(h, t))
      {
        assert t[0] <= t[1] <= t[2] <= t[3] <= t[4] <= t[5];
        if StatusDict(h, t).status == FAILED {
          ErrorIsShownIff(h, t);
          LaterFollows(h, t[0], t[5]);
        }
      }
    }
  }

  // --- the histories of a run ---------------------------------------------------------------------

  function FieldsOf(j: Job): Fields {
    Fields(j.status, j.output, j.error)
  }

  /** What a reader can meet while one step of the registry turns `a` into `b`. */
  function Between(a: Fields, b: Fields): Fields {
    if b.status == COMPLETED then a.(output := b.output)
    else if b.status == FAILED then a.(status := FAILED)
    else a
  }

  function WriteOrder(a: Fields, b: Fields): seq<Fields> {
    [a, Between(a, b), b]
  }

  predicate TwoWrites(a: Fields, b: Fields) {
    Write(a, Between(a, b)) && Write(Between(a, b), b)
  }

  /** What the worker loop makes of the record it pops. */
  function TakenRecord(j: Job): Job {
    if j.status != IN_QUEUE then j
    else if j.cancel then CanceledRecord(j)
    else j.(status := IN_PROGRESS)
  }

  /** The record of a known job after one step, whether or not that step evicts it: readers that hold it
      still see it. */
  function Written(r: Registry, a: Action, id: JobId): Job
    requires id in r.jobs
  {
    var j := r.jobs[id];
    match a
    case DoCancel(x) => if x == id then CanceledRecord(j) else j
    case DoTurn => if r.queue != [] && r.queue[0] == id then TakenRecord(j) else j
    case DoFinish(o) => if r.worker == Busy(id) then Settled(j, o) else j
    case DoSubmit(_, _) => j
    case DoShutdown => j
    case DoWake => j
    case DoExit => j
  }

  lemma FinishWrites(l: Logged, o: Outcome, id: JobId)
    requires Inv(l) && l.reg.worker.Busy? && id in l.reg.jobs && id in Finish(l.reg, o).jobs
    ensures Finish(l.reg, o).jobs[id] == Written(l.reg, DoFinish(o), id)
  {
    var x := l.reg.worker.job;
    assert Running(l.reg, x);
    EvictKeepsNewest(l.reg.jobs[x := Settled(l.reg.jobs[x], o)], l.reg.completedOrder + [x], l.reg.maxCompleted);
  }

  /** A step that keeps the job known leaves exactly that record in the map. */
  lemma WrittenIsNext(l: Logged, a: Action, id: JobId)
    requires Inv(l) && Enabled(l, a) && id in l.reg.jobs && id in Next(l, a).reg.jobs
    ensures Next(l, a).reg.jobs[id] == Written(l.reg, a, id)
  {
    match a
    case DoCancel(x) => EvictOnlyRemoves(l.reg, x);
    case DoFinish(o) => FinishWrites(l, o, id);
    case DoTurn =>
      if l.reg.queue != [] {
        TurnEffect(l);
      }
    case DoSubmit(x, _) => KnownIsSubmitted(l, id);
    case _ =>
  }

  lemma RecordIsConsistent(l: Logged, id: JobId)
    requires Inv(l) && id in l.reg.jobs
    ensures var j := l.reg.jobs[id];
      Waiting(j) || Closed(j) || (Running(l.reg, id) && j.status == IN_PROGRESS && j.output == None && j.error == None)
  {
  }

  /** Every step of the registry writes a job's fields in an order that readers can face, and leaves no
      FAILED record without its error. */
  lemma StepIsTwoWrites(l: Logged, a: Action, id: JobId)
    requires Inv(l) && Enabled(l, a) && id in l.reg.jobs
    ensures TwoWrites(FieldsOf(l.reg.jobs[id]), FieldsOf(Written(l.reg, a, id)))
    ensures !HalfFailed(FieldsOf(Written(l.reg, a, id)))
  {
    RecordIsConsistent(l, id);
    if a.DoFinish? {
      assert Running(l.reg, l.reg.worker.job);
    }
  }

  /** `h` is a history of this job that ends in its present record. */
  ghost predicate Records(h: seq<Fields>, j: Job) {
    History(h) && h[|h| - 1] == FieldsOf(j)
  }

  /** The writes to a job's fields during a run, up to and including the step that evicts it. */
  ghost function Trail(l: Logged, acts: seq<Action>, id: JobId): seq<Fields>
    requires CanRun(l, acts)
    decreases |acts|
  {
    if acts == [] || id !in l.reg.jobs then []
    else
      var a, b := FieldsOf(l.reg.jobs[id]), FieldsOf(Written(l.reg, acts[0], id));
      [Between(a, b), b] + Trail(Next(l, acts[0]), acts[1..], id)
  }

  /** The job's record at the end of a run, or as its eviction left it. */
  ghost function LastRecord(l: Logged, acts: seq<Action>, id: JobId): Job
    requires CanRun(l, acts) && id in l.reg.jobs
    decreases |acts|
  {
    if acts == [] then l.reg.jobs[id]
    else if id in Next(l, acts[0]).reg.jobs then LastRecord(Next(l, acts[0]), acts[1..], id)
    else Written(l.reg, acts[0], id)
  }

  lemma {:induction false} KnownAtTheEnd(l: Logged, acts: seq<Action>, id: JobId)
    requires Inv(l) && CanRun(l, acts) && id in l.reg.jobs && id in Run(l, acts).reg.jobs
    ensures LastRecord(l, acts, id) == Run(l, acts).reg.jobs[id]
    decreases |acts|
  {
    if acts != [] {
      KnownAllAlong(l, acts, id);
      NextKeeps(l, acts[0]);
      KnownAtTheEnd(Next(l, acts[0]), acts[1..], id);
    }
  }

  lemma KnownAllAlong(l: Logged, acts: seq<Action>, id: JobId)
    requires Inv(l) && CanRun(l, acts) && acts != []
    requires id in l.reg.jobs && id in Run(l, acts).reg.jobs
    ensures id in Next(l, acts[0]).reg.jobs
  {
    KnownIsSubmitted(l, id);
    HistoriesGrow(l, acts[0], id);
    NextKeeps(l, acts[0]);
    LifecycleIsMonotone(Next(l, acts[0]), acts[1..], id);
  }

  lemma HistoryStep(h: seq<Fields>, a: Fields, b: Fields)
    requires History(h) && h[|h| - 1] == a && TwoWrites(a, b)
    ensures History(h + [Between(a, b), b])
  {
  }

  lemma TrailStep(l: Logged, acts: seq<Action>, id: JobId, h: seq<Fields>)
    requires CanRun(l, acts) && acts != [] && id in l.reg.jobs
    ensures var a, b := FieldsOf(l.reg.jobs[id]), FieldsOf(Written(l.reg, acts[0], id));
      h + Trail(l, acts, id) == h + [Between(a, b), b] + Trail(Next(l, acts[0]), acts[1..], id)
  {
  }

  /** The writes of any run continue the history of a job, evicted or not. */
  lemma {:induction false} TrailContinuesHistory(l: Logged, acts: seq<Action>, id: JobId, h: seq<Fields>)
    requires Inv(l) && CanRun(l, acts) && id in l.reg.jobs
    requires Records(h, l.reg.jobs[id])
    ensures Records(h + Trail(l, acts, id), LastRecord(l, acts, id))
    decreases |acts|
  {
    if acts == [] {
      assert h + Trail(l, acts, id) == h;
    } else {
      var m := Next(l, acts[0]);
      var a, b := FieldsOf(l.reg.jobs[id]), FieldsOf(Written(l.reg, acts[0], id));
      var g := h + [Between(a, b), b];
      StepIsTwoWrites(l, acts[0], id);
      HistoryStep(h, a, b);
      TrailStep(l, acts, id, h);
      NextKeeps(l, acts[0]);
      if id in m.reg.jobs {
        WrittenIsNext(l, acts[0], id);
        TrailContinuesHistory(m, acts[1..], id, g);
      } else {
        assert g + [] == g;
      }
    }
  }

  /** An envelope read earlier never contradicts the record read later. */
  predicate AgreesWith(e: Envelope, j: Job) {
    && (e.status == COMPLETED ==> e.output.Some?)
    && (e.output.Some? ==> e.output == j.output && j.status == COMPLETED && e.error == None)
    && (e.error.Some? ==> e.error == j.error && j.status == FAILED)
  }

  ghost predicate Lives(l: Logged, id: JobId, payload: Json, acts: seq<Action>) {
    && Inv(l) && id !in l.submitted
    && CanRun(Next(l, DoSubmit(id, payload)), acts)
  }

  /** The job's record at the end of a run that starts with its submission, or as its eviction left it. */
  ghost function FinalRecord(l: Logged, id: JobId, payload: Json, acts: seq<Action>): Job
    requires Lives(l, id, payload, acts)
  {
    LastRecord(Next(l, DoSubmit(id, payload)), acts, id)
  }

  /** Everything that readers of the job can meet from its submission through the run. */
  ghost function Life(l: Logged, id: JobId, payload: Json, acts: seq<Action>): seq<Fields>
    requires Lives(l, id, payload, acts)
  {
    [FRESH] + Trail(Next(l, DoSubmit(id, payload)), acts, id)
  }

  lemma LifeIsHistory(l: Logged, id: JobId, payload: Json, acts: seq<Action>)
    requires Lives(l, id, payload, acts)
    ensures Records(Life(l, id, payload, acts), FinalRecord(l, id, payload, acts))
  {
    var m := Next(l, DoSubmit(id, payload));
    NextKeeps(l, DoSubmit(id, payload));
    assert Records([FRESH], m.reg.jobs[id]);
    TrailContinuesHistory(m, acts, id, [FRESH]);
  }

  /** A job's whole life, from its submission through any run, is one such history: every envelope that
      readers assemble meanwhile, field by field, agrees with the record at the end. */
  lemma EnvelopesOfARun(l: Logged, id: JobId, payload: Json, acts: seq<Action>, t: seq<nat>)
    requires Lives(l, id, payload, acts) && Moments(t, Life(l, id, payload, acts))
    ensures AgreesWith(StatusDict(Life(l, id, payload, acts), t), FinalRecord(l, id, payload, acts))
  {
    LifeIsHistory(l, id, payload, acts);
    EnvelopeIsHonest(Life(l, id, payload, acts), t);
  }

  predicate SameJob(a: Job, b: Job) {
    a.id == b.id && a.payload == b.payload
  }

  lemma WrittenIsSameJob(r: Registry, a: Action, id: JobId)
    requires id in r.jobs
    ensures SameJob(Written(r, a, id), r.jobs[id])
  {
  }

  lemma {:induction false} LastRecordKeepsPayload(l: Logged, acts: seq<Action>, id: JobId)
    requires Inv(l) && CanRun(l, acts) && id in l.reg.jobs
    ensures SameJob(LastRecord(l, acts, id), l.reg.jobs[id])
    decreases |acts|
  {
    if acts != [] {
      NextKeeps(l, acts[0]);
      WrittenIsSameJob(l.reg, acts[0], id);
      if id in Next(l, acts[0]).reg.jobs {
        WrittenIsNext(l, acts[0], id);
        LastRecordKeepsPayload(Next(l, acts[0]), acts[1..], id);
      }
    }
  }

  /** The record keeps the payload that was submitted, evicted or not. */
  lemma FinalRecordIsOfTheSubmission(l: Logged, id: JobId, payload: Json, acts: seq<Action>)
    requires Lives(l, id, payload, acts)
    ensures FinalRecord(l, id, payload, acts).payload == payload && FinalRecord(l, id, payload, acts).id == id
  {
    var m := Next(l, DoSubmit(id, payload));
    NextKeeps(l, DoSubmit(id, payload));
    LastRecordKeepsPayload(m, acts, id);
    assert m.reg.jobs[id].id == id && m.reg.jobs[id].payload == payload;
  }

  /** A reader that starts after the last write shows the final record: a client that keeps polling learns how its
      job ended, with the output or the error. */
  lemma LatePollShowsTheEnd(l: Logged, id: JobId, payload: Json, acts: seq<Action>, t: seq<nat>)
    requires Lives(l, id, payload, acts) && Moments(t, Life(l, id, payload, acts))
    requires t[0] == |Life(l, id, payload, acts)| - 1
    ensures var e, j := StatusDict(Life(l, id, payload, acts), t), FinalRecord(l, id, payload, acts);
      && e.status == j.status
      && (j.status == COMPLETED ==> e.output == j.output && e.output.Some?)
      && (j.status == FAILED ==> e.error == j.error && e.error.Some?)
  {
    var h := Life(l, id, payload, acts);
    LifeIsHistory(l, id, payload, acts);
    assert t[0] <= t[1] <= t[2] <= t[3] <= t[4] <= t[5] <= t[6];
    StillRecordIsShown(h, t, |h| - 1);
    LaterFollows(h, 0, |h| - 1);
    FinalIsWhole(l, id, payload, acts);
  }

  lemma FinalIsWhole(l: Logged, id: JobId, payload: Json, acts: seq<Action>)
    requires Lives(l, id, payload, acts)
    ensures !HalfFailed(FieldsOf(FinalRecord(l, id, payload, acts)))
  {
    var m := Next(l, DoSubmit(id, payload));
    NextKeeps(l, DoSubmit(id, payload));
    LastIsWhole(m, acts, id);
  }

  lemma {:induction false} LastIsWhole(l: Logged, acts: seq<Action>, id: JobId)
    requires Inv(l) && CanRun(l, acts) && id in l.reg.jobs
    ensures !HalfFailed(FieldsOf(LastRecord(l, acts, id)))
    decreases |acts|
  {
    RecordIsConsistent(l, id);
    if acts != [] {
      NextKeeps(l, acts[0]);
      StepIsTwoWrites(l, acts[0], id);
      if id in Next(l, acts[0]).reg.jobs {
        LastIsWhole(Next(l, acts[0]), acts[1..], id);
      }
    }
  }

  /** Every other record of the trail, where a step has ended, has its error if it is FAILED. */
  predicate RestsWhole(trail: seq<Fields>) {
    forall i :: 0 <= i < |trail| && i % 2 == 1 ==> !HalfFailed(trail[i])
  }

  lemma RestsWholePrepend(a: Fields, b: Fields, rest: seq<Fields>)
    requires !HalfFailed(b) && RestsWhole(rest)
    ensures RestsWhole([a, b] + rest)
  {
    var trail := [a, b] + rest;
    forall i | 0 <= i < |trail| && i % 2 == 1
      ensures !HalfFailed(trail[i])
    {
      assert i > 1 ==> trail[i] == rest[i - 2];
    }
  }

  /** The registry never rests with a half-failed record: between two of its steps, when no thread holds the
      lock, every FAILED record has its error, evicted records included. */
  lemma {:induction false} RestingPointsAreWhole(l: Logged, acts: seq<Action>, id: JobId)
    requires Inv(l) && CanRun(l, acts)
    ensures RestsWhole(Trail(l, acts, id))
    decreases |acts|
  {
    if acts != [] && id in l.reg.jobs {
      var m := Next(l, acts[0]);
      var a, b := FieldsOf(l.reg.jobs[id]), FieldsOf(Written(l.reg, acts[0], id));
      StepIsTwoWrites(l, acts[0], id);
      NextKeeps(l, acts[0]);
      RestingPointsAreWhole(m, acts[1..], id);
      RestsWholePrepend(Between(a, b), b, Trail(m, acts[1..], id));
    }
  }

  lemma RestsAreSafe(trail: seq<Fields>, t: seq<nat>)
    requires History([FRESH] + trail) && RestsWhole(trail)
    requires Moments(t, [FRESH] + trail) && t[0] % 2 == 0
    ensures !LacksError(StatusDict([FRESH] + trail, t))
  {
    var h := [FRESH] + trail;
    assert t[0] > 0 ==> h[t[0]] == trail[t[0] - 1];
    FailedEnvelopeHasErrorIff(h, t[0]);
  }

  /** So over every run a reader that starts while the lock is free gets the error of every FAILED job. The
      submission is moment 0 of the job's life; each further step of the run takes two. */
  lemma UnhurriedReaderSeesTheError(l: Logged, id: JobId, payload: Json, acts: seq<Action>, t: seq<nat>)
    requires Lives(l, id, payload, acts)
    requires Moments(t, Life(l, id, payload, acts)) && t[0] % 2 == 0
    ensures !LacksError(StatusDict(Life(l, id, payload, acts), t))
  {
    LifeIsHistory(l, id, payload, acts);
    NextKeeps(l, DoSubmit(id, payload));
    RestingPointsAreWhole(Next(l, DoSubmit(id, payload)), acts, id);
    RestsAreSafe(Trail(Next(l, DoSubmit(id, payload)), acts, id), t);
  }

  ghost predicate MissesTheError(h: seq<Fields>, t: seq<nat>) {
    Moments(t, h) && LacksError(StatusDict(h, t))
  }

  /** And the other readers can miss it, whatever the registry retains: a job is submitted to a fresh registry
      and canceled at once, and a reader that starts between the two writes of that cancel sees FAILED without
      an error. */
  lemma FailedEnvelopeCanLackError(maxCompleted: nat, id: JobId, payload: Json)
    ensures Lives(Init(maxCompleted), id, payload, [DoCancel(id)])
    ensures FinalRecord(Init(maxCompleted), id, payload, [DoCancel(id)]).error == Some(CANCELED_EARLY)
    ensures exists t :: MissesTheError(Life(Init(maxCompleted), id, payload, [DoCancel(id)]), t)
  {
    var m := Next(Init(maxCompleted), DoSubmit(id, payload));
    InvInit(maxCompleted);
    NextKeeps(Init(maxCompleted), DoSubmit(id, payload));
    CancelTrail(m, id);
    var t: seq<nat> := [1, 1, 1, 1, 1, 1, 1];
    assert Life(Init(maxCompleted), id, payload, [DoCancel(id)])[1] == FRESH.(status := FAILED);
    assert MissesTheError(Life(Init(maxCompleted), id, payload, [DoCancel(id)]), t);
  }

  lemma CancelTrail(l: Logged, id: JobId)
    requires Inv(l) && id in l.reg.jobs && FieldsOf(l.reg.jobs[id]) == FRESH
    ensures CanRun(l, [DoCancel(id)])
    ensures var half := FRESH.(status := FAILED);
      Trail(l, [DoCancel(id)], id) == [half, half.(error := Some(CANCELED_EARLY))]
    ensures LastRecord(l, [DoCancel(id)], id).error == Some(CANCELED_EARLY)
  {
    var f := Next(l, DoCancel(id));
    RunStep(l, DoCancel(id), []);
    assert [DoCancel(id)] == [DoCancel(id)] + [] && [DoCancel(id)][1..] == [];
    assert Trail(f, [], id) == [];
    NextKeeps(l, DoCancel(id));
    if id in f.reg.jobs {
      WrittenIsNext(l, DoCancel(id), id);
    }
  }
}
