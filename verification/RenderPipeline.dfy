/** The pipeline that `serve` wires together: the registry whose `run_fn` is `client.render`, and the
    worker processes behind it, as one step system. */
module RenderPipeline {
  import opened Common
  import opened RenderWorker
  import opened WorkerProcess
  import opened Jobs
  import opened JobsTheorems
  import opened WorkerIpc
  import opened WorkerIpcTheorems

  /** The registry's worker thread between taking a job and recording its outcome. */
  datatype Pc = NoJob | ToCall | InCall | ToRecord(outcome: Outcome)

  datatype Sys = Sys(
    log: Logged,
    ipc: Ipc,
    pc: Pc,
    calls: map<JobId, Call>,       // the jobs whose call got a worker
    unsent: map<JobId, string>)    // the jobs whose call got none, and what was raised instead

  datatype SysAction =
    | Client(act: Action)    // submits, cancels, shutdown and the worker loop up to `run_fn`
    | CallRender(corr: string) // `run_fn` calls `client.render`, which draws a correlation id
    | NoCall(leaked: bool, why: string) // the call fails because no worker can be spawned
    | Net(step: IpcAction)     // anything inside `render`, a worker, a reader or `client.shutdown`
    | Record                   // the worker records what `run_fn` did

  function SysInit(maxCompleted: nat): Sys {
    Sys(Init(maxCompleted), NEW_IPC, NoJob, map[], map[])
  }

  predicate SysEnabled(s: Sys, a: SysAction) {
    match a
    case Client(act) => !act.DoFinish? && Enabled(s.log, act)
    case CallRender(corr) =>
      && s.pc == ToCall && s.log.reg.worker.Busy? && s.log.reg.worker.job in s.log.reg.jobs
      && IpcEnabled(s.ipc, Begin(Call(corr, s.log.reg.jobs[s.log.reg.worker.job].payload)))
    case NoCall(leaked, why) =>
      s.pc == ToCall && s.log.reg.worker.Busy? && IpcEnabled(s.ipc, NoWorker(leaked, why))
    case Net(step) =>
      && !step.Begin? && !step.NoWorker? && IpcEnabled(s.ipc, step)
      && (step.Poll? ==> s.log.reg.worker.Busy? && step.cancel == IsCancelled(s.log.reg, s.log.reg.worker.job))
    case Record => s.pc.ToRecord? && s.log.reg.worker.Busy?
  }

  function SysNext(s: Sys, a: SysAction): Sys
    requires SysEnabled(s, a)
  {
    match a
    case Client(act) =>
      var log := Next(s.log, act);
      s.(log := log, pc := if act.DoTurn? && log.reg.worker.Busy? then ToCall else s.pc)
    case CallRender(corr) =>
      var id := s.log.reg.worker.job;
      var call := Call(corr, s.log.reg.jobs[id].payload);
      s.(ipc := IpcNext(s.ipc, Begin(call)), pc := InCall, calls := s.calls[id := call])
    case NoCall(leaked, why) =>
      s.(ipc := IpcNext(s.ipc, NoWorker(leaked, why)), pc := ToRecord(Raised(why)),
         unsent := s.unsent[s.log.reg.worker.job := why])
    case Net(step) =>
      s.(ipc := IpcNext(s.ipc, step),
         pc := if Yield(s.ipc, step).Some? then ToRecord(Yield(s.ipc, step).value) else s.pc)
    case Record => s.(log := Next(s.log, DoFinish(s.pc.outcome)), pc := NoJob)
  }

  ghost predicate SysCanRun(s: Sys, acts: seq<SysAction>)
    decreases |acts|
  {
    acts == [] || (SysEnabled(s, acts[0]) && SysCanRun(SysNext(s, acts[0]), acts[1..]))
  }

  ghost function SysRun(s: Sys, acts: seq<SysAction>): Sys
    requires SysCanRun(s, acts)
    decreases |acts|
  {
    if acts == [] then s else SysRun(SysNext(s, acts[0]), acts[1..])
  }

  // --- where an outcome comes from --------------------------------------------------------------------

  /** The failure texts of a call whose worker was lost. */
  ghost predicate LostText(text: string, corr: string) {
    || text == CLOSED_TEXT
    || (exists code :: text == DiedText(code, corr))
    || (exists code, why :: text == UnavailableText(code, corr, why))
  }

  predicate IsAt(part: string, text: string, i: nat) {
    i + |part| <= |text| && text[i..i + |part|] == part
  }

  ghost predicate Within(part: string, text: string) {
    exists i :: IsAt(part, text, i)
  }

  lemma MiddleIsWithin(a: string, b: string, c: string)
    ensures Within(b, a + b + c)
  {
    assert IsAt(b, a + b + c, |a|);
  }

  /** What a lost worker leaves as the reason of its call's failure names the exit code and the call. */
  lemma DeathsAreNamed(code: string, corr: string)
    ensures Within(corr, DiedText(code, corr)) && Within(code, DiedText(code, corr))
  {
    var a, b := "render worker exited (code=", ") before completing job ";
    MiddleIsWithin(a + code + b, corr, "");
    MiddleIsWithin(a, code, b + corr);
    assert a + code + b + corr + "" == DiedText(code, corr) == a + code + (b + corr);
  }

  lemma NamesInText(a: string, x: string, b: string, y: string, c: string, z: string)
    ensures Within(x, a + x + b + y + c + z)
    ensures Within(y, a + x + b + y + c + z)
    ensures Within(z, a + x + b + y + c + z)
  {
    MiddleIsWithin(a, x, b + y + c + z);
    MiddleIsWithin(a + x + b, y, c + z);
    MiddleIsWithin(a + x + b + y + c, z, "");
    assert a + x + (b + y + c + z) == a + x + b + y + c + z;
    assert a + x + b + y + (c + z) == a + x + b + y + c + z;
    assert a + x + b + y + c + z + "" == a + x + b + y + c + z;
  }

  /** So does a failed write, with what was raised. */
  lemma RefusalsAreNamed(code: string, corr: string, why: string)
    ensures Within(corr, UnavailableText(code, corr, why)) && Within(code, UnavailableText(code, corr, why))
    ensures Within(why, UnavailableText(code, corr, why))
  {
    NamesInText("render worker unavailable (exit code=", code, ") before job ", corr, " started: ", why);
  }

  /** The worker of this call has been abandoned for good. */
  predicate Abandoned(s: Ipc, call: Call) {
    && call.corr in s.slots
    && s.slots[call.corr].0 < |s.procs|
    && !s.procs[s.slots[call.corr].0].stdinOpen
    && s.current != Some(s.slots[call.corr].0)
  }

  /** The three reasons for which `render` may have ended with outcome `o`. */
  ghost predicate Explains(s: Ipc, call: Call, canceled: bool, o: Outcome) {
    || (exists r :: Executed(s, call, r) && o == Delivered(r))
    || (o == WasCancelled && canceled)
    || (o.Raised? && LostText(o.message, call.corr) && Abandoned(s, call))
  }

  /** The record says that the job ended with outcome `o`. */
  predicate RecordedAs(j: Job, o: Outcome) {
    match o
    case Returned(output) => j.status == COMPLETED && j.output == Some(output)
    case WasCancelled => j.status == FAILED && j.error == Some(CANCELED)
    case Raised(message) => j.status == FAILED && j.error == Some(Take(message, 500))
  }

  ghost predicate JobExplained(s: Sys, id: JobId)
    requires id in s.log.reg.jobs
  {
    var j := s.log.reg.jobs[id];
    Terminal(j) ==>
      || (id in s.log.dropped && id !in s.calls && j.status == FAILED && j.error == Some(CANCELED_EARLY))
      || (NeverSent(s, id) && RecordedAs(j, Raised(s.unsent[id])))
      || (id in s.calls && CallExplained(s, id))
  }

  ghost predicate CallExplained(s: Sys, id: JobId)
    requires id in s.log.reg.jobs && id in s.calls
  {
    var j := s.log.reg.jobs[id];
    s.calls[id].payload == j.payload &&
    exists o :: Explains(s.ipc, s.calls[id], j.cancel, o) && RecordedAs(j, o)
  }

  /** The job was passed to `run_fn`, but no worker could be had and no command was written. */
  predicate NeverSent(s: Sys, id: JobId) {
    id in s.unsent && id !in s.calls && id in s.log.started
  }

  ghost predicate CallsOk(s: Sys) {
    && (forall id :: id in s.unsent ==> NeverSent(s, id))
    && (forall id :: id in s.calls ==> s.calls[id].corr in s.ipc.slots && id in s.log.started)
    && (forall a, b :: a in s.calls && b in s.calls && s.calls[a].corr == s.calls[b].corr ==> a == b)
  }

  /** The running job, its call and the outcome about to be recorded belong together. */
  ghost predicate PcOk(s: Sys) {
    && (s.log.reg.worker.Busy? <==> s.pc != NoJob)
    && (s.pc == InCall <==> s.ipc.phase != Idle)
    && (s.pc == ToCall ==> s.log.reg.worker.job !in s.calls && s.log.reg.worker.job !in s.unsent)
    && (s.pc == InCall ==> OwnCall(s, s.ipc.phase.call))
    && (s.pc.ToRecord? ==> OwnOutcome(s, s.log.reg.worker.job, s.pc.outcome))
  }

  ghost predicate OwnOutcome(s: Sys, id: JobId, o: Outcome)
    requires s.log.reg.worker == Busy(id)
  {
    || (NeverSent(s, id) && o == Raised(s.unsent[id]))
    || (id in s.calls && OwnCall(s, s.calls[id]) &&
        Explains(s.ipc, s.calls[id], s.log.reg.jobs[id].cancel, o))
  }

  ghost predicate OwnCall(s: Sys, call: Call)
    requires s.log.reg.worker.Busy?
  {
    var id := s.log.reg.worker.job;
    id in s.calls && s.calls[id] == call && id in s.log.reg.jobs && call.payload == s.log.reg.jobs[id].payload
  }

  ghost predicate SysInv(s: Sys) {
    && Inv(s.log) && IpcInv(s.ipc) && CallsOk(s) && PcOk(s)
    && forall id :: id in s.log.reg.jobs ==> JobExplained(s, id)
  }

  // --- explanations persist ----------------------------------------------------------------------------

  lemma ExplainsPersists(s: Ipc, t: Ipc, call: Call, canceled: bool, o: Outcome)
    requires Explains(s, call, canceled, o) && Grown(s, t)
    requires Abandoned(s, call) ==> Abandoned(t, call)
    ensures Explains(t, call, canceled, o)
  {
    if r :| Executed(s, call, r) && o == Delivered(r) {
      ExecutedPersists(s, t, call, r);
    }
  }

  lemma AbandonedPersists(s: Ipc, a: IpcAction, call: Call)
    requires IpcEnabled(s, a) && Abandoned(s, call)
    requires forall w :: s.current == Some(w) ==> w < |s.procs|
    ensures Abandoned(IpcNext(s, a), call)
  {
    StepGrows(s, a);
    var w := s.slots[call.corr].0;
    if a.Worker? && a.w == w {
      ClosedStaysClosed(s.procs[w], a.step);
    }
  }

  lemma ClosedStaysClosed(p: Proc, step: ProcAction)
    requires ProcEnabled(p, step)
    ensures ProcNext(p, step).stdinOpen == p.stdinOpen
  {
  }

  // --- every step keeps the invariant --------------------------------------------------------------------

  lemma SysInitInv(maxCompleted: nat)
    ensures SysInv(SysInit(maxCompleted))
  {
  }

  /** A job that becomes terminal without having run was canceled in the queue. */
  lemma EarlyEndsAreCancels(l: Logged, act: Action, id: JobId)
    requires Inv(l) && Enabled(l, act) && !act.DoFinish?
    requires id in l.reg.jobs && !Terminal(l.reg.jobs[id])
    requires id in Next(l, act).reg.jobs && Terminal(Next(l, act).reg.jobs[id])
    ensures id in l.reg.queue && id in Next(l, act).dropped
    ensures Next(l, act).reg.jobs[id].status == FAILED && Next(l, act).reg.jobs[id].error == Some(CANCELED_EARLY)
  {
    match act
    case DoCancel(x) => EarlyCancelIsDrop(l, x, id);
    case DoTurn =>
      if l.reg.queue != [] {
        TurnAlwaysStarts(l);
      }
    case _ =>
  }

  lemma EarlyCancelIsDrop(l: Logged, x: JobId, id: JobId)
    requires Inv(l) && id in l.reg.jobs && !Terminal(l.reg.jobs[id])
    requires id in Cancel(l.reg, x).jobs && Terminal(Cancel(l.reg, x).jobs[id])
    ensures id == x && id in l.reg.queue && id in Next(l, DoCancel(x)).dropped
    ensures Cancel(l.reg, x).jobs[id].status == FAILED
    ensures Cancel(l.reg, x).jobs[id].error == Some(CANCELED_EARLY)
  {
    EvictOnlyRemoves(l.reg, x);
  }

  /** The running job keeps its place and its payload through every step of the others. */
  lemma RunningIsUndisturbed(l: Logged, act: Action)
    requires Inv(l) && Enabled(l, act) && !act.DoFinish? && l.reg.worker.Busy?
    ensures Next(l, act).reg.worker == l.reg.worker
    ensures var id := l.reg.worker.job;
      id in l.reg.jobs && id in Next(l, act).reg.jobs
      && LaterRecord(l.reg.jobs[id], Next(l, act).reg.jobs[id])
  {
    var id := l.reg.worker.job;
    assert Running(l.reg, id);
    NextKeeps(l, act);
    assert Running(Next(l, act).reg, id);
    StepAdvances(l, act, id);
  }

  lemma NewcomerIsWaiting(l: Logged, act: Action, id: JobId)
    requires Inv(l) && Enabled(l, act)
    requires id !in l.submitted && id in Next(l, act).reg.jobs
    ensures !Terminal(Next(l, act).reg.jobs[id])
  {
    NextKeeps(l, act);
    KnownIsSubmitted(Next(l, act), id);
    assert act.DoSubmit? && act.id == id;
  }

  lemma ClientKeepsExplained(s: Sys, act: Action, id: JobId)
    requires SysInv(s) && SysEnabled(s, Client(act))
    requires id in SysNext(s, Client(act)).log.reg.jobs && id in s.log.submitted
    ensures JobExplained(SysNext(s, Client(act)), id)
  {
    var l, l' := s.log, Next(s.log, act);
    StepAdvances(l, act, id);
    HistoriesGrow(l, act, id);
    assert JobExplained(s, id);
    if Terminal(l'.reg.jobs[id]) && !Terminal(l.reg.jobs[id]) {
      EarlyEndsAreCancels(l, act, id);
      QueuedIsNotCalled(s, id);
    } else if id in l.started {
      StartedGrows(l, act, id);
    }
  }

  lemma QueuedIsNotCalled(s: Sys, id: JobId)
    requires Inv(s.log) && CallsOk(s) && id in s.log.reg.queue
    ensures id !in s.calls && id !in s.unsent
  {
    StartedNotQueued(s.log, id);
  }

  lemma ClientKeepsPc(s: Sys, act: Action)
    requires SysInv(s) && SysEnabled(s, Client(act))
    ensures PcOk(SysNext(s, Client(act)))
  {
    var l, l' := s.log, Next(s.log, act);
    if l.reg.worker.Busy? {
      RunningIsUndisturbed(l, act);
      if s.pc.ToRecord? && l.reg.worker.job in s.calls {
        var id := l.reg.worker.job;
        assert Explains(s.ipc, s.calls[id], l'.reg.jobs[id].cancel, s.pc.outcome);
      } else if s.pc.ToRecord? {
        StartedGrows(l, act, l.reg.worker.job);
      }
    } else if act.DoTurn? && l.reg.queue != [] {
      TurnAlwaysStarts(l);
      StartedNotQueued(l, l.reg.queue[0]);
    }
  }

  lemma StartedGrows(l: Logged, act: Action, id: JobId)
    requires Enabled(l, act) && id in l.started
    ensures id in Next(l, act).started
  {
  }

  lemma ClientKeeps(s: Sys, act: Action)
    requires SysInv(s) && SysEnabled(s, Client(act))
    ensures SysInv(SysNext(s, Client(act)))
  {
    var t := SysNext(s, Client(act));
    NextKeeps(s.log, act);
    ClientKeepsPc(s, act);
    forall id | id in t.log.reg.jobs
      ensures JobExplained(t, id)
    {
      if id in s.log.submitted {
        ClientKeepsExplained(s, act, id);
      } else {
        NewcomerIsWaiting(s.log, act, id);
      }
    }
    forall id | id in s.calls || id in s.unsent
      ensures id in t.log.started
    {
      StartedGrows(s.log, act, id);
    }
  }

  /** An explained job stays explained while the workers move on. */
  lemma IpcKeepsExplained(s: Sys, a: IpcAction, t: Sys, id: JobId)
    requires SysInv(s) && IpcEnabled(s.ipc, a) && t.ipc == IpcNext(s.ipc, a) && t.log == s.log
    requires id in s.log.reg.jobs
    requires id in s.calls ==> id in t.calls && t.calls[id] == s.calls[id]
    requires id in s.unsent ==> id in t.unsent && t.unsent[id] == s.unsent[id]
    requires id !in s.calls && Terminal(s.log.reg.jobs[id]) ==> id !in t.calls
    ensures JobExplained(t, id)
  {
    var j := s.log.reg.jobs[id];
    assert JobExplained(s, id);
    if Terminal(j) && id in s.calls {
      CallStaysExplained(s, a, t, id);
    }
  }

  lemma CallStaysExplained(s: Sys, a: IpcAction, t: Sys, id: JobId)
    requires IpcInv(s.ipc) && IpcEnabled(s.ipc, a) && t.ipc == IpcNext(s.ipc, a) && t.log == s.log
    requires id in s.log.reg.jobs && id in s.calls && id in t.calls && t.calls[id] == s.calls[id]
    requires CallExplained(s, id)
    ensures CallExplained(t, id)
  {
    var j := s.log.reg.jobs[id];
    var o :| Explains(s.ipc, s.calls[id], j.cancel, o) && RecordedAs(j, o);
    ExplainedLater(s.ipc, a, s.calls[id], j.cancel, o);
  }

  lemma ExplainedLater(s: Ipc, a: IpcAction, call: Call, canceled: bool, o: Outcome)
    requires IpcInv(s) && IpcEnabled(s, a) && Explains(s, call, canceled, o)
    ensures Explains(IpcNext(s, a), call, canceled, o)
  {
    StepGrows(s, a);
    if Abandoned(s, call) {
      AbandonedPersists(s, a, call);
    }
    ExplainsPersists(s, IpcNext(s, a), call, canceled, o);
  }

  lemma CallKeeps(s: Sys, corr: string)
    requires SysInv(s) && SysEnabled(s, CallRender(corr))
    ensures SysInv(SysNext(s, CallRender(corr)))
  {
    var id := s.log.reg.worker.job;
    assert Running(s.log.reg, id);
    var call := Call(corr, s.log.reg.jobs[id].payload);
    var t := SysNext(s, CallRender(corr));
    IpcNextKeeps(s.ipc, Begin(call));
    CallKeepsCalls(s, corr);
    forall x | x in t.log.reg.jobs
      ensures JobExplained(t, x)
    {
      IpcKeepsExplained(s, Begin(call), t, x);
    }
  }

  /** The call gets a correlation id of its own, and its job is the running one. */
  lemma CallKeepsCalls(s: Sys, corr: string)
    requires SysInv(s) && SysEnabled(s, CallRender(corr))
    ensures CallsOk(SysNext(s, CallRender(corr))) && PcOk(SysNext(s, CallRender(corr)))
  {
    var id := s.log.reg.worker.job;
    assert Running(s.log.reg, id);
    var call := Call(corr, s.log.reg.jobs[id].payload);
    StepGrows(s.ipc, Begin(call));
    RunningWasStarted(s.log, id);
  }

  lemma NoCallKeeps(s: Sys, leaked: bool, why: string)
    requires SysInv(s) && SysEnabled(s, NoCall(leaked, why))
    ensures SysInv(SysNext(s, NoCall(leaked, why)))
  {
    var id := s.log.reg.worker.job;
    var t := SysNext(s, NoCall(leaked, why));
    IpcNextKeeps(s.ipc, NoWorker(leaked, why));
    NoCallKeepsCalls(s, leaked, why);
    forall x | x in t.log.reg.jobs
      ensures JobExplained(t, x)
    {
      IpcKeepsExplained(s, NoWorker(leaked, why), t, x);
    }
  }

  lemma NoCallKeepsCalls(s: Sys, leaked: bool, why: string)
    requires SysInv(s) && SysEnabled(s, NoCall(leaked, why))
    ensures CallsOk(SysNext(s, NoCall(leaked, why))) && PcOk(SysNext(s, NoCall(leaked, why)))
  {
    var id := s.log.reg.worker.job;
    assert Running(s.log.reg, id);
    StepGrows(s.ipc, NoWorker(leaked, why));
    RunningWasStarted(s.log, id);
  }

  lemma RunningWasStarted(l: Logged, id: JobId)
    requires Inv(l) && Running(l.reg, id)
    ensures id in l.started
  {
    WithoutMember(l.submitted, l.dropped, id);
    assert id in l.started + l.reg.queue;
  }

  /** The outcome a call ends with is explained at that moment. */
  lemma YieldIsExplained(s: Ipc, a: IpcAction, canceled: bool)
    requires IpcInv(s) && IpcEnabled(s, a) && !a.NoWorker? && Yield(s, a).Some?
    requires a.Poll? ==> a.cancel == canceled
    ensures s.phase != Idle
    ensures Explains(IpcNext(s, a), s.phase.call, canceled, Yield(s, a).value)
  {
    match a
    case GetLine => AnswerIsExplained(s, canceled);
    case Poll(_, _) =>
    case SendFails(_, _, _) => LossIsExplained(s, a, canceled);
    case GetEof(_) => LossIsExplained(s, a, canceled);
  }

  lemma AnswerIsExplained(s: Ipc, canceled: bool)
    requires IpcInv(s) && IpcEnabled(s, GetLine) && Yield(s, GetLine).Some?
    ensures Explains(IpcNext(s, GetLine), s.phase.call, canceled, Yield(s, GetLine).value)
  {
    AnswerIsOwn(s);
    var r :| Executed(s, s.phase.call, r) && Yield(s, GetLine).value == Delivered(r);
    StepGrows(s, GetLine);
    ExecutedPersists(s, IpcNext(s, GetLine), s.phase.call, r);
  }

  lemma LossIsExplained(s: Ipc, a: IpcAction, canceled: bool)
    requires IpcInv(s) && IpcEnabled(s, a) && (a.SendFails? || a.GetEof?)
    ensures Yield(s, a).Some? && Explains(IpcNext(s, a), s.phase.call, canceled, Yield(s, a).value)
  {
    var text := Yield(s, a).value.message;
    assert LostText(text, s.phase.call.corr);
    ReapAbandons(s, a);
  }

  lemma ReapAbandons(s: Ipc, a: IpcAction)
    requires IpcInv(s) && IpcEnabled(s, a) && (a.SendFails? || a.GetEof?)
    ensures Abandoned(IpcNext(s, a), s.phase.call)
  {
  }

  lemma NetKeepsPc(s: Sys, a: IpcAction)
    requires SysInv(s) && SysEnabled(s, Net(a))
    ensures PcOk(SysNext(s, Net(a)))
  {
    if Yield(s.ipc, a).Some? {
      RenderExit(s.ipc, a);
      YieldIsExplained(s.ipc, a, s.log.reg.jobs[s.log.reg.worker.job].cancel);
    } else if s.pc.ToRecord? && s.log.reg.worker.job in s.calls {
      var id := s.log.reg.worker.job;
      ExplainedLater(s.ipc, a, s.calls[id], s.log.reg.jobs[id].cancel, s.pc.outcome);
      OtherStepsKeepPhase(s.ipc, a);
    } else {
      OtherStepsKeepPhase(s.ipc, a);
    }
  }

  lemma OtherStepsKeepPhase(s: Ipc, a: IpcAction)
    requires IpcEnabled(s, a) && !a.Begin? && !a.NoWorker? && Yield(s, a) == None
    ensures s.phase == Idle <==> IpcNext(s, a).phase == Idle
    ensures s.phase != Idle ==> IpcNext(s, a).phase.call == s.phase.call
  {
  }

  lemma NetKeeps(s: Sys, a: IpcAction)
    requires SysInv(s) && SysEnabled(s, Net(a))
    ensures SysInv(SysNext(s, Net(a)))
  {
    var t := SysNext(s, Net(a));
    IpcNextKeeps(s.ipc, a);
    StepGrows(s.ipc, a);
    NetKeepsPc(s, a);
    forall x | x in t.log.reg.jobs
      ensures JobExplained(t, x)
    {
      IpcKeepsExplained(s, a, t, x);
    }
  }

  lemma RecordKeeps(s: Sys)
    requires SysInv(s) && SysEnabled(s, Record)
    ensures SysInv(SysNext(s, Record))
  {
    var id, o := s.log.reg.worker.job, s.pc.outcome;
    var t := SysNext(s, Record);
    NextKeeps(s.log, DoFinish(o));
    FinishRecords(s.log, o);
    forall x | x in t.log.reg.jobs
      ensures JobExplained(t, x)
    {
      if x == id {
        RecordExplains(s);
      } else {
        RecordLeavesOthers(s, x);
      }
    }
  }

  lemma RecordLeavesOthers(s: Sys, x: JobId)
    requires Inv(s.log) && SysEnabled(s, Record) && x != s.log.reg.worker.job
    requires x in SysNext(s, Record).log.reg.jobs
    requires x in s.log.reg.jobs ==> JobExplained(s, x)
    ensures JobExplained(SysNext(s, Record), x)
  {
    FinishRecords(s.log, s.pc.outcome);
    if x in s.calls && CallExplained(s, x) {
      assert CallExplained(SysNext(s, Record), x);
    }
  }

  /** What is written into the job's record is what its call ended with. */
  lemma RecordExplains(s: Sys)
    requires Inv(s.log) && SysEnabled(s, Record)
    requires OwnOutcome(s, s.log.reg.worker.job, s.pc.outcome)
    ensures var t := SysNext(s, Record);
      s.log.reg.worker.job in t.log.reg.jobs ==> JobExplained(t, s.log.reg.worker.job)
  {
    var id, o := s.log.reg.worker.job, s.pc.outcome;
    var t := SysNext(s, Record);
    FinishRecords(s.log, o);
    if id in t.log.reg.jobs {
      OutcomeExplains(s, t, id, o);
    }
  }

  lemma OutcomeExplains(s: Sys, t: Sys, id: JobId, o: Outcome)
    requires s.log.reg.worker == Busy(id) && id in s.log.reg.jobs && OwnOutcome(s, id, o)
    requires t.ipc == s.ipc && t.calls == s.calls && t.unsent == s.unsent && t.log.started == s.log.started
    requires id in t.log.reg.jobs && t.log.reg.jobs[id] == Settled(s.log.reg.jobs[id], o)
    ensures JobExplained(t, id)
  {
    SettledIsRecorded(s.log.reg.jobs[id], o);
    if id in s.calls {
      assert CallExplained(t, id);
    }
  }

  lemma SettledIsRecorded(j: Job, o: Outcome)
    ensures RecordedAs(Settled(j, o), o)
    ensures Settled(j, o).payload == j.payload && Settled(j, o).cancel == j.cancel
  {
  }

  lemma FinishRecords(l: Logged, o: Outcome)
    requires Inv(l) && l.reg.worker.Busy?
    ensures var r, id := Finish(l.reg, o), l.reg.worker.job;
      && id in l.reg.jobs
      && !r.worker.Busy?
      && (forall x :: x in r.jobs ==> x in l.reg.jobs)
      && (forall x :: x in r.jobs && x != id ==> r.jobs[x] == l.reg.jobs[x])
      && (id in r.jobs ==> r.jobs[id] == Settled(l.reg.jobs[id], o))
  {
    var id := l.reg.worker.job;
    assert Running(l.reg, id);
    EvictKeepsNewest(l.reg.jobs[id := Settled(l.reg.jobs[id], o)], l.reg.completedOrder + [id], l.reg.maxCompleted);
  }

  lemma SysNextKeeps(s: Sys, a: SysAction)
    requires SysInv(s) && SysEnabled(s, a)
    ensures SysInv(SysNext(s, a))
  {
    match a
    case Client(act) => ClientKeeps(s, act);
    case CallRender(corr) => CallKeeps(s, corr);
    case NoCall(leaked, why) => NoCallKeeps(s, leaked, why);
    case Net(step) => NetKeeps(s, step);
    case Record => RecordKeeps(s);
  }

  lemma {:induction false} SysRunKeeps(s: Sys, acts: seq<SysAction>)
    requires SysInv(s) && SysCanRun(s, acts)
    ensures SysInv(SysRun(s, acts))
    decreases |acts|
  {
    if acts != [] {
      SysNextKeeps(s, acts[0]);
      SysRunKeeps(SysNext(s, acts[0]), acts[1..]);
    }
  }

  // --- the theorems ------------------------------------------------------------------------------------------

  /** What the registry itself does during a run of the composed system. */
  ghost function LogActs(s: Sys, acts: seq<SysAction>): seq<Action>
    requires SysCanRun(s, acts)
    decreases |acts|
  {
    if acts == [] then []
    else RegistryStep(s, acts[0]) + LogActs(SysNext(s, acts[0]), acts[1..])
  }

  function RegistryStep(s: Sys, a: SysAction): seq<Action>
    requires SysEnabled(s, a)
  {
    match a
    case Client(act) => [act]
    case CallRender(_) => []
    case NoCall(_, _) => []
    case Net(_) => []
    case Record => [DoFinish(s.pc.outcome)]
  }

  lemma OneLogStep(s: Sys, a: SysAction)
    requires SysEnabled(s, a)
    ensures CanRun(s.log, RegistryStep(s, a)) && Run(s.log, RegistryStep(s, a)) == SysNext(s, a).log
  {
    if RegistryStep(s, a) != [] {
      RunStep(s.log, RegistryStep(s, a)[0], []);
      assert RegistryStep(s, a) == [RegistryStep(s, a)[0]] + [];
    }
  }

  /** The registry of the composed system goes through a run of the registry alone, with the submissions of its
      clients and no others, so every theorem about such runs holds of it. */
  lemma {:induction false} RegistryRuns(s: Sys, acts: seq<SysAction>)
    requires SysCanRun(s, acts)
    ensures CanRun(s.log, LogActs(s, acts)) && Run(s.log, LogActs(s, acts)) == SysRun(s, acts).log
    ensures forall id, p :: DoSubmit(id, p) in LogActs(s, acts) <==> Client(DoSubmit(id, p)) in acts
    decreases |acts|
  {
    if acts != [] {
      var t := SysNext(s, acts[0]);
      OneLogStep(s, acts[0]);
      RegistryRuns(t, acts[1..]);
      RunConcat(s.log, RegistryStep(s, acts[0]), LogActs(t, acts[1..]));
      assert acts == [acts[0]] + acts[1..];
    }
  }

  /** A job of the composed system has the payload that its client submitted. */
  lemma SubmittedPayloadIsKept(maxCompleted: nat, acts: seq<SysAction>, id: JobId)
    requires SysCanRun(SysInit(maxCompleted), acts)
    ensures var r := SysRun(SysInit(maxCompleted), acts).log.reg;
      id in r.jobs ==>
        && Client(DoSubmit(id, r.jobs[id].payload)) in acts
        && forall p :: Client(DoSubmit(id, p)) in acts ==> p == r.jobs[id].payload
  {
    var s := SysInit(maxCompleted);
    RegistryRuns(s, acts);
    PayloadWasSubmitted(maxCompleted, LogActs(s, acts), id);
  }

  /** End to end, over every interleaving of submits, cancels, shutdowns, worker deaths and respawns:
      a COMPLETED job carries the very object that a worker's run function returned (an empty object, if it
      returned none) for the payload that this job's client submitted, in the one execution of its command. */
  lemma CompletedOutputIsOwn(maxCompleted: nat, acts: seq<SysAction>, id: JobId)
    requires SysCanRun(SysInit(maxCompleted), acts)
    ensures var s := SysRun(SysInit(maxCompleted), acts);
      id in s.log.reg.jobs && s.log.reg.jobs[id].status == COMPLETED ==>
        var j := s.log.reg.jobs[id];
        && Client(DoSubmit(id, j.payload)) in acts
        && id in s.calls && s.calls[id].payload == j.payload
        && exists v :: Executed(s.ipc, s.calls[id], Gave(v)) && (v.Obj? ==> j.output == Some(v))
                       && (!v.Obj? ==> j.output == Some(Obj(map[])))
  {
    SubmittedPayloadIsKept(maxCompleted, acts, id);
    SysInitInv(maxCompleted);
    SysRunKeeps(SysInit(maxCompleted), acts);
    var s := SysRun(SysInit(maxCompleted), acts);
    if id in s.log.reg.jobs && s.log.reg.jobs[id].status == COMPLETED {
      var j := s.log.reg.jobs[id];
      assert JobExplained(s, id);
      var o :| Explains(s.ipc, s.calls[id], j.cancel, o) && RecordedAs(j, o);
      SuccessInCall(s.ipc, s.calls[id], j, o);
    }
  }

  lemma SuccessInCall(s: Ipc, call: Call, j: Job, o: Outcome)
    requires j.status == COMPLETED && Explains(s, call, j.cancel, o) && RecordedAs(j, o)
    ensures exists v :: Executed(s, call, Gave(v)) && (v.Obj? ==> j.output == Some(v))
                        && (!v.Obj? ==> j.output == Some(Obj(map[])))
  {
    var r :| Executed(s, call, r) && o == Delivered(r);
    assert Executed(s, call, Gave(r.value));
  }

  /** The text of a failure that the worker reported: its own message cut to 500 characters, or the
      fixed fallback when that message is empty. */
  predicate IsReport(text: string, message: string) {
    if message == "" then text == "render worker reported an error" else IsCut(text, message)
  }

  /** The job's error is the first 500 characters of `message`. */
  predicate FailedWith(j: Job, message: string) {
    j.error.Some? && IsCut(j.error.value, message)
  }

  predicate Failure(r: RunOutcome) {
    !r.Gave?
  }

  /** Every FAILED job was canceled before it started, or could not get a worker (and no command was ever
      sent for it in these two cases), was canceled while it ran, failed in the worker with its own message,
      or lost its worker for good. */
  lemma FailedJobsSayWhy(maxCompleted: nat, acts: seq<SysAction>, id: JobId)
    requires SysCanRun(SysInit(maxCompleted), acts)
    ensures var s := SysRun(SysInit(maxCompleted), acts);
      id in s.log.reg.jobs && s.log.reg.jobs[id].status == FAILED ==> SaysWhy(s, id)
  {
    SysInitInv(maxCompleted);
    SysRunKeeps(SysInit(maxCompleted), acts);
    var s := SysRun(SysInit(maxCompleted), acts);
    if id in s.log.reg.jobs && s.log.reg.jobs[id].status == FAILED {
      assert JobExplained(s, id);
      FailureIsExplained(s, id);
    }
  }

  lemma FailureIsExplained(s: Sys, id: JobId)
    requires id in s.log.reg.jobs && s.log.reg.jobs[id].status == FAILED && JobExplained(s, id)
    ensures SaysWhy(s, id)
  {
    var j := s.log.reg.jobs[id];
    if id in s.calls && CallExplained(s, id) {
      var o :| Explains(s.ipc, s.calls[id], j.cancel, o) && RecordedAs(j, o);
      FailureInCall(s.ipc, s.calls[id], j, o);
    }
  }

  lemma FailureInCall(s: Ipc, call: Call, j: Job, o: Outcome)
    requires j.status == FAILED && Explains(s, call, j.cancel, o) && RecordedAs(j, o)
    ensures FailedInCall(s, call, j)
  {
    if r :| Executed(s, call, r) && o == Delivered(r) {
      assert Failure(r) && j.error.Some? && IsReport(j.error.value, r.message);
    }
  }

  ghost predicate FailedInCall(s: Ipc, call: Call, j: Job) {
    || (j.error == Some("canceled") && j.cancel)
    || (exists r :: Executed(s, call, r) && Failure(r) && j.error.Some? && IsReport(j.error.value, r.message))
    || (exists text :: LostText(text, call.corr) && Abandoned(s, call) && FailedWith(j, text))
  }

  ghost predicate SaysWhy(s: Sys, id: JobId)
    requires id in s.log.reg.jobs
  {
    var j := s.log.reg.jobs[id];
    || (j.error == Some("canceled before start") && id in s.log.dropped && id !in s.calls)
    || (NeverSent(s, id) && FailedWith(j, s.unsent[id]))
    || (id in s.calls && s.calls[id].payload == j.payload && FailedInCall(s.ipc, s.calls[id], j))
  }

  /** No two jobs share a call, and the execution of a call is unique: what a job reports cannot be
      the answer to another job, nor one of several answers to its own. */
  lemma ExecutionsAreNotShared(maxCompleted: nat, acts: seq<SysAction>,
                               a: JobId, b: JobId, r: RunOutcome, r': RunOutcome)
    requires SysCanRun(SysInit(maxCompleted), acts)
    requires var s := SysRun(SysInit(maxCompleted), acts);
      && a in s.calls && b in s.calls
      && Executed(s.ipc, s.calls[a], r) && Executed(s.ipc, s.calls[b], r')
    ensures var s := SysRun(SysInit(maxCompleted), acts);
      if a == b then r == r' else s.ipc.slots[s.calls[a].corr] != s.ipc.slots[s.calls[b].corr]
  {
    SysInitInv(maxCompleted);
    SysRunKeeps(SysInit(maxCompleted), acts);
  }

  // --- cancel reaches the worker ---------------------------------------------------------------------------------

  predicate TakesItem(a: SysAction) {
    a.Net? && (a.step.GetLine? || a.step.GetEof?)
  }

  function Dequeues(acts: seq<SysAction>): nat {
    if acts == [] then 0
    else (if TakesItem(acts[0]) then 1 else 0) + Dequeues(acts[1..])
  }

  function Budget(s: Sys): nat {
    if s.ipc.phase.Getting? then 1 else 0
  }

  lemma FlaggedStep(s: Sys, a: SysAction)
    requires SysInv(s) && SysEnabled(s, a) && a != Record
    requires s.log.reg.worker.Busy? && IsCancelled(s.log.reg, s.log.reg.worker.job)
    ensures var t := SysNext(s, a);
      && t.log.reg.worker == s.log.reg.worker
      && IsCancelled(t.log.reg, t.log.reg.worker.job)
      && Budget(t) + (if TakesItem(a) then 1 else 0) <= Budget(s)
  {
    match a
    case Client(act) => RunningIsUndisturbed(s.log, act);
    case CallRender(_) =>
    case NoCall(_, _) =>
    case Net(step) => NetSpendsBudget(s.ipc, step);
  }

  /** An observed cancel or a dequeued item leaves the get step behind. */
  lemma NetSpendsBudget(s: Ipc, step: IpcAction)
    requires IpcEnabled(s, step) && !step.Begin? && (step.Poll? ==> step.cancel)
    ensures (if IpcNext(s, step).phase.Getting? then 1 else 0) + (if step.GetLine? || step.GetEof? then 1 else 0)
         <= (if s.phase.Getting? then 1 else 0)
  {
  }

  /** Once a running job is flagged, at most one more item is taken from the reader queue before its
      call ends. */
  lemma {:induction false} AtMostOneItemAfterCancel(s: Sys, acts: seq<SysAction>)
    requires SysInv(s) && SysCanRun(s, acts) && Record !in acts
    requires s.log.reg.worker.Busy? && IsCancelled(s.log.reg, s.log.reg.worker.job)
    ensures Dequeues(acts) <= Budget(s) <= 1
    decreases |acts|
  {
    if acts != [] {
      FlaggedStep(s, acts[0]);
      SysNextKeeps(s, acts[0]);
      AtMostOneItemAfterCancel(SysNext(s, acts[0]), acts[1..]);
    }
  }
}
