/** A whole call of `render` on the client class is a run of the step system: the same end, the same queue left
    behind and the same handle, for every schedule of passes and worker steps. */
module RenderRuns {
  import opened Common
  import opened RenderWorker
  import opened WorkerProcess
  import opened Jobs
  import opened WorkerIpc
  import opened WorkerIpcTheorems
  import opened WorkerClient

  // --- what the worker and its reader thread do during a pass -------------------------------------

  /** One pass of the read loop, and what happens to the worker meanwhile. */
  datatype Pass = Pass(cancel: bool, killed: bool, steps: seq<ProcAction>)

  predicate StepsCanRun(p: Proc, steps: seq<ProcAction>)
    decreases |steps|
  {
    steps == [] || (ProcEnabled(p, steps[0]) && StepsCanRun(ProcNext(p, steps[0]), steps[1..]))
  }

  function AfterSteps(p: Proc, steps: seq<ProcAction>): Proc
    requires StepsCanRun(p, steps)
    decreases |steps|
  {
    if steps == [] then p else AfterSteps(ProcNext(p, steps[0]), steps[1..])
  }

  function Arrival(p: Proc, a: ProcAction): seq<Item>
    requires ProcEnabled(p, a)
  {
    if a == Pump then [LineItem(p.stdout[p.pumped])] else if a == PumpEof then [EofItem] else []
  }

  /** The items that the reader thread queues during these steps. */
  function Arrived(p: Proc, steps: seq<ProcAction>): seq<Item>
    requires StepsCanRun(p, steps)
    decreases |steps|
  {
    if steps == [] then [] else Arrival(p, steps[0]) + Arrived(ProcNext(p, steps[0]), steps[1..])
  }

  lemma StepArrives(p: Proc, a: ProcAction)
    requires InOrder(p) && ProcEnabled(p, a)
    ensures InOrder(ProcNext(p, a)) && QueueOf(ProcNext(p, a)) == QueueOf(p) + Arrival(p, a)
  {
    if a == Pump || a == PumpEof {
      ReaderAppends(p, a);
    } else {
      var q := ProcNext(p, a);
      assert q.stdout[q.taken..q.pumped] == p.stdout[p.taken..p.pumped];
      assert QueueOf(p) + [] == QueueOf(p);
    }
  }

  lemma {:induction false} StepsArrive(p: Proc, steps: seq<ProcAction>)
    requires InOrder(p) && StepsCanRun(p, steps)
    ensures InOrder(AfterSteps(p, steps)) && QueueOf(AfterSteps(p, steps)) == QueueOf(p) + Arrived(p, steps)
    decreases |steps|
  {
    if steps == [] {
      assert QueueOf(p) + [] == QueueOf(p);
    } else {
      StepArrives(p, steps[0]);
      StepsArrive(ProcNext(p, steps[0]), steps[1..]);
    }
  }

  /** The worker after a pass that has looked at its queue. */
  function Dequeued(p: Proc): Proc {
    if p.taken < p.pumped then p.(taken := p.taken + 1) else p
  }

  predicate PassesCanRun(p: Proc, passes: seq<Pass>)
    decreases |passes|
  {
    passes == [] || passes[0].cancel ||
    (StepsCanRun(p, passes[0].steps) && PassesCanRun(Dequeued(AfterSteps(p, passes[0].steps)), passes[1..]))
  }

  /** The same passes as the client sees them. */
  function Ticks(p: Proc, passes: seq<Pass>): seq<Tick>
    requires PassesCanRun(p, passes)
    decreases |passes|
  {
    if passes == [] then []
    else if passes[0].cancel then [Tick(true, [])]
    else
      [Tick(false, Arrived(p, passes[0].steps))] + Ticks(Dequeued(AfterSteps(p, passes[0].steps)), passes[1..])
  }

  // --- runs and what they yield -------------------------------------------------------------------

  function YieldOf(o: Option<Outcome>): seq<Outcome> {
    if o.Some? then [o.value] else []
  }

  /** Every outcome that a call ends with during the run. */
  ghost function Yields(s: Ipc, acts: seq<IpcAction>): seq<Outcome>
    requires IpcCanRun(s, acts)
    decreases |acts|
  {
    if acts == [] then [] else YieldOf(Yield(s, acts[0])) + Yields(IpcNext(s, acts[0]), acts[1..])
  }

  /** `acts` leads from `s` to `t` and yields `ys`. */
  ghost predicate Leads(s: Ipc, acts: seq<IpcAction>, t: Ipc, ys: seq<Outcome>) {
    IpcCanRun(s, acts) && IpcRun(s, acts) == t && Yields(s, acts) == ys
  }

  lemma LeadsOne(s: Ipc, a: IpcAction)
    requires IpcEnabled(s, a)
    ensures Leads(s, [a], IpcNext(s, a), YieldOf(Yield(s, a)))
  {
    var t, ys := IpcNext(s, a), YieldOf(Yield(s, a));
    assert [a][1..] == [];
    assert IpcCanRun(t, []) && IpcRun(t, []) == t && Yields(t, []) == [];
    assert ys + [] == ys;
  }

  lemma {:induction false} RunsConcat(s: Ipc, xs: seq<IpcAction>, ys: seq<IpcAction>)
    requires IpcCanRun(s, xs) && IpcCanRun(IpcRun(s, xs), ys)
    ensures IpcCanRun(s, xs + ys) && IpcRun(s, xs + ys) == IpcRun(IpcRun(s, xs), ys)
    decreases |xs|
  {
    if xs == [] {
      assert xs + ys == ys;
    } else {
      assert (xs + ys)[0] == xs[0] && (xs + ys)[1..] == xs[1..] + ys;
      RunsConcat(IpcNext(s, xs[0]), xs[1..], ys);
    }
  }

  lemma Associate<T>(a: seq<T>, b: seq<T>, c: seq<T>)
    ensures a + b + c == a + (b + c)
  {
  }

  lemma {:induction false} YieldsConcat(s: Ipc, xs: seq<IpcAction>, ys: seq<IpcAction>)
    requires IpcCanRun(s, xs) && IpcCanRun(IpcRun(s, xs), ys) && IpcCanRun(s, xs + ys)
    ensures Yields(s, xs + ys) == Yields(s, xs) + Yields(IpcRun(s, xs), ys)
    decreases |xs|
  {
    if xs == [] {
      assert xs + ys == ys && [] + Yields(s, ys) == Yields(s, ys);
    } else {
      var n := IpcNext(s, xs[0]);
      assert (xs + ys)[0] == xs[0] && (xs + ys)[1..] == xs[1..] + ys;
      YieldsConcat(n, xs[1..], ys);
      Associate(YieldOf(Yield(s, xs[0])), Yields(n, xs[1..]), Yields(IpcRun(s, xs), ys));
    }
  }

  lemma LeadsOn(s: Ipc, xs: seq<IpcAction>, t: Ipc, ys: seq<Outcome>,
                xs': seq<IpcAction>, u: Ipc, ys': seq<Outcome>)
    requires Leads(s, xs, t, ys) && Leads(t, xs', u, ys')
    ensures Leads(s, xs + xs', u, ys + ys')
  {
    RunsConcat(s, xs, xs');
    YieldsConcat(s, xs, xs');
  }

  function WorkerActs(w: nat, steps: seq<ProcAction>): seq<IpcAction> {
    if steps == [] then [] else [Worker(w, steps[0])] + WorkerActs(w, steps[1..])
  }

  function WithProc(s: Ipc, w: nat, p: Proc): Ipc
    requires w < |s.procs|
  {
    s.(procs := s.procs[w := p])
  }

  lemma {:induction false} WorkerLeads(s: Ipc, w: nat, steps: seq<ProcAction>)
    requires w < |s.procs| && StepsCanRun(s.procs[w], steps)
    ensures Leads(s, WorkerActs(w, steps), WithProc(s, w, AfterSteps(s.procs[w], steps)), [])
    decreases |steps|
  {
    if steps == [] {
      assert s.procs[w := s.procs[w]] == s.procs;
    } else {
      var a, t := Worker(w, steps[0]), IpcNext(s, Worker(w, steps[0]));
      LeadsOne(s, a);
      WorkerLeads(t, w, steps[1..]);
      var u := WithProc(s, w, AfterSteps(s.procs[w], steps));
      assert WithProc(t, w, AfterSteps(t.procs[w], steps[1..])) == u;
      LeadsOn(s, [a], t, [], WorkerActs(w, steps[1..]), u, []);
    }
  }

  // --- a call -------------------------------------------------------------------------------------

  predicate InPolling(s: Ipc) {
    s.phase.Polling? && s.phase.p < |s.procs| && InOrder(s.procs[s.phase.p])
  }

  /** From `s` to `t`, the call of `s` has ended as the scan did: with its outcome and no other, the queue that
      the scan leaves, and the handle kept or dropped with its pipes closed. */
  predicate EndsLike(s: Ipc, t: Ipc, ys: seq<Outcome>, end: End, rest: seq<Item>, code: string)
    requires InPolling(s)
  {
    var w, call := s.phase.p, s.phase.call;
    && w < |t.procs| && InOrder(t.procs[w])
    && ys == YieldOf(OutcomeOf(end, code, call.corr))
    && t.phase == (if end == Pending then Polling(w, call) else Idle)
    && (end != EofSeen ==> QueueOf(t.procs[w]) == rest)
    && (if end == Pending || end.Answered? then t.current == s.current
        else t.current == (if s.current == Some(w) then None else s.current)
             && !t.procs[w].stdinOpen && !t.procs[w].stdoutOpen)
  }

  lemma CanceledPassEnds(s: Ipc, killed: bool, code: string)
    requires InPolling(s)
    ensures IpcEnabled(s, Poll(true, killed))
    ensures EndsLike(s, IpcNext(s, Poll(true, killed)), YieldOf(Yield(s, Poll(true, killed))),
                     CancelSeen, QueueOf(s.procs[s.phase.p]), code)
  {
  }

  /** The two steps of a pass, on a worker whose arrivals are already queued. */
  lemma TwoStepsLead(s: Ipc, killed: bool, code: string)
    requires InPolling(s)
    ensures var w := s.phase.p;
      var (end, rest) := Scan(QueueOf(s.procs[w]), [Tick(false, [])]);
      var t := IpcNext(s, Poll(false, killed));
      var get := GetStep(s.procs[w], code);
      && IpcEnabled(t, get)
      && Leads(s, [Poll(false, killed)] + [get], IpcNext(t, get), YieldOf(OutcomeOf(end, code, s.phase.call.corr)))
      && EndsLike(s, IpcNext(t, get), YieldOf(OutcomeOf(end, code, s.phase.call.corr)), end, rest, code)
      && (end == Pending ==> IpcNext(t, get) == WithProc(s, w, Dequeued(s.procs[w])))
  {
    var t := IpcNext(s, Poll(false, killed));
    var get := GetStep(s.procs[s.phase.p], code);
    PassIsTwoSteps(s, killed, code);
    LeadsOne(s, Poll(false, killed));
    LeadsOne(t, get);
    LeadsOn(s, [Poll(false, killed)], t, [], [get], IpcNext(t, get), YieldOf(Yield(t, get)));
    GetStepEffect(s, t, code);
  }

  lemma GetStepEffect(s: Ipc, t: Ipc, code: string)
    requires InPolling(s) && t == s.(phase := Getting(s.phase.p, s.phase.call))
    requires IpcEnabled(t, GetStep(s.procs[s.phase.p], code))
    ensures var w := s.phase.p;
      var get := GetStep(s.procs[w], code);
      var u := IpcNext(t, get);
      && w < |u.procs| && InOrder(u.procs[w])
      && (get.GetEof? ==> u == Reap(t, w).(phase := Idle) && Yield(t, get).Some?)
      && (!get.GetEof? ==> u.current == s.current)
      && (Yield(t, get).Some? <==> u.phase == Idle)
      && (Yield(t, get) == None ==> u == WithProc(s, w, Dequeued(s.procs[w])))
  {
    assert s.procs[s.phase.p := s.procs[s.phase.p]] == s.procs;
  }

  /** A whole pass: the worker's steps, then the two steps of the client. */
  lemma PassLeads(s: Ipc, pass: Pass, code: string) returns (acts: seq<IpcAction>, t: Ipc)
    requires InPolling(s) && !pass.cancel && StepsCanRun(s.procs[s.phase.p], pass.steps)
    ensures var p := s.procs[s.phase.p];
      var (end, rest) := Scan(QueueOf(p), [Tick(false, Arrived(p, pass.steps))]);
      && Leads(s, acts, t, YieldOf(OutcomeOf(end, code, s.phase.call.corr)))
      && EndsLike(s, t, YieldOf(OutcomeOf(end, code, s.phase.call.corr)), end, rest, code)
      && (end == Pending ==> t == WithProc(s, s.phase.p, Dequeued(AfterSteps(p, pass.steps))))
  {
    var w := s.phase.p;
    var q := AfterSteps(s.procs[w], pass.steps);
    var u := WithProc(s, w, q);
    var get := GetStep(q, code);
    StepsArrive(s.procs[w], pass.steps);
    WorkerLeads(s, w, pass.steps);
    ArrivalsFirst(QueueOf(s.procs[w]), Arrived(s.procs[w], pass.steps));
    TwoStepsLead(u, pass.killed, code);
    t := IpcNext(IpcNext(u, Poll(false, pass.killed)), get);
    acts := WorkerActs(w, pass.steps) + ([Poll(false, pass.killed)] + [get]);
    var ys := YieldOf(OutcomeOf(Scan(QueueOf(q), [Tick(false, [])]).0, code, s.phase.call.corr));
    LeadsOn(s, WorkerActs(w, pass.steps), u, [], [Poll(false, pass.killed)] + [get], t, ys);
    assert [] + ys == ys;
  }

  lemma ArrivalsFirst(q: seq<Item>, arrivals: seq<Item>)
    ensures Scan(q, [Tick(false, arrivals)]) == Scan(q + arrivals, [Tick(false, [])])
  {
    assert q + arrivals + [] == q + arrivals;
    assert [Tick(false, arrivals)][1..] == [] && [Tick(false, [])][1..] == [];
  }

  lemma {:induction false} LoopIsARun(s: Ipc, passes: seq<Pass>, code: string) returns (acts: seq<IpcAction>, t: Ipc)
    requires InPolling(s) && PassesCanRun(s.procs[s.phase.p], passes)
    ensures var p := s.procs[s.phase.p];
      var (end, rest) := Scan(QueueOf(p), Ticks(p, passes));
      && Leads(s, acts, t, YieldOf(OutcomeOf(end, code, s.phase.call.corr)))
      && EndsLike(s, t, YieldOf(OutcomeOf(end, code, s.phase.call.corr)), end, rest, code)
    decreases |passes|
  {
    var p := s.procs[s.phase.p];
    if passes == [] {
      acts, t := [], s;
    } else if passes[0].cancel {
      var poll := Poll(true, passes[0].killed);
      acts, t := [poll], IpcNext(s, poll);
      CanceledPassEnds(s, passes[0].killed, code);
      LeadsOne(s, poll);
    } else {
      var tick := Tick(false, Arrived(p, passes[0].steps));
      var next := Dequeued(AfterSteps(p, passes[0].steps));
      acts, t := PassLeads(s, passes[0], code);
      ScanContinues(QueueOf(p), [tick], Ticks(next, passes[1..]));
      if Scan(QueueOf(p), [tick]).0 == Pending {
        var more, u := LoopIsARun(t, passes[1..], code);
        LeadsOn(s, acts, t, [], more, u, Yields(t, more));
        assert [] + Yields(t, more) == Yields(t, more);
        acts, t := acts + more, u;
      }
    }
  }

  /** The current handle's stdin has not been closed. */
  predicate HandleOpen(s: Ipc) {
    s.current.Some? ==> s.current.value < |s.procs| && s.procs[s.current.value].stdinOpen
  }

  lemma HandleStaysOpen(s: Ipc, a: IpcAction)
    requires HandleOpen(s) && IpcEnabled(s, a)
    ensures HandleOpen(IpcNext(s, a))
  {
    if a.Begin? || a.NoWorker? {
      SpawnLeavesOpen(s, a);
    } else if a.Worker? {
      WorkerLeavesOpen(s.procs[a.w], a.step);
    } else if a.SendFails? || a.Poll? || a.GetEof? || a.LateReap? {
      ReapLeavesOpen(s, a);
    } else {
      TrafficLeavesOpen(s, a);
    }
  }

  lemma SpawnLeavesOpen(s: Ipc, a: IpcAction)
    requires HandleOpen(s) && IpcEnabled(s, a) && (a.Begin? || a.NoWorker?)
    ensures HandleOpen(IpcNext(s, a))
  {
  }

  lemma WorkerLeavesOpen(p: Proc, step: ProcAction)
    requires ProcEnabled(p, step)
    ensures ProcNext(p, step).stdinOpen == p.stdinOpen
  {
  }

  lemma ReapLeavesOpen(s: Ipc, a: IpcAction)
    requires HandleOpen(s) && IpcEnabled(s, a) && (a.SendFails? || a.Poll? || a.GetEof? || a.LateReap?)
    ensures HandleOpen(IpcNext(s, a))
  {
  }

  lemma TrafficLeavesOpen(s: Ipc, a: IpcAction)
    requires HandleOpen(s) && IpcEnabled(s, a)
    requires a.Send? || a.GetTimesOut? || a.GetLine? || a.SendShutdown?
    ensures HandleOpen(IpcNext(s, a))
  {
  }

  lemma {:induction false} HandlesStayOpen(s: Ipc, acts: seq<IpcAction>)
    requires HandleOpen(s) && IpcCanRun(s, acts)
    ensures HandleOpen(IpcRun(s, acts))
    decreases |acts|
  {
    if acts != [] {
      HandleStaysOpen(s, acts[0]);
      HandlesStayOpen(IpcNext(s, acts[0]), acts[1..]);
    }
  }

  /** The state in which the command has been written. */
  function AfterSend(s: Ipc, call: Call): Ipc
    requires IpcEnabled(s, Begin(call)) && IpcEnabled(IpcNext(s, Begin(call)), Send)
  {
    IpcNext(IpcNext(s, Begin(call)), Send)
  }

  /** From `s` to `t` exactly these lines were written to the stdin of worker `w`, which may be a new one. */
  predicate HasWritten(s: Ipc, t: Ipc, w: nat, lines: seq<CmdLine>) {
    w < |t.procs| && t.procs[w].stdin == (if w < |s.procs| then s.procs[w].stdin else []) + lines
  }

  lemma SendWrites(s: Ipc, call: Call)
    requires IpcInv(s) && IpcEnabled(s, Begin(call)) && IpcEnabled(IpcNext(s, Begin(call)), Send)
    ensures HasWritten(s, AfterSend(s, call), AfterSend(s, call).phase.p, [Cmd(Render(Str(call.corr), call.payload))])
  {
  }

  lemma FailedSendWrites(s: Ipc, call: Call, reach: Reach, code: string, why: string)
    requires IpcInv(s) && IpcEnabled(s, Begin(call))
    requires IpcEnabled(IpcNext(s, Begin(call)), SendFails(reach, code, why))
    ensures var t := IpcNext(s, Begin(call));
      HasWritten(s, IpcNext(t, SendFails(reach, code, why)), t.phase.p,
                 if reach == Nothing then [] else if reach == Part then [Malformed]
                 else [Cmd(Render(Str(call.corr), call.payload))])
  {
  }

  lemma NoWorkerIsARun(s: Ipc, leaked: bool, why: string)
    requires IpcInv(s) && s.phase == Idle && !Alive(s)
    ensures var t := IpcNext(s, NoWorker(leaked, why));
      && Leads(s, [NoWorker(leaked, why)], t, [Raised(why)])
      && t.current == None && |t.procs| == |s.procs| + (if leaked then 1 else 0)
  {
    LeadsOne(s, NoWorker(leaked, why));
    DropDeadKeeps(s);
  }

  lemma BeginAndSend(s: Ipc, call: Call)
    requires IpcInv(s) && IpcEnabled(s, Begin(call))
    requires HandleOpen(s)
    ensures IpcEnabled(IpcNext(s, Begin(call)), Send)
    ensures Leads(s, [Begin(call)] + [Send], AfterSend(s, call), [])
    ensures InPolling(AfterSend(s, call)) && AfterSend(s, call).phase.call == call
    ensures AfterSend(s, call).current == Some(AfterSend(s, call).phase.p)
    ensures QueueOf(AfterSend(s, call).procs[AfterSend(s, call).phase.p]) ==
      if Alive(s) && InOrder(s.procs[s.current.value]) then QueueOf(s.procs[s.current.value]) else []
  {
    var t := IpcNext(s, Begin(call));
    IpcNextKeeps(s, Begin(call));
    LeadsOne(s, Begin(call));
    LeadsOne(t, Send);
    LeadsOn(s, [Begin(call)], t, [], [Send], IpcNext(t, Send), []);
  }

  /** One call of `render`, from the free lock to its end: for every worker, every schedule of passes and
      everything the worker and its reader do meanwhile, the step system has a run that begins and sends, and
      then ends exactly as the class's read loop does on the items that arrive. */
  lemma RenderIsARun(s: Ipc, call: Call, passes: seq<Pass>, code: string) returns (acts: seq<IpcAction>, t: Ipc)
    requires IpcInv(s) && IpcEnabled(s, Begin(call))
    requires HandleOpen(s)
    requires IpcEnabled(IpcNext(s, Begin(call)), Send)
    requires var u := AfterSend(s, call); InPolling(u) && PassesCanRun(u.procs[u.phase.p], passes)
    ensures var u := AfterSend(s, call);
      var p := u.procs[u.phase.p];
      var start := if Alive(s) && InOrder(s.procs[s.current.value]) then QueueOf(s.procs[s.current.value]) else [];
      var (end, rest) := Scan(start, Ticks(p, passes));
      && HasWritten(s, u, u.phase.p, [Cmd(Render(Str(call.corr), call.payload))])
      && [Begin(call)] + [Send] <= acts
      && Leads(s, acts, t, YieldOf(OutcomeOf(end, code, call.corr)))
      && EndsLike(u, t, YieldOf(OutcomeOf(end, code, call.corr)), end, rest, code)
  {
    var u := AfterSend(s, call);
    BeginAndSend(s, call);
    SendWrites(s, call);
    var more;
    more, t := LoopIsARun(u, passes, code);
    acts := [Begin(call)] + [Send] + more;
    LeadsOn(s, [Begin(call)] + [Send], u, [], more, t, Yields(u, more));
    assert [] + Yields(u, more) == Yields(u, more);
  }

  /** The ends of a call that never reads: no worker can be spawned, or the command cannot be written. */
  lemma UnreadCallIsARun(s: Ipc, call: Call, leaked: bool, reach: Reach, code: string, why: string)
    requires IpcInv(s) && HandleOpen(s) && IpcEnabled(s, Begin(call))
    ensures !Alive(s) ==>
      Leads(s, [NoWorker(leaked, why)], IpcNext(s, NoWorker(leaked, why)), [Raised(why)])
    ensures !Alive(s) ==> IpcNext(s, NoWorker(leaked, why)).current == None
    ensures !Alive(s) ==> |IpcNext(s, NoWorker(leaked, why)).procs| == |s.procs| + (if leaked then 1 else 0)
    ensures var t := IpcNext(s, Begin(call));
      && IpcEnabled(t, SendFails(reach, code, why))
      && Leads(s, [Begin(call)] + [SendFails(reach, code, why)], IpcNext(t, SendFails(reach, code, why)),
               [Raised(UnavailableText(code, call.corr, why))])
      && IpcNext(t, SendFails(reach, code, why)).current == None
      && HasWritten(s, IpcNext(t, SendFails(reach, code, why)), t.phase.p,
                    if reach == Nothing then [] else if reach == Part then [Malformed]
                    else [Cmd(Render(Str(call.corr), call.payload))])
  {
    if !Alive(s) {
      NoWorkerIsARun(s, leaked, why);
    }
    var t := IpcNext(s, Begin(call));
    var fails, u := SendFails(reach, code, why), IpcNext(t, SendFails(reach, code, why));
    var ys := [Raised(UnavailableText(code, call.corr, why))];
    IpcNextKeeps(s, Begin(call));
    HandleStaysOpen(s, Begin(call));
    FailedSendWrites(s, call, reach, code, why);
    LeadsOne(s, Begin(call));
    LeadsOne(t, fails);
    LeadsOn(s, [Begin(call)], t, [], [fails], u, ys);
    assert [] + ys == ys;
  }
}
