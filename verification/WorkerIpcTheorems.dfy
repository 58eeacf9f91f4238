/** Why the client may skip the comparison of job ids: invariants and theorems of the step system. */
module WorkerIpcTheorems {
  import opened Common
  import opened RenderWorker
  import opened WorkerProcess
  import opened Jobs
  import opened WorkerIpc

  // --- facts about one worker ----------------------------------------------------------------------

  /** `q` is `p` later on. */
  predicate Extends(p: Proc, q: Proc) {
    p.ran <= q.ran && p.done <= q.done
  }

  lemma {:induction false} EventsConcat(a: seq<Line>, b: seq<Line>)
    ensures Events(a + b) == Events(a) + Events(b)
  {
    if b == [] {
      assert a + b == a;
    } else {
      assert (a + b)[..|a + b| - 1] == a + b[..|b| - 1];
      EventsConcat(a, b[..|b| - 1]);
    }
  }

  lemma RendersPrefix(a: seq<CmdLine>, b: seq<CmdLine>)
    requires a <= b
    ensures Renders(a) <= Renders(b)
  {
    assert b == a + b[|a|..];
    RendersConcat(a, b[|a|..]);
  }

  /** Nothing the child, its reader or a signal does touches what was sent or dequeued. */
  lemma WorkerStepFrame(p: Proc, a: ProcAction)
    requires p.taken <= |p.stdout| && ProcEnabled(p, a)
    ensures var q := ProcNext(p, a);
      q.stdin == p.stdin && q.taken == p.taken && p.stdout <= q.stdout && Extends(p, q)
      && Taken(q) == Taken(p)
  {
    var q := ProcNext(p, a);
    assert q.stdout[..q.taken] == p.stdout[..p.taken];
  }

  lemma DequeueEffect(p: Proc)
    requires p.taken < |p.stdout|
    ensures Taken(p.(taken := p.taken + 1)) ==
      Taken(p) + (if p.stdout[p.taken].Protocol? && IsTerminal(p.stdout[p.taken].event)
                  then [p.stdout[p.taken].event] else [])
  {
    assert p.stdout[..p.taken + 1] == p.stdout[..p.taken] + [p.stdout[p.taken]];
    AnswersAppend(p.stdout[..p.taken], p.stdout[p.taken]);
  }

  lemma AnswersAppend(ls: seq<Line>, line: Line)
    ensures Terminals(Events(ls + [line])) ==
      Terminals(Events(ls)) + (if line.Protocol? && IsTerminal(line.event) then [line.event] else [])
  {
    EventsAppend(ls, line);
    if line.Protocol? {
      TerminalsAppend(Events(ls), line.event);
    } else {
      assert Events(ls) + [] == Events(ls) && Terminals(Events(ls)) + [] == Terminals(Events(ls));
    }
  }

  lemma TerminalsAppend(es: seq<Event>, e: Event)
    ensures Terminals(es + [e]) == Terminals(es) + (if IsTerminal(e) then [e] else [])
  {
    assert (es + [e])[..|es|] == es;
  }

  /** The answers written so far are those dequeued followed by those still on their way. */
  lemma TakenThenRest(p: Proc)
    requires p.taken <= |p.stdout|
    ensures Terminals(Events(p.stdout)) == Taken(p) + Terminals(Events(p.stdout[p.taken..]))
  {
    var a, b := p.stdout[..p.taken], p.stdout[p.taken..];
    assert p.stdout == a + b;
    EventsConcat(a, b);
    TerminalsConcat(Events(a), Events(b));
  }

  /** The dequeued answers are the first answers of the trace, so they cannot outnumber the commands
      that were executed. */
  lemma TakenIsPrefix(p: Proc)
    requires ProcValid(p)
    ensures Taken(p) <= Answers(Started(p)[..|p.done|], p.done)
    ensures |Taken(p)| <= |p.done|
    ensures Started(p) <= Renders(p.stdin)
  {
    AnswersMatchCommands(p);
    TakenThenRest(p);
    RendersPrefix(p.stdin[..p.read], p.stdin);
  }

  lemma {:induction false} AnswerAt(cs: seq<RenderCmd>, bs: seq<Behaviour>, k: nat)
    requires |cs| == |bs| && k < |cs|
    ensures Answers(cs, bs)[k] == TerminalEvent(cs[k].job, bs[k].outcome)
  {
    if k < |cs| - 1 {
      AnswerAt(cs[..|cs| - 1], bs[..|bs| - 1], k);
    }
  }

  /** The heart of the matter: while one command is unanswered, the next answer to be dequeued can
      only be the answer to that command. */
  lemma NextAnswerIsOwn(p: Proc, call: Call)
    requires ProcValid(p) && Awaiting(p, call) && p.taken < |p.stdout|
    requires p.stdout[p.taken].Protocol? && IsTerminal(p.stdout[p.taken].event)
    ensures var n := |Taken(p)|;
      && n + 1 == |p.done| == |p.ran|
      && p.ran[n] == RenderCmd(Str(call.corr), AsDict(call.payload))
      && p.stdout[p.taken].event == TerminalEvent(Str(call.corr), p.done[n].outcome)
  {
    var n := |Taken(p)|;
    var ev := p.stdout[p.taken].event;
    DequeueEffect(p);
    TakenNextIsPrefix(p);
    TakenIsPrefix(p);
    var answers := Answers(Started(p)[..|p.done|], p.done);
    assert (Taken(p) + [ev])[n] == ev;
    assert answers[n] == ev;
    AnswerAt(Started(p)[..|p.done|], p.done, n);
    assert Started(p)[..|p.done|][n] == Started(p)[n] == Renders(p.stdin)[n];
  }

  lemma TakenNextIsPrefix(p: Proc)
    requires ProcValid(p) && p.taken < |p.stdout|
    ensures Taken(p.(taken := p.taken + 1)) <= Answers(Started(p)[..|p.done|], p.done)
  {
    AnswersMatchCommands(p);
    TakenThenRest(p.(taken := p.taken + 1));
  }

  // --- every step keeps the invariant --------------------------------------------------------------

  lemma RenderOfCommand(c: Call)
    ensures RenderOf(CommandLine(c)) == [RenderCmd(Str(c.corr), AsDict(c.payload))]
  {
  }

  /** Writing non-render lines, closing pipes, or dying changes neither commands nor answers. */
  predicate SameTraffic(p: Proc, q: Proc) {
    Renders(q.stdin) == Renders(p.stdin) && Taken(q) == Taken(p)
  }

  /** Lines written after everything the child has read do not disturb it. */
  lemma WriteKeeps(p: Proc, c: CmdLine)
    requires ProcValid(p)
    ensures ProcValid(p.(stdin := p.stdin + [c]))
    ensures Renders(p.stdin + [c]) == Renders(p.stdin) + RenderOf(c)
  {
    assert (p.stdin + [c])[..p.read] == p.stdin[..p.read];
    RendersAppend(p.stdin, c);
  }

  /** Replacing one worker by a later version of itself with the same commands. */
  lemma ReplaceKeepsSlots(s: Ipc, w: nat, q: Proc)
    requires SlotsOk(s) && w < |s.procs| && Renders(q.stdin) == Renders(s.procs[w].stdin)
    ensures SlotsOk(s.(procs := s.procs[w := q]))
  {
    var t := s.(procs := s.procs[w := q]);
    forall v, k | 0 <= v < |t.procs| && 0 <= k < |Renders(t.procs[v].stdin)|
      ensures SitsInItsSlot(t, v, k)
    {
      assert SitsInItsSlot(s, v, k);
    }
  }

  lemma ReplaceKeepsPhase(s: Ipc, w: nat, q: Proc)
    requires PhaseOk(s) && w < |s.procs| && SameTraffic(s.procs[w], q)
    ensures PhaseOk(s.(procs := s.procs[w := q]))
  {
    var t := s.(procs := s.procs[w := q]);
    assert forall v :: 0 <= v < |s.procs| ==> SameTraffic(s.procs[v], t.procs[v]);
    match s.phase
    case Idle =>
    case Holding(p, _) => assert SameTraffic(s.procs[p], t.procs[p]);
    case Polling(p, _) => assert SameTraffic(s.procs[p], t.procs[p]);
    case Getting(p, _) => assert SameTraffic(s.procs[p], t.procs[p]);
  }

  lemma ReplaceKeeps(s: Ipc, w: nat, q: Proc)
    requires IpcInv(s) && w < |s.procs| && ProcValid(q) && SameTraffic(s.procs[w], q)
    ensures IpcInv(s.(procs := s.procs[w := q]))
  {
    ReplaceKeepsSlots(s, w, q);
    ReplaceKeepsPhase(s, w, q);
  }

  lemma ReapKeepsSlots(s: Ipc, w: nat)
    requires SlotsOk(s) && w < |s.procs|
    ensures SlotsOk(Reap(s, w))
  {
    ReplaceKeepsSlots(s, w, ClosePipes(s.procs[w]));
    var t := s.(procs := s.procs[w := ClosePipes(s.procs[w])]);
    forall v, k | 0 <= v < |t.procs| && 0 <= k < |Renders(t.procs[v].stdin)|
      ensures SitsInItsSlot(Reap(s, w), v, k)
    {
      assert SitsInItsSlot(t, v, k);
    }
  }

  lemma CloseKeepsProc(p: Proc)
    requires ProcValid(p)
    ensures ProcValid(ClosePipes(p)) && SameTraffic(p, ClosePipes(p))
  {
    assert Started(ClosePipes(p)) == Started(p);
  }

  lemma ReapKeepsProcs(s: Ipc, w: nat)
    requires w < |s.procs| && forall v :: 0 <= v < |s.procs| ==> ProcValid(s.procs[v])
    ensures forall v :: 0 <= v < |s.procs| ==> ProcValid(Reap(s, w).procs[v])
    ensures forall v :: 0 <= v < |s.procs| ==> SameTraffic(s.procs[v], Reap(s, w).procs[v])
  {
    CloseKeepsProc(s.procs[w]);
  }

  lemma SpawnedIsValid()
    ensures ProcValid(SPAWNED) && Quiet(SPAWNED)
  {
    assert SPAWNED.stdin[..0] == [] && SPAWNED.stdout[..0] == [];
  }

  lemma SpawnKeepsSlots(s: Ipc, current: Option<nat>)
    requires SlotsOk(s)
    ensures SlotsOk(s.(procs := s.procs + [SPAWNED], current := current))
  {
    var u := s.(procs := s.procs + [SPAWNED], current := current);
    forall v, k | 0 <= v < |u.procs| && 0 <= k < |Renders(u.procs[v].stdin)|
      ensures SitsInItsSlot(u, v, k)
    {
      assert SitsInItsSlot(s, v, k);
    }
  }

  lemma SpawnKeeps(s: Ipc)
    requires SlotsOk(s) && s.phase == Idle
    requires forall v :: 0 <= v < |s.procs| ==> ProcValid(s.procs[v])
    ensures var u := s.(procs := s.procs + [SPAWNED], current := Some(|s.procs|));
      IpcInv(u) && Quiet(u.procs[u.current.value])
  {
    SpawnedIsValid();
    SpawnKeepsSlots(s, Some(|s.procs|));
  }

  lemma DropDeadKeeps(s: Ipc)
    requires IpcInv(s) && s.phase == Idle
    ensures IpcInv(DropDead(s)) && DropDead(s).current == None
    ensures DropDead(s).phase == Idle && DropDead(s).slots == s.slots
  {
    if s.current.Some? {
      ReapKeepsProcs(s, s.current.value);
      ReapKeepsSlots(s, s.current.value);
    }
  }

  /** Even a process that was started and then lost its reader thread does no harm: no handle refers to it. */
  lemma NoWorkerKeeps(s: Ipc, leaked: bool, why: string)
    requires IpcInv(s) && IpcEnabled(s, NoWorker(leaked, why))
    ensures IpcInv(IpcNext(s, NoWorker(leaked, why)))
  {
    DropDeadKeeps(s);
    if leaked {
      SpawnedIsValid();
      SpawnKeepsSlots(DropDead(s), None);
    }
  }

  lemma LiveWorkerKeeps(s: Ipc)
    requires IpcInv(s) && s.phase == Idle
    ensures var t := LiveWorker(s);
      && IpcInv(t) && t.phase == Idle && t.slots == s.slots
      && Quiet(t.procs[t.current.value])
  {
    if !Alive(s) {
      DropDeadKeeps(s);
      SpawnKeeps(DropDead(s));
    }
  }

  lemma BeginKeeps(s: Ipc, call: Call)
    requires IpcInv(s) && IpcEnabled(s, Begin(call))
    ensures IpcInv(IpcNext(s, Begin(call)))
  {
    LiveWorkerKeeps(s);
    var t := LiveWorker(s);
    var slot := (t.current.value, |Renders(t.procs[t.current.value].stdin)|);
    NewSlotKeepsSlots(t, call.corr, slot);
    SlotsIgnorePhase(t.(slots := t.slots[call.corr := slot]), Holding(t.current.value, call));
  }

  lemma NewSlotKeepsSlots(s: Ipc, corr: string, slot: (nat, nat))
    requires SlotsOk(s) && corr !in s.slots && slot.0 < |s.procs|
    ensures SlotsOk(s.(slots := s.slots[corr := slot]))
  {
    var u := s.(slots := s.slots[corr := slot]);
    forall v, k | 0 <= v < |u.procs| && 0 <= k < |Renders(u.procs[v].stdin)|
      ensures SitsInItsSlot(u, v, k)
    {
      assert SitsInItsSlot(s, v, k);
    }
  }

  lemma WriteOwnKeepsSlots(s: Ipc, w: nat, call: Call)
    requires SlotsOk(s) && w < |s.procs|
    requires call.corr in s.slots && s.slots[call.corr] == (w, |Renders(s.procs[w].stdin)|)
    ensures SlotsOk(Write(s, w, [CommandLine(call)]))
  {
    var t := Write(s, w, [CommandLine(call)]);
    var cs := Renders(s.procs[w].stdin);
    RendersAppend(s.procs[w].stdin, CommandLine(call));
    RenderOfCommand(call);
    assert Renders(t.procs[w].stdin) == cs + [RenderCmd(Str(call.corr), AsDict(call.payload))];
    forall v, k | 0 <= v < |t.procs| && 0 <= k < |Renders(t.procs[v].stdin)|
      ensures SitsInItsSlot(t, v, k)
    {
      if v != w {
        assert SitsInItsSlot(s, v, k);
      } else if k < |cs| {
        assert SitsInItsSlot(s, w, k);
      }
    }
  }

  lemma WriteKeepsProcs(s: Ipc, w: nat, line: CmdLine)
    requires w < |s.procs| && forall v :: 0 <= v < |s.procs| ==> ProcValid(s.procs[v])
    ensures forall v :: 0 <= v < |s.procs| ==> ProcValid(Write(s, w, [line]).procs[v])
  {
    WriteKeeps(s.procs[w], line);
  }

  /** A quiet worker that is sent one command awaits that command. */
  lemma QuietThenAwaiting(p: Proc, call: Call)
    requires Quiet(p)
    ensures var q := p.(stdin := p.stdin + [CommandLine(call)]);
      Awaiting(q, call) && |Renders(q.stdin)| == |Renders(p.stdin)| + 1
  {
    RendersAppend(p.stdin, CommandLine(call));
    RenderOfCommand(call);
    assert Taken(p.(stdin := p.stdin + [CommandLine(call)])) == Taken(p);
  }

  lemma SendKeepsPhase(s: Ipc)
    requires PhaseOk(s) && IpcEnabled(s, Send)
    ensures PhaseOk(IpcNext(s, Send))
  {
    QuietThenAwaiting(s.procs[s.phase.p], s.phase.call);
  }

  lemma SendKeeps(s: Ipc)
    requires IpcInv(s) && IpcEnabled(s, Send)
    ensures IpcInv(IpcNext(s, Send))
  {
    var p, call := s.phase.p, s.phase.call;
    WriteKeepsProcs(s, p, CommandLine(call));
    WriteOwnKeepsSlots(s, p, call);
    SlotsIgnorePhase(Write(s, p, [CommandLine(call)]), Polling(p, call));
    SendKeepsPhase(s);
  }

  lemma SlotsIgnorePhase(s: Ipc, phase: Phase)
    requires SlotsOk(s)
    ensures SlotsOk(s.(phase := phase))
  {
    var t := s.(phase := phase);
    forall v, k | 0 <= v < |t.procs| && 0 <= k < |Renders(t.procs[v].stdin)|
      ensures SitsInItsSlot(t, v, k)
    {
      assert SitsInItsSlot(s, v, k);
    }
  }

  /** Every exit that reaps leaves no current handle, so nothing more is asked of the worker. */
  lemma ReapAndLeave(s: Ipc, w: nat)
    requires w < |s.procs| && (s.current == None || s.current == Some(w))
    requires (forall v :: 0 <= v < |s.procs| ==> ProcValid(s.procs[v])) && SlotsOk(s)
    ensures IpcInv(Reap(s, w).(phase := Idle)) && Reap(s, w).current == None
  {
    ReapKeepsProcs(s, w);
    ReapKeepsSlots(s, w);
    SlotsIgnorePhase(Reap(s, w), Idle);
  }

  /** Whatever part of the command reached the pipe, its bookkeeping stays in order. */
  lemma PartialWriteKeeps(s: Ipc, reach: Reach)
    requires IpcInv(s) && s.phase.Holding?
    ensures var t := Write(s, s.phase.p, Reached(reach, s.phase.call));
      SlotsOk(t) && forall v :: 0 <= v < |t.procs| ==> ProcValid(t.procs[v])
  {
    var w, call := s.phase.p, s.phase.call;
    match reach
    case Nothing => EmptyWrite(s, w);
    case Part =>
      WriteKeepsProcs(s, w, Malformed);
      PartKeepsSlots(s, w);
    case Everything =>
      WriteKeepsProcs(s, w, CommandLine(call));
      WriteOwnKeepsSlots(s, w, call);
  }

  lemma EmptyWrite(s: Ipc, w: nat)
    requires w < |s.procs|
    ensures Write(s, w, []) == s
  {
    assert s.procs[w].stdin + [] == s.procs[w].stdin;
    assert s.procs[w := s.procs[w]] == s.procs;
  }

  lemma PartKeepsSlots(s: Ipc, w: nat)
    requires SlotsOk(s) && w < |s.procs|
    ensures SlotsOk(Write(s, w, [Malformed]))
  {
    var p := s.procs[w];
    RendersAppend(p.stdin, Malformed);
    assert Renders(p.stdin) + [] == Renders(p.stdin);
    ReplaceKeepsSlots(s, w, p.(stdin := p.stdin + [Malformed]));
  }

  lemma SendFailsKeeps(s: Ipc, reach: Reach, code: string, why: string)
    requires IpcInv(s) && IpcEnabled(s, SendFails(reach, code, why))
    ensures IpcInv(IpcNext(s, SendFails(reach, code, why)))
  {
    PartialWriteKeeps(s, reach);
    ReapAndLeave(Write(s, s.phase.p, Reached(reach, s.phase.call)), s.phase.p);
  }

  lemma DeathKeepsProc(p: Proc)
    requires ProcValid(p)
    ensures ProcValid(p.(child := Exited))
  {
    assert Started(p.(child := Exited)) == Started(p);
  }

  lemma PollKeeps(s: Ipc, cancel: bool, killed: bool)
    requires IpcInv(s) && IpcEnabled(s, Poll(cancel, killed))
    ensures IpcInv(IpcNext(s, Poll(cancel, killed)))
  {
    if cancel {
      var p := s.procs[s.phase.p];
      var q := if killed then p.(child := Exited) else p;
      DeathKeepsProc(p);
      ReplaceKeepsSlots(s, s.phase.p, q);
      ReplaceKeepsProcs(s, s.phase.p, q);
      ReapAndLeave(s.(procs := s.procs[s.phase.p := q]), s.phase.p);
    } else {
      SlotsIgnorePhase(s, Getting(s.phase.p, s.phase.call));
    }
  }

  lemma VerdictIsTerminal(l: Line)
    ensures Verdict(l).Some? <==> l.Protocol? && IsTerminal(l.event)
  {
  }

  /** Dequeuing an answer leaves the worker quiet; any other line leaves it awaited. */
  lemma DequeueTraffic(p: Proc, call: Call)
    requires Awaiting(p, call) && p.taken < |p.stdout|
    ensures var q := p.(taken := p.taken + 1);
      if Verdict(p.stdout[p.taken]).Some? then Quiet(q) else Awaiting(q, call)
  {
    DequeueEffect(p);
    VerdictIsTerminal(p.stdout[p.taken]);
  }

  lemma DequeueKeepsPhase(s: Ipc)
    requires PhaseOk(s) && IpcEnabled(s, GetLine)
    ensures PhaseOk(IpcNext(s, GetLine))
  {
    var w, call, t := s.phase.p, s.phase.call, IpcNext(s, GetLine);
    var p := s.procs[w];
    DequeueTraffic(p, call);
    assert t.procs[w] == p.(taken := p.taken + 1);
    if Verdict(p.stdout[p.taken]).Some? {
      assert t.phase == Idle;
    } else {
      assert InFlight(t, w, call);
    }
  }

  lemma DequeueKeepsProc(p: Proc)
    requires ProcValid(p) && p.taken < p.pumped
    ensures ProcValid(p.(taken := p.taken + 1))
  {
    assert Started(p.(taken := p.taken + 1)) == Started(p);
  }

  lemma ReplaceKeepsProcs(s: Ipc, w: nat, q: Proc)
    requires w < |s.procs| && ProcValid(q) && forall v :: 0 <= v < |s.procs| ==> ProcValid(s.procs[v])
    ensures var t := s.(procs := s.procs[w := q]);
      forall v :: 0 <= v < |t.procs| ==> ProcValid(t.procs[v])
  {
  }

  lemma GetLineKeepsSlots(s: Ipc)
    requires SlotsOk(s) && IpcEnabled(s, GetLine)
    ensures SlotsOk(IpcNext(s, GetLine))
  {
    var w := s.phase.p;
    var q := s.procs[w].(taken := s.procs[w].taken + 1);
    ReplaceKeepsSlots(s, w, q);
    SlotsIgnorePhase(s.(procs := s.procs[w := q]), IpcNext(s, GetLine).phase);
  }

  lemma GetLineKeeps(s: Ipc)
    requires IpcInv(s) && IpcEnabled(s, GetLine)
    ensures IpcInv(IpcNext(s, GetLine))
  {
    DequeueKeepsPhase(s);
    GetLineKeepsSlots(s);
    GetLineKeepsProcs(s);
  }

  lemma GetLineKeepsProcs(s: Ipc)
    requires IpcEnabled(s, GetLine) && forall v :: 0 <= v < |s.procs| ==> ProcValid(s.procs[v])
    ensures var t := IpcNext(s, GetLine);
      && |t.procs| == |s.procs| && t.current == s.current
      && forall v :: 0 <= v < |t.procs| ==> ProcValid(t.procs[v])
  {
    var w, p := s.phase.p, s.procs[s.phase.p];
    DequeueKeepsProc(p);
    ReplaceKeepsProcs(s, w, p.(taken := p.taken + 1));
  }

  lemma WorkerKeeps(s: Ipc, w: nat, step: ProcAction)
    requires IpcInv(s) && IpcEnabled(s, Worker(w, step))
    ensures IpcInv(IpcNext(s, Worker(w, step)))
  {
    ProcNextKeeps(s.procs[w], step);
    WorkerStepFrame(s.procs[w], step);
    ReplaceKeeps(s, w, ProcNext(s.procs[w], step));
  }

  lemma SendShutdownKeeps(s: Ipc)
    requires IpcInv(s) && IpcEnabled(s, SendShutdown)
    ensures IpcInv(IpcNext(s, SendShutdown))
  {
    var w := s.current.value;
    var q := s.procs[w].(stdin := s.procs[w].stdin + [Cmd(Shutdown)]);
    WriteKeeps(s.procs[w], Cmd(Shutdown));
    assert Renders(q.stdin) == Renders(s.procs[w].stdin);
    assert Taken(q) == Taken(s.procs[w]);
    ReplaceKeeps(s, w, q);
  }

  lemma LateReapKeeps(s: Ipc, w: nat)
    requires IpcInv(s) && w < |s.procs|
    ensures IpcInv(Reap(s, w))
  {
    ReapKeepsProcs(s, w);
    ReapKeepsSlots(s, w);
  }

  lemma IpcNextKeeps(s: Ipc, a: IpcAction)
    requires IpcInv(s) && IpcEnabled(s, a)
    ensures IpcInv(IpcNext(s, a))
  {
    match a
    case Begin(call) => BeginKeeps(s, call);
    case NoWorker(leaked, why) => NoWorkerKeeps(s, leaked, why);
    case Send => SendKeeps(s);
    case SendFails(reach, code, why) => SendFailsKeeps(s, reach, code, why);
    case Poll(cancel, killed) => PollKeeps(s, cancel, killed);
    case GetTimesOut => SlotsIgnorePhase(s, Polling(s.phase.p, s.phase.call));
    case GetLine => GetLineKeeps(s);
    case GetEof(code) => ReapAndLeave(s, s.phase.p);
    case Worker(w, step) => WorkerKeeps(s, w, step);
    case SendShutdown => SendShutdownKeeps(s);
    case LateReap(w) => LateReapKeeps(s, w);
  }

  // --- runs ------------------------------------------------------------------------------------------

  ghost predicate IpcCanRun(s: Ipc, acts: seq<IpcAction>)
    decreases |acts|
  {
    acts == [] || (IpcEnabled(s, acts[0]) && IpcCanRun(IpcNext(s, acts[0]), acts[1..]))
  }

  ghost function IpcRun(s: Ipc, acts: seq<IpcAction>): Ipc
    requires IpcCanRun(s, acts)
    decreases |acts|
  {
    if acts == [] then s else IpcRun(IpcNext(s, acts[0]), acts[1..])
  }

  lemma {:induction false} IpcRunKeeps(s: Ipc, acts: seq<IpcAction>)
    requires IpcInv(s) && IpcCanRun(s, acts)
    ensures IpcInv(IpcRun(s, acts))
    decreases |acts|
  {
    if acts != [] {
      IpcNextKeeps(s, acts[0]);
      IpcRunKeeps(IpcNext(s, acts[0]), acts[1..]);
    }
  }

  // --- quiescence -------------------------------------------------------------------------------------

  /** Nothing of any call is left in the worker, in its pipes or in its reader queue. */
  ghost predicate Quiescent(p: Proc)
    requires p.read <= |p.stdin| && p.taken <= |p.stdout|
  {
    && Renders(p.stdin[p.read..]) == []
    && p.child != Executing
    && Terminals(Events(p.stdout[p.taken..])) == []
  }

  /** A quiet worker has executed every command it was ever sent. */
  lemma QuietHasFinished(p: Proc)
    requires ProcValid(p) && Quiet(p)
    ensures |p.done| == |Started(p)| && Started(p) == Renders(p.stdin)
    ensures |Taken(p)| == |p.done|
  {
    TakenIsPrefix(p);
  }

  lemma NoUnreadRenders(p: Proc)
    requires p.read <= |p.stdin| && Renders(p.stdin[..p.read]) == Renders(p.stdin)
    ensures Renders(p.stdin[p.read..]) == []
  {
    assert p.stdin == p.stdin[..p.read] + p.stdin[p.read..];
    RendersConcat(p.stdin[..p.read], p.stdin[p.read..]);
  }

  lemma NoUntakenAnswers(p: Proc)
    requires ProcValid(p) && |Taken(p)| == |p.done|
    ensures Terminals(Events(p.stdout[p.taken..])) == []
  {
    AnswersMatchCommands(p);
    TakenThenRest(p);
  }

  lemma QuietIsQuiescent(p: Proc)
    requires ProcValid(p) && Quiet(p)
    ensures Quiescent(p)
  {
    QuietHasFinished(p);
    NoUnreadRenders(p);
    NoUntakenAnswers(p);
  }

  /** Whenever the render lock is free and a handle is current, nothing is in flight. */
  lemma IdleHandleIsQuiescent(acts: seq<IpcAction>)
    requires IpcCanRun(NEW_IPC, acts)
    ensures var s := IpcRun(NEW_IPC, acts);
      s.phase == Idle && s.current.Some? ==>
        && s.current.value < |s.procs|
        && var p := s.procs[s.current.value];
           p.read <= |p.stdin| && p.taken <= |p.stdout| && Quiescent(p)
  {
    IpcRunKeeps(NEW_IPC, acts);
    var s := IpcRun(NEW_IPC, acts);
    if s.phase == Idle && s.current.Some? {
      QuietIsQuiescent(s.procs[s.current.value]);
    }
  }

  /** A call that ends leaves the lock free; a worker answer keeps the handle, every other end drops it. */
  lemma RenderExit(s: Ipc, a: IpcAction)
    requires IpcInv(s) && IpcEnabled(s, a) && Yield(s, a).Some?
    ensures IpcNext(s, a).phase == Idle
    ensures if a.GetLine? then IpcNext(s, a).current == s.current else IpcNext(s, a).current == None
  {
  }

  // --- matching ----------------------------------------------------------------------------------------

  /** What the caller gets from the terminal event of an execution. */
  lemma VerdictOfAnswer(job: Json, o: RunOutcome)
    ensures Verdict(Protocol(TerminalEvent(job, o))) == Some(Delivered(o))
  {
  }

  /** The execution whose answer is about to be dequeued. */
  lemma OwnExecution(s: Ipc) returns (o: RunOutcome)
    requires IpcInv(s) && IpcEnabled(s, GetLine) && Yield(s, GetLine).Some?
    ensures Executed(s, s.phase.call, o)
    ensures var p := s.procs[s.phase.p];
      p.stdout[p.taken] == Protocol(TerminalEvent(Str(s.phase.call.corr), o))
  {
    var p := s.procs[s.phase.p];
    VerdictIsTerminal(p.stdout[p.taken]);
    NextAnswerIsOwn(p, s.phase.call);
    o := p.done[|Taken(p)|].outcome;
  }

  /** Whatever line ends a call is the answer of that call's own command, executed by a worker on that
      call's own payload, although no id is compared. */
  lemma AnswerIsOwn(s: Ipc)
    requires IpcInv(s) && IpcEnabled(s, GetLine) && Yield(s, GetLine).Some?
    ensures exists o :: Executed(s, s.phase.call, o) && Yield(s, GetLine).value == Delivered(o)
  {
    var o := OwnExecution(s);
    VerdictOfAnswer(Str(s.phase.call.corr), o);
  }

  /** The event's job field, had it been compared, would always have agreed. */
  lemma JobFieldAlwaysAgrees(s: Ipc)
    requires IpcInv(s) && IpcEnabled(s, GetLine) && Yield(s, GetLine).Some?
    ensures var p := s.procs[s.phase.p];
      p.stdout[p.taken].event.job == Str(s.phase.call.corr)
  {
    var _ := OwnExecution(s);
  }

  /** For every run of any number of callers, workers, cancels, deaths and respawns. */
  lemma EveryAnswerIsOwn(acts: seq<IpcAction>)
    requires IpcCanRun(NEW_IPC, acts)
    ensures var s := IpcRun(NEW_IPC, acts);
      IpcEnabled(s, GetLine) && Yield(s, GetLine).Some? ==>
        exists o :: Executed(s, s.phase.call, o) && Yield(s, GetLine).value == Delivered(o)
  {
    IpcRunKeeps(NEW_IPC, acts);
    var s := IpcRun(NEW_IPC, acts);
    if IpcEnabled(s, GetLine) && Yield(s, GetLine).Some? {
      AnswerIsOwn(s);
    }
  }

  /** A call's command is written at most once, to one worker. */
  lemma CommandIsWrittenOnce(s: Ipc, w: nat, k: nat, w': nat, k': nat)
    requires IpcInv(s)
    requires w < |s.procs| && k < |Renders(s.procs[w].stdin)|
    requires w' < |s.procs| && k' < |Renders(s.procs[w'].stdin)|
    requires Renders(s.procs[w].stdin)[k].job == Renders(s.procs[w'].stdin)[k'].job
    ensures w == w' && k == k'
  {
    assert SitsInItsSlot(s, w, k) && SitsInItsSlot(s, w', k');
  }

  // --- the record of executions only grows --------------------------------------------------------------

  ghost predicate Grown(s: Ipc, t: Ipc) {
    && |s.procs| <= |t.procs|
    && (forall w :: 0 <= w < |s.procs| ==> Extends(s.procs[w], t.procs[w]))
    && (forall c :: c in s.slots ==> c in t.slots && t.slots[c] == s.slots[c])
  }

  lemma WritesGrow(s: Ipc, a: IpcAction)
    requires IpcEnabled(s, a) && (a.Send? || a.SendFails? || a.SendShutdown?)
    ensures Grown(s, IpcNext(s, a))
  {
  }

  lemma ReadsGrow(s: Ipc, a: IpcAction)
    requires IpcEnabled(s, a) && (a.GetLine? || a.GetTimesOut? || a.GetEof? || a.LateReap?)
    ensures Grown(s, IpcNext(s, a))
  {
  }

  lemma WorkerStepExtends(p: Proc, step: ProcAction)
    requires ProcEnabled(p, step)
    ensures Extends(p, ProcNext(p, step))
  {
  }

  lemma LifecycleGrows(s: Ipc, a: IpcAction)
    requires IpcEnabled(s, a) && (a.Begin? || a.NoWorker? || a.Poll?)
    ensures Grown(s, IpcNext(s, a))
  {
  }

  lemma StepGrows(s: Ipc, a: IpcAction)
    requires IpcEnabled(s, a)
    ensures Grown(s, IpcNext(s, a))
  {
    if a.Send? || a.SendFails? || a.SendShutdown? {
      WritesGrow(s, a);
    } else if a.Begin? || a.NoWorker? || a.Poll? {
      LifecycleGrows(s, a);
    } else if a.Worker? {
      WorkerStepExtends(s.procs[a.w], a.step);
    } else {
      ReadsGrow(s, a);
    }
  }

  lemma ExecutedPersists(s: Ipc, t: Ipc, call: Call, o: RunOutcome)
    requires Grown(s, t) && Executed(s, call, o)
    ensures Executed(t, call, o)
  {
    var (w, k) := s.slots[call.corr];
    assert Extends(s.procs[w], t.procs[w]);
  }

  // --- no hang -------------------------------------------------------------------------------------------

  /** What remains to be moved once the worker is dead. */
  function Backlog(p: Proc): int {
    (|p.stdout| - p.pumped) + (|p.stdout| - p.taken) + (if p.readerDone then 0 else 1)
  }

  /** The step system can move a line of this worker, or end the call that waits on it. */
  predicate CanProceed(s: Ipc, w: nat, code: string) {
    || IpcEnabled(s, Worker(w, Pump)) || IpcEnabled(s, Worker(w, PumpEof))
    || IpcEnabled(s, GetLine) || IpcEnabled(s, GetEof(code))
  }

  lemma DeadWorkerProceeds(p: Proc)
    requires p.taken <= p.pumped <= |p.stdout| && p.child == Exited
    ensures Backlog(p) >= 0
    ensures p.taken < p.pumped || p.readerDone || ProcEnabled(p, Pump) || ProcEnabled(p, PumpEof)
    ensures Backlog(p) == 0 ==> p.taken == p.pumped && p.readerDone
  {
  }

  /** While a call waits on a dead worker, either the reader thread can move or the client can dequeue;
      with no backlog left the end-of-file item ends the call. */
  lemma DeadWorkerEndsTheCall(s: Ipc, code: string)
    requires s.phase.Getting? && s.phase.p < |s.procs|
    requires ProcValid(s.procs[s.phase.p]) && s.procs[s.phase.p].child == Exited
    ensures Backlog(s.procs[s.phase.p]) >= 0
    ensures CanProceed(s, s.phase.p, code)
    ensures IpcEnabled(s, GetEof(code)) ==> Yield(s, GetEof(code)).Some?
    ensures Backlog(s.procs[s.phase.p]) == 0 ==> IpcEnabled(s, GetEof(code))
  {
    var p := s.procs[s.phase.p];
    DeadWorkerProceeds(p);
  }

  predicate MovesBacklog(s: Ipc, a: IpcAction, w: nat) {
    || a == Worker(w, Pump) || a == Worker(w, PumpEof)
    || (a == GetLine && s.phase.Getting? && s.phase.p == w)
  }

  lemma WorkerStepOnDead(p: Proc, step: ProcAction)
    requires ProcEnabled(p, step) && p.child == Exited
    ensures ProcNext(p, step).child == Exited
    ensures (step == Pump || step == PumpEof) && Backlog(ProcNext(p, step)) == Backlog(p) - 1
  {
  }

  /** No step adds to the backlog of a dead worker, and each move of its reader or of the client takes
      one unit away. */
  lemma DeadWorkerBacklogShrinks(s: Ipc, a: IpcAction, w: nat)
    requires IpcEnabled(s, a) && w < |s.procs| && s.procs[w].child == Exited
    ensures w < |IpcNext(s, a).procs| && IpcNext(s, a).procs[w].child == Exited
    ensures Backlog(IpcNext(s, a).procs[w]) ==
      Backlog(s.procs[w]) - (if MovesBacklog(s, a, w) then 1 else 0)
  {
    if a.Worker? {
      if a.w == w {
        WorkerStepOnDead(s.procs[w], a.step);
      }
    } else if a.Begin? || a.NoWorker? || a.Poll? {
    } else {
      OtherStepsOnDead(s, a, w);
    }
  }

  lemma OtherStepsOnDead(s: Ipc, a: IpcAction, w: nat)
    requires IpcEnabled(s, a) && w < |s.procs| && s.procs[w].child == Exited
    requires !a.Worker? && !a.Begin? && !a.NoWorker? && !a.Poll?
    ensures w < |IpcNext(s, a).procs| && IpcNext(s, a).procs[w].child == Exited
    ensures Backlog(IpcNext(s, a).procs[w]) ==
      Backlog(s.procs[w]) - (if MovesBacklog(s, a, w) then 1 else 0)
  {
  }

  /** How many lines of this worker the run moves. */
  ghost function Moves(s: Ipc, acts: seq<IpcAction>, w: nat): nat
    requires IpcCanRun(s, acts)
    decreases |acts|
  {
    if acts == [] then 0
    else (if MovesBacklog(s, acts[0], w) then 1 else 0) + Moves(IpcNext(s, acts[0]), acts[1..], w)
  }

  lemma {:induction false} RunUsesUpBacklog(s: Ipc, acts: seq<IpcAction>, w: nat)
    requires IpcCanRun(s, acts) && w < |s.procs| && s.procs[w].child == Exited
    ensures w < |IpcRun(s, acts).procs| && IpcRun(s, acts).procs[w].child == Exited
    ensures Moves(s, acts, w) + Backlog(IpcRun(s, acts).procs[w]) == Backlog(s.procs[w])
    decreases |acts|
  {
    if acts != [] {
      DeadWorkerBacklogShrinks(s, acts[0], w);
      RunUsesUpBacklog(IpcNext(s, acts[0]), acts[1..], w);
    }
  }

  /** Over every run from the death of a worker: its lines are moved at most as often as its backlog allows;
      a call that still waits on it at the end can proceed; and once the backlog is used up, the next look
      at the queue ends the call. */
  lemma DeadWorkerWaitIsBounded(s: Ipc, acts: seq<IpcAction>, w: nat, code: string)
    requires IpcInv(s) && IpcCanRun(s, acts) && w < |s.procs| && s.procs[w].child == Exited
    ensures Moves(s, acts, w) <= Backlog(s.procs[w])
    ensures var t := IpcRun(s, acts);
      t.phase.Getting? && t.phase.p == w ==>
        && CanProceed(t, w, code)
        && (Moves(s, acts, w) == Backlog(s.procs[w]) ==> IpcEnabled(t, GetEof(code)) && Yield(t, GetEof(code)).Some?)
  {
    var t := IpcRun(s, acts);
    IpcRunKeeps(s, acts);
    RunUsesUpBacklog(s, acts, w);
    ValidBacklog(t, w);
    if t.phase.Getting? && t.phase.p == w {
      DeadWorkerEndsTheCall(t, code);
    }
  }

  lemma ValidBacklog(s: Ipc, w: nat)
    requires IpcInv(s) && w < |s.procs| && s.procs[w].child == Exited
    ensures ProcValid(s.procs[w]) && Backlog(s.procs[w]) >= 0
  {
    DeadWorkerProceeds(s.procs[w]);
  }

  // --- a way out --------------------------------------------------------------------------------------------

  /** The next step towards the end of a call that waits on a dead worker, if nobody cancels it. */
  function NextStepOut(s: Ipc, code: string): IpcAction
    requires AwaitsAnswer(s)
  {
    var w := s.phase.p;
    var p := s.procs[w];
    if s.phase.Polling? then Poll(false, false)
    else if p.taken < p.pumped then GetLine
    else if p.readerDone then GetEof(code)
    else if p.pumped < |p.stdout| then Worker(w, Pump)
    else Worker(w, PumpEof)
  }

  predicate AwaitsAnswer(s: Ipc) {
    (s.phase.Polling? || s.phase.Getting?) && s.phase.p < |s.procs|
  }

  lemma StepOutIsEnabled(s: Ipc, code: string)
    requires AwaitsAnswer(s) && s.procs[s.phase.p].child == Exited
    requires s.procs[s.phase.p].taken <= s.procs[s.phase.p].pumped <= |s.procs[s.phase.p].stdout|
    ensures IpcEnabled(s, NextStepOut(s, code))
    ensures Yield(s, NextStepOut(s, code)) == None ==>
      && AwaitsAnswer(IpcNext(s, NextStepOut(s, code))) && IpcNext(s, NextStepOut(s, code)).phase.p == s.phase.p
      && (s.phase.Getting? ==> MovesBacklog(s, NextStepOut(s, code), s.phase.p))
      && (s.phase.Polling? ==> IpcNext(s, NextStepOut(s, code)).phase.Getting?)
  {
  }

  /** The call waiting on a dead worker is never stuck: from every such state some run of at most two steps
      for each unit of backlog, and two more, ends it. */
  lemma {:induction false} DeadWorkerRunEnds(s: Ipc, code: string) returns (acts: seq<IpcAction>, last: IpcAction)
    requires IpcInv(s) && AwaitsAnswer(s) && s.procs[s.phase.p].child == Exited
    ensures IpcCanRun(s, acts) && IpcEnabled(IpcRun(s, acts), last) && Yield(IpcRun(s, acts), last).Some?
    ensures |acts| <= 2 * Backlog(s.procs[s.phase.p]) + (if s.phase.Polling? then 1 else 0)
    decreases 2 * Backlog(s.procs[s.phase.p]) + (if s.phase.Polling? then 1 else 0)
  {
    var w, a := s.phase.p, NextStepOut(s, code);
    ValidBacklog(s, w);
    StepOutIsEnabled(s, code);
    if Yield(s, a).Some? {
      acts, last := [], a;
    } else {
      var t := IpcNext(s, a);
      IpcNextKeeps(s, a);
      DeadWorkerBacklogShrinks(s, a, w);
      ValidBacklog(t, w);
      var rest;
      rest, last := DeadWorkerRunEnds(t, code);
      acts := [a] + rest;
      assert acts[1..] == rest;
    }
  }
}
