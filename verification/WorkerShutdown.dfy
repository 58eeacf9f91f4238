/** How a render worker ends by itself: at the shutdown command that `shutdown` writes under the idle lock, or at
    the end of its input when its handle has been dropped while it was still at work. */
module WorkerShutdown {
  import opened Common
  import opened RenderWorker
  import opened WorkerProcess
  import opened Jobs
  import opened WorkerIpc
  import opened WorkerIpcTheorems
  import opened RenderRuns

  /** The child cannot be left waiting for another line. */
  predicate Ending(p: Proc) {
    p.read <= |p.stdin| && (!p.stdinOpen || Cmd(RenderWorker.Shutdown) in p.stdin[p.read..])
  }

  /** The child exited after it had executed every command before a shutdown, and no other. */
  predicate Finished(p: Proc) {
    p.child == Exited && Started(p) == Renders(BeforeShutdown(p.stdin)) && |p.done| == |Started(p)|
  }

  /** What the child does next when nobody disturbs it; `ends` says how its `k`-th command ends. */
  function OwnStep(p: Proc, ends: nat -> RunOutcome): ProcAction
    requires p.child != Exited
  {
    match p.child
    case Booting => Boot
    case Executing => Answer(ends(|p.done|))
    case AtRead => if p.read < |p.stdin| then ReadLine else SeeEof
  }

  function StepsLeft(p: Proc): int {
    3 * (|p.stdin| - p.read) + (if p.child == Booting then 2 else if p.child == Executing then 1 else 0)
  }

  predicate Undisturbed(a: ProcAction) {
    a.Boot? || a.ReadLine? || a.Answer? || a.SeeEof?
  }

  lemma {:induction false} BeforeShutdownStops(a: seq<CmdLine>, b: seq<CmdLine>)
    requires BeforeShutdown(a) == a && (b == [] || b[0] == Cmd(RenderWorker.Shutdown))
    ensures BeforeShutdown(a + b) == a
  {
    if a == [] {
      assert a + b == b;
    } else {
      assert (a + b)[1..] == a[1..] + b;
      BeforeShutdownStops(a[1..], b);
    }
  }

  lemma {:induction false} BeforeShutdownIsPrefix(lines: seq<CmdLine>)
    ensures BeforeShutdown(lines) <= lines
  {
    if lines != [] {
      BeforeShutdownIsPrefix(lines[1..]);
    }
  }

  /** `q` is `p` later, with nothing new on its stdin and the commands since ended as `ends` says. */
  ghost predicate RanOn(p: Proc, q: Proc, ends: nat -> RunOutcome) {
    && q.stdin == p.stdin && p.done <= q.done
    && forall k :: |p.done| <= k < |q.done| ==> q.done[k].outcome == ends(k)
  }

  /** `q` is finished, or one step nearer to it than `p`. */
  predicate Nearer(p: Proc, q: Proc) {
    if q.child == Exited then Finished(q) else Ending(q) && 0 <= StepsLeft(q) < StepsLeft(p)
  }

  lemma EofFinishes(p: Proc)
    requires ProcEnabled(p, SeeEof) && |Started(p)| == |p.done|
    requires BeforeShutdown(p.stdin[..p.read]) == p.stdin[..p.read]
    ensures Finished(ProcNext(p, SeeEof))
  {
    assert p.stdin[..p.read] == p.stdin;
  }

  lemma ShutdownFinishes(p: Proc)
    requires ProcEnabled(p, ReadLine) && p.stdin[p.read] == Cmd(RenderWorker.Shutdown) && |Started(p)| == |p.done|
    requires BeforeShutdown(p.stdin[..p.read]) == p.stdin[..p.read]
    ensures Finished(ProcNext(p, ReadLine))
  {
    assert p.stdin == p.stdin[..p.read] + p.stdin[p.read..];
    BeforeShutdownStops(p.stdin[..p.read], p.stdin[p.read..]);
    ReadEffect(p);
    assert Started(p) + [] == Started(p);
  }

  lemma ReadGoesOn(p: Proc)
    requires ProcEnabled(p, ReadLine) && p.stdin[p.read] != Cmd(RenderWorker.Shutdown) && Ending(p)
    ensures Nearer(p, ProcNext(p, ReadLine))
  {
    assert p.stdin[p.read..] == [p.stdin[p.read]] + p.stdin[p.read + 1..];
  }

  lemma ReadIsNearer(p: Proc)
    requires ProcValid(p) && ProcEnabled(p, ReadLine) && Ending(p)
    ensures ProcValid(ProcNext(p, ReadLine)) && Nearer(p, ProcNext(p, ReadLine))
  {
    ReadKeeps(p);
    if p.stdin[p.read] == Cmd(RenderWorker.Shutdown) {
      ShutdownFinishes(p);
    } else {
      ReadGoesOn(p);
    }
  }

  lemma AnswerIsNearer(p: Proc, o: RunOutcome)
    requires ProcValid(p) && p.child == Executing && Ending(p)
    ensures ProcEnabled(p, Answer(o)) && ProcValid(ProcNext(p, Answer(o))) && Nearer(p, ProcNext(p, Answer(o)))
  {
    AnswerKeeps(p, o);
  }

  lemma EofIsNearer(p: Proc)
    requires ProcValid(p) && ProcEnabled(p, SeeEof)
    ensures ProcValid(ProcNext(p, SeeEof)) && Nearer(p, ProcNext(p, SeeEof))
  {
    PassiveKeeps(p, SeeEof);
    EofFinishes(p);
  }

  lemma StepTowardsTheEnd(p: Proc, ends: nat -> RunOutcome)
    requires ProcValid(p) && p.child != Exited && Ending(p)
    ensures ProcEnabled(p, OwnStep(p, ends))
    ensures ProcValid(ProcNext(p, OwnStep(p, ends))) && Nearer(p, ProcNext(p, OwnStep(p, ends)))
  {
    match p.child
    case Booting => BootKeeps(p);
    case Executing => AnswerIsNearer(p, ends(|p.done|));
    case AtRead =>
      if p.read < |p.stdin| {
        ReadIsNearer(p);
      } else {
        EofIsNearer(p);
      }
  }

  lemma StepRunsOn(p: Proc, ends: nat -> RunOutcome)
    requires p.child != Exited && ProcEnabled(p, OwnStep(p, ends))
    ensures Undisturbed(OwnStep(p, ends)) && RanOn(p, ProcNext(p, OwnStep(p, ends)), ends)
  {
  }

  /** A live worker that has a shutdown command before it, or whose stdin has been closed, can run to its end
      by itself, whatever its commands come to: it executes every command before a shutdown, and no other. */
  lemma {:induction false} RunsToItsEnd(p: Proc, ends: nat -> RunOutcome) returns (steps: seq<ProcAction>)
    requires ProcValid(p) && p.child != Exited && Ending(p)
    ensures StepsCanRun(p, steps) && forall a :: a in steps ==> Undisturbed(a)
    ensures var q := AfterSteps(p, steps); ProcValid(q) && Finished(q) && RanOn(p, q, ends)
    decreases StepsLeft(p)
  {
    var a := OwnStep(p, ends);
    var q := ProcNext(p, a);
    StepTowardsTheEnd(p, ends);
    StepRunsOn(p, ends);
    var rest := [];
    if q.child != Exited {
      rest := RunsToItsEnd(q, ends);
      RunsOn(p, q, AfterSteps(q, rest), ends);
    }
    steps := [a] + rest;
    assert steps[1..] == rest;
  }

  lemma RunsOn(p: Proc, q: Proc, r: Proc, ends: nat -> RunOutcome)
    requires RanOn(p, q, ends) && RanOn(q, r, ends)
    ensures RanOn(p, r, ends)
  {
    assert forall k :: |p.done| <= k < |q.done| ==> r.done[k] == q.done[k];
  }

  /** It has then answered all of them, in order. */
  lemma FinishedHasAnswered(q: Proc)
    requires ProcValid(q) && Finished(q)
    ensures Terminals(Events(q.stdout)) == Answers(Renders(BeforeShutdown(q.stdin)), q.done)
  {
    AnswersMatchCommands(q);
    assert Started(q)[..|q.done|] == Started(q);
  }

  lemma ShutdownIsSent(s: Ipc)
    requires IpcInv(s) && HandleOpen(s) && s.phase == Idle && Alive(s)
    ensures IpcEnabled(s, SendShutdown)
    ensures var w, u := s.current.value, IpcNext(s, SendShutdown);
      && u == WithProc(s, w, s.procs[w].(stdin := s.procs[w].stdin + [Cmd(RenderWorker.Shutdown)]))
      && ProcValid(u.procs[w]) && Quiet(u.procs[w]) && Ending(u.procs[w])
  {
    SendShutdownKeeps(s);
    var p := IpcNext(s, SendShutdown).procs[s.current.value];
    assert p.stdin[p.read..][|p.stdin| - 1 - p.read] == Cmd(RenderWorker.Shutdown);
  }

  /** From `s` to `t`, worker `w` has read one shutdown command more and exited without executing anything more;
      its pipes are closed, it is nobody's handle, and no other worker has noticed. */
  predicate HasEnded(s: Ipc, t: Ipc, w: nat)
    requires w < |s.procs|
  {
    && t.current == None && t.phase == s.phase && |t.procs| == |s.procs|
    && (forall v :: 0 <= v < |s.procs| && v != w ==> t.procs[v] == s.procs[v])
    && t.procs[w].child == Exited && !t.procs[w].stdinOpen && !t.procs[w].stdoutOpen
    && t.procs[w].stdin == s.procs[w].stdin + [Cmd(RenderWorker.Shutdown)]
    && t.procs[w].done == s.procs[w].done
  }

  lemma ShutdownLeads(s: Ipc, w: nat, steps: seq<ProcAction>)
    requires s.current == Some(w) && IpcEnabled(s, SendShutdown)
    requires StepsCanRun(IpcNext(s, SendShutdown).procs[w], steps)
    ensures var u := IpcNext(s, SendShutdown);
      Leads(s, [SendShutdown] + WorkerActs(w, steps) + [LateReap(w)],
            IpcNext(WithProc(u, w, AfterSteps(u.procs[w], steps)), LateReap(w)), [])
  {
    var u := IpcNext(s, SendShutdown);
    var v := WithProc(u, w, AfterSteps(u.procs[w], steps));
    LeadsOne(s, SendShutdown);
    WorkerLeads(u, w, steps);
    LeadsOn(s, [SendShutdown], u, [], WorkerActs(w, steps), v, []);
    LeadsOne(v, LateReap(w));
    LeadsOn(s, [SendShutdown] + WorkerActs(w, steps), v, [], [LateReap(w)], IpcNext(v, LateReap(w)), []);
  }

  /** From every state of the protocol with the lock free and a live worker: the shutdown command leads the worker,
      by its own steps, to its exit, and the late reap drops its handle. No call ends by it. */
  lemma ShutdownEndsTheWorker(s: Ipc, ends: nat -> RunOutcome) returns (steps: seq<ProcAction>, t: Ipc)
    requires IpcInv(s) && HandleOpen(s) && s.phase == Idle && Alive(s)
    ensures forall a :: a in steps ==> Undisturbed(a)
    ensures Leads(s, [SendShutdown] + WorkerActs(s.current.value, steps) + [LateReap(s.current.value)], t, [])
    ensures HasEnded(s, t, s.current.value)
  {
    var w := s.current.value;
    ShutdownIsSent(s);
    var p := IpcNext(s, SendShutdown).procs[w];
    steps := RunsToItsEnd(p, ends);
    NothingMoreIsDone(p, AfterSteps(p, steps), ends);
    ShutdownLeads(s, w, steps);
    t := IpcNext(WithProc(IpcNext(s, SendShutdown), w, AfterSteps(p, steps)), LateReap(w));
    ReapedHasEnded(s, w, p, AfterSteps(p, steps));
  }

  lemma ReapedHasEnded(s: Ipc, w: nat, p: Proc, q: Proc)
    requires w < |s.procs| && s.current == Some(w)
    requires q.child == Exited && q.done == s.procs[w].done
    requires q.stdin == s.procs[w].stdin + [Cmd(RenderWorker.Shutdown)]
    ensures HasEnded(s, IpcNext(WithProc(WithProc(s, w, p), w, q), LateReap(w)), w)
  {
  }

  lemma NothingMoreIsDone(p: Proc, q: Proc, ends: nat -> RunOutcome)
    requires ProcValid(p) && Quiet(p) && Finished(q) && RanOn(p, q, ends)
    ensures q.done == p.done
  {
    QuietHasFinished(p);
    BeforeShutdownIsPrefix(p.stdin);
    RendersPrefix(BeforeShutdown(p.stdin), p.stdin);
  }
}
