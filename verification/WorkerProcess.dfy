/** One spawned render worker: its two pipes, the child running `serve_loop`, and the reader thread.

    A pipe is the log of everything ever written to it together with the reader's cursor, so that
    first-in-first-out delivery needs no further statement. */
module WorkerProcess {
  import opened Common
  import opened RenderWorker

  /** One stdout line: whitespace only, not a JSON object, or a protocol event. */
  datatype Line = Blank | Stray | Protocol(event: Event)

  datatype Child = Booting | AtRead | Executing | Exited

  datatype Proc = Proc(
    stdin: seq<CmdLine>,          // every line the parent wrote
    read: nat,                    // how many of them the child has read
    stdinOpen: bool,              // the parent has not closed its end
    child: Child,
    ready: bool,                  // the ready event has been written
    ran: seq<RenderCmd>,          // the commands passed to the render body; the last may still run
    progress: seq<(int, int)>,    // what the current command has reported
    done: seq<Behaviour>,         // the completed calls of the render body, in order
    stdout: seq<Line>,            // every line the child wrote
    stdoutOpen: bool,             // the parent has not closed its end
    pumped: nat,                  // how many of them the reader thread has queued
    readerDone: bool,             // the reader thread has queued its end-of-file item
    taken: nat)                   // how many queued lines the client has dequeued

  const SPAWNED := Proc.Proc([], 0, true, Booting, false, [], [], [], [], true, 0, false, 0)

  datatype ProcAction =
    | Boot                         // the child finished its imports and wrote `ready`
    | ReadLine
    | Report(step: int, total: int)
    | Answer(outcome: RunOutcome)
    | Pollute(line: Line)          // a library writes to the protocol channel
    | Die(partial: bool)           // killed, possibly in the middle of a line
    | SeeEof                       // the child reads the end of its stdin
    | Pump                         // the reader thread queues one line
    | PumpEof                      // the reader thread queues its end-of-file item

  predicate ProcEnabled(p: Proc, a: ProcAction) {
    match a
    case Boot => p.child == Booting
    case ReadLine => p.child == AtRead && p.read < |p.stdin|
    case Report(_, _) => p.child == Executing && p.ran != []
    case Answer(_) => p.child == Executing && p.ran != []
    case Pollute(line) => p.child != Exited && !line.Protocol?
    case Die(_) => p.child != Exited
    case SeeEof => p.child == AtRead && p.read == |p.stdin| && !p.stdinOpen
    case Pump => !p.readerDone && p.pumped < |p.stdout|
    case PumpEof => !p.readerDone      // end of file, a closed pipe, or a line that does not decode
  }

  /** The command being executed: the local `job` and `payload` of the loop. */
  function CurrentCommand(p: Proc): RenderCmd
    requires p.ran != []
  {
    p.ran[|p.ran| - 1]
  }

  /** The render commands among the lines the child has read. */
  function Started(p: Proc): seq<RenderCmd> {
    Renders(if p.read <= |p.stdin| then p.stdin[..p.read] else p.stdin)
  }

  function ProcNext(p: Proc, a: ProcAction): Proc
    requires ProcEnabled(p, a)
  {
    match a
    case Boot => p.(child := AtRead, ready := true, stdout := p.stdout + [Protocol(Ready)])
    case ReadLine =>
      var line := p.stdin[p.read];
      p.(read := p.read + 1,
         ran := p.ran + RenderOf(line),
         child := if line == Cmd(Shutdown) then Exited
                  else if RenderOf(line) != [] then Executing else AtRead)
    case Report(step, total) =>
      p.(progress := p.progress + [(step, total)],
         stdout := p.stdout + Lines(ProgressEvents(CurrentCommand(p).job, [(step, total)])))
    case Answer(o) =>
      p.(child := AtRead, progress := [], done := p.done + [Behaviour(p.progress, o)],
         stdout := p.stdout + [Protocol(TerminalEvent(CurrentCommand(p).job, o))])
    case Pollute(line) => p.(stdout := p.stdout + [line])
    case Die(partial) => p.(child := Exited, stdout := p.stdout + if partial then [Stray] else [])
    case SeeEof => p.(child := Exited)
    case Pump => p.(pumped := p.pumped + 1)
    case PumpEof => p.(readerDone := true)
  }

  function Lines(es: seq<Event>): seq<Line> {
    if es == [] then [] else Lines(es[..|es| - 1]) + [Protocol(es[|es| - 1])]
  }

  /** The protocol events among some stdout lines. */
  function Events(ls: seq<Line>): seq<Event> {
    if ls == [] then []
    else Events(ls[..|ls| - 1]) + (if ls[|ls| - 1].Protocol? then [ls[|ls| - 1].event] else [])
  }

  /** What the child writes for the commands `cs` when it has completed `done` of them and has
      reported `progress` for the next. */
  function Trace(cs: seq<RenderCmd>, done: seq<Behaviour>, progress: seq<(int, int)>): seq<Event>
    requires |done| <= |cs| <= |done| + 1
  {
    if |cs| == |done| then [Ready] + Blocks(cs, done)
    else [Ready] + Blocks(cs[..|done|], done) + ProgressEvents(cs[|done|].job, progress)
  }

  ghost predicate WroteItsTrace(p: Proc) {
    && |p.done| <= |Started(p)| <= |p.done| + 1
    && Events(p.stdout) == (if p.ready then Trace(Started(p), p.done, p.progress) else [])
    && (|p.done| == |Started(p)| ==> p.progress == [])
  }

  ghost predicate ProcValid(p: Proc) {
    && p.read <= |p.stdin| && p.taken <= p.pumped <= |p.stdout|
    && p.ran == Started(p)
    && WroteItsTrace(p)
    && (!p.ready ==> p.read == 0 && p.done == [])
    && (p.child == Booting ==> !p.ready)
    && (p.child == AtRead || p.child == Executing ==>
          p.ready && BeforeShutdown(p.stdin[..p.read]) == p.stdin[..p.read])
    && (p.child == AtRead ==> |Started(p)| == |p.done|)
    && (p.child == Executing ==> |Started(p)| == |p.done| + 1)
  }

  lemma EventsAppend(ls: seq<Line>, l: Line)
    ensures Events(ls + [l]) == Events(ls) + (if l.Protocol? then [l.event] else [])
  {
    assert (ls + [l])[..|ls|] == ls;
  }

  lemma RendersAppend(lines: seq<CmdLine>, c: CmdLine)
    ensures Renders(lines + [c]) == Renders(lines) + RenderOf(c)
  {
    assert (lines + [c])[..|lines|] == lines;
  }

  lemma {:induction false} BeforeShutdownAppend(lines: seq<CmdLine>, c: CmdLine)
    requires BeforeShutdown(lines) == lines && c != Cmd(Shutdown)
    ensures BeforeShutdown(lines + [c]) == lines + [c]
  {
    if lines != [] {
      assert (lines + [c])[1..] == lines[1..] + [c];
      BeforeShutdownAppend(lines[1..], c);
    }
  }

  lemma ProgressAppend(job: Json, ps: seq<(int, int)>, q: (int, int))
    ensures ProgressEvents(job, ps + [q]) == ProgressEvents(job, ps) + ProgressEvents(job, [q])
    ensures |ProgressEvents(job, [q])| <= 1
  {
    assert (ps + [q])[..|ps|] == ps;
    assert [q][..0] == [];
  }

  lemma LinesOfOne(ls: seq<Line>, es: seq<Event>)
    requires |es| <= 1
    ensures Events(ls + Lines(es)) == Events(ls) + es
  {
    if es != [] {
      assert Lines(es) == [Protocol(es[0])] && es == [es[0]];
      EventsAppend(ls, Protocol(es[0]));
    } else {
      assert ls + [] == ls;
    }
  }

  lemma TraceRead(cs: seq<RenderCmd>, done: seq<Behaviour>, c: RenderCmd)
    requires |cs| == |done|
    ensures Trace(cs + [c], done, []) == Trace(cs, done, [])
  {
    assert (cs + [c])[..|done|] == cs;
  }

  lemma TraceReport(cs: seq<RenderCmd>, done: seq<Behaviour>, progress: seq<(int, int)>, q: (int, int))
    requires |cs| == |done| + 1
    ensures Trace(cs, done, progress + [q]) ==
      Trace(cs, done, progress) + ProgressEvents(cs[|done|].job, [q])
  {
    ProgressAppend(cs[|done|].job, progress, q);
  }

  lemma TraceAssociates(a: seq<Event>, b: seq<Event>, e: Event)
    ensures [Ready] + (a + (b + [e])) == [Ready] + a + b + [e]
  {
  }

  lemma TraceAnswer(cs: seq<RenderCmd>, done: seq<Behaviour>, progress: seq<(int, int)>, o: RunOutcome)
    requires |cs| == |done| + 1
    ensures Trace(cs, done + [Behaviour(progress, o)], []) ==
      Trace(cs, done, progress) + [TerminalEvent(cs[|done|].job, o)]
  {
    var c := cs[|done|];
    assert cs == cs[..|done|] + [c];
    BlocksAppend(cs[..|done|], done, c, Behaviour(progress, o));
    TraceAssociates(Blocks(cs[..|done|], done), ProgressEvents(c.job, progress), TerminalEvent(c.job, o));
  }

  lemma ReadKeeps(p: Proc)
    requires ProcValid(p) && ProcEnabled(p, ReadLine)
    ensures ProcValid(ProcNext(p, ReadLine))
  {
    var line := p.stdin[p.read];
    ReadEffect(p);
    ReadKeepsTrace(p);
    if line != Cmd(Shutdown) {
      BeforeShutdownAppend(p.stdin[..p.read], line);
    }
  }

  lemma ReadEffect(p: Proc)
    requires p.read < |p.stdin| && p.child == AtRead
    ensures p.stdin[..p.read + 1] == p.stdin[..p.read] + [p.stdin[p.read]]
    ensures Started(ProcNext(p, ReadLine)) == Started(p) + RenderOf(p.stdin[p.read])
  {
    assert p.stdin[..p.read + 1] == p.stdin[..p.read] + [p.stdin[p.read]];
    RendersAppend(p.stdin[..p.read], p.stdin[p.read]);
  }

  lemma ReadKeepsTrace(p: Proc)
    requires WroteItsTrace(p) && ProcEnabled(p, ReadLine) && p.ready && |Started(p)| == |p.done|
    ensures WroteItsTrace(ProcNext(p, ReadLine))
  {
    var line := p.stdin[p.read];
    ReadEffect(p);
    if RenderOf(line) != [] {
      TraceRead(Started(p), p.done, RenderOf(line)[0]);
    } else {
      assert Started(p) + [] == Started(p);
    }
  }

  lemma ReportKeeps(p: Proc, step: int, total: int)
    requires ProcValid(p) && ProcEnabled(p, Report(step, total))
    ensures ProcValid(ProcNext(p, Report(step, total)))
  {
    var job := CurrentCommand(p).job;
    ProgressAppend(job, [], (step, total));
    TraceReport(Started(p), p.done, p.progress, (step, total));
    LinesOfOne(p.stdout, ProgressEvents(job, [(step, total)]));
    assert Started(ProcNext(p, Report(step, total))) == Started(p);
  }

  lemma AnswerKeeps(p: Proc, o: RunOutcome)
    requires ProcValid(p) && ProcEnabled(p, Answer(o))
    ensures ProcValid(ProcNext(p, Answer(o)))
  {
    TraceAnswer(Started(p), p.done, p.progress, o);
    EventsAppend(p.stdout, Protocol(TerminalEvent(CurrentCommand(p).job, o)));
    assert Started(ProcNext(p, Answer(o))) == Started(p);
  }

  lemma BootKeeps(p: Proc)
    requires ProcValid(p) && p.child == Booting
    ensures ProcValid(ProcNext(p, Boot))
  {
    EventsAppend(p.stdout, Protocol(Ready));
    assert p.stdin[..p.read] == [];
  }

  lemma DieKeeps(p: Proc, partial: bool)
    requires ProcValid(p) && p.child != Exited
    ensures ProcValid(ProcNext(p, Die(partial)))
  {
    var q := ProcNext(p, Die(partial));
    assert Started(q) == Started(p);
    assert Events(q.stdout) == Events(p.stdout) by {
      if partial {
        EventsAppend(p.stdout, Stray);
      } else {
        assert p.stdout + [] == p.stdout;
      }
    }
  }

  lemma PolluteKeeps(p: Proc, line: Line)
    requires ProcValid(p) && ProcEnabled(p, Pollute(line))
    ensures ProcValid(ProcNext(p, Pollute(line)))
  {
    EventsAppend(p.stdout, line);
  }

  lemma PassiveKeeps(p: Proc, a: ProcAction)
    requires ProcValid(p) && ProcEnabled(p, a) && (a == SeeEof || a == Pump || a == PumpEof)
    ensures ProcValid(ProcNext(p, a))
  {
    assert Started(ProcNext(p, a)) == Started(p);
  }

  lemma ProcNextKeeps(p: Proc, a: ProcAction)
    requires ProcValid(p) && ProcEnabled(p, a)
    ensures ProcValid(ProcNext(p, a))
  {
    match a
    case Boot => BootKeeps(p);
    case ReadLine => ReadKeeps(p);
    case Report(step, total) => ReportKeeps(p, step, total);
    case Answer(o) => AnswerKeeps(p, o);
    case Pollute(line) => PolluteKeeps(p, line);
    case Die(partial) => DieKeeps(p, partial);
    case _ => PassiveKeeps(p, a);
  }

  /** Between two commands the child has written exactly what `serve_loop` emits for the lines it has
      read: the automaton is a step-by-step `ServeLoop`. */
  lemma ChildIsServeLoop(p: Proc, run: (nat, Json) -> Behaviour)
    requires ProcValid(p) && p.child == AtRead
    requires forall k :: 0 <= k < |p.done| ==> run(k, Started(p)[k].payload) == p.done[k]
    ensures Events(p.stdout) == ServeTrace(p.stdin[..p.read], run)
  {
    SameBehaviours(Started(p), p.done, run);
    assert Started(p) == Renders(BeforeShutdown(p.stdin[..p.read]));
  }

  lemma {:induction false} SameBehaviours(cs: seq<RenderCmd>, bs: seq<Behaviour>, run: (nat, Json) -> Behaviour)
    requires |cs| == |bs|
    requires forall k :: 0 <= k < |bs| ==> run(k, cs[k].payload) == bs[k]
    ensures Behaviours(cs, run) == bs
  {
    if cs != [] {
      SameBehaviours(cs[..|cs| - 1], bs[..|bs| - 1], run);
    }
  }

  lemma TraceAnswers(cs: seq<RenderCmd>, done: seq<Behaviour>, progress: seq<(int, int)>)
    requires |done| <= |cs| <= |done| + 1
    ensures Terminals(Trace(cs, done, progress)) == Answers(cs[..|done|], done)
  {
    ReadyAnswers(cs[..|done|], done);
    if |done| < |cs| {
      var tail := ProgressEvents(cs[|done|].job, progress);
      ProgressOnly(cs[|done|].job, progress);
      NoTerminalsIn(tail);
      TerminalsConcat([Ready] + Blocks(cs[..|done|], done), tail);
    } else {
      assert cs[..|done|] == cs;
    }
  }

  /** The answers written so far, matched with the commands that were read. */
  lemma AnswersMatchCommands(p: Proc)
    requires ProcValid(p)
    ensures Terminals(Events(p.stdout)) == Answers(Started(p)[..|p.done|], p.done)
  {
    TraceAnswers(Started(p), p.done, p.progress);
    if !p.ready {
      assert p.stdin[..p.read] == [];
    }
  }
}
