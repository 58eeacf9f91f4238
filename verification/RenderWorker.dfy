/** The render worker's protocol loop, core/render_worker.py, as a producer of event traces. */
module RenderWorker {
  import opened Common

  /** A protocol event, as the parent decodes it from one stdout line. */
  datatype Event =
    | Ready
    | Progress(job: Json, step: int, total: int)
    | Result(job: Json, output: Json)
    | Error(job: Json, message: string)
    | OtherVerb

  datatype Command =
    | Render(job: Json, input: Json)   // a missing key reads as Null
    | Shutdown
    | OtherCommand

  /** One stdin line as `serve_loop` sees it. The end of the sequence is EOF. */
  datatype CmdLine = BlankLine | Malformed | NotAnObject | Cmd(command: Command)

  /** How the render body ends: it gives a value that encodes, gives one whose encoding raises, or raises. */
  datatype RunOutcome = Gave(value: Json) | Unencodable(message: string) | Threw(message: string)

  /** One call of the render body: the progress it reports, then its end. */
  datatype Behaviour = Behaviour(progress: seq<(int, int)>, outcome: RunOutcome)

  datatype RenderCmd = RenderCmd(job: Json, payload: Json)

  predicate IsTerminal(e: Event) {
    e.Result? || e.Error?
  }

  function TerminalEvent(job: Json, o: RunOutcome): Event {
    match o
    case Gave(v) => Result(job, v)
    case Unencodable(m) => Error(job, Take(m, 500))
    case Threw(m) => Error(job, Take(m, 500))
  }

  /** The progress sink emits only while a command that carries a job is current. */
  function ProgressEvents(job: Json, ps: seq<(int, int)>): seq<Event> {
    if job == Null || ps == [] then []
    else ProgressEvents(job, ps[..|ps| - 1]) + [Progress(job, ps[|ps| - 1].0, ps[|ps| - 1].1)]
  }

  function Block(c: RenderCmd, b: Behaviour): seq<Event> {
    ProgressEvents(c.job, b.progress) + [TerminalEvent(c.job, b.outcome)]
  }

  function RenderOf(c: CmdLine): seq<RenderCmd> {
    if c.Cmd? && c.command.Render? then [RenderCmd(c.command.job, AsDict(c.command.input))] else []
  }

  /** The render commands among some lines, in order. */
  function Renders(lines: seq<CmdLine>): seq<RenderCmd> {
    if lines == [] then [] else Renders(lines[..|lines| - 1]) + RenderOf(lines[|lines| - 1])
  }

  /** The lines that are read before a shutdown command. */
  function BeforeShutdown(lines: seq<CmdLine>): seq<CmdLine> {
    if lines == [] || lines[0] == Cmd(Shutdown) then [] else [lines[0]] + BeforeShutdown(lines[1..])
  }

  function Blocks(cs: seq<RenderCmd>, bs: seq<Behaviour>): seq<Event>
    requires |cs| == |bs|
  {
    if cs == [] then []
    else Blocks(cs[..|cs| - 1], bs[..|bs| - 1]) + Block(cs[|cs| - 1], bs[|bs| - 1])
  }

  /** Everything `serve_loop` emits for these input lines when the render body behaves like `run`. */
  function ServeTrace(lines: seq<CmdLine>, run: (nat, Json) -> Behaviour): seq<Event> {
    var cs := Renders(BeforeShutdown(lines));
    [Ready] + Blocks(cs, Behaviours(cs, run))
  }

  function Behaviours(cs: seq<RenderCmd>, run: (nat, Json) -> Behaviour): (bs: seq<Behaviour>)
    ensures |bs| == |cs|
  {
    if cs == [] then []
    else Behaviours(cs[..|cs| - 1], run) + [run(|cs| - 1, cs[|cs| - 1].payload)]
  }

  /** The progress sink bound to the current job. */
  method RelayProgress(current: Json, ps: seq<(int, int)>) returns (emitted: seq<Event>)
    ensures emitted == ProgressEvents(current, ps)
  {
    emitted := [];
    var k := 0;
    while k < |ps|
      invariant 0 <= k <= |ps|
      invariant emitted == ProgressEvents(current, ps[..k])
    {
      assert ps[..k + 1][..k] == ps[..k];
      if current != Null {
        emitted := emitted + [Progress(current, ps[k].0, ps[k].1)];
      }
      k := k + 1;
    }
    assert ps[..k] == ps;
  }

  /** One render command: the body reports progress while `current` is set, then the loop answers. */
  method ServeCommand(c: RenderCmd, b: Behaviour) returns (emitted: seq<Event>)
    ensures emitted == Block(c, b)
  {
    var current := c.job;
    emitted := RelayProgress(current, b.progress);
    match b.outcome {
      case Gave(v) => emitted := emitted + [Result(c.job, v)];
      case Unencodable(m) => emitted := emitted + [Error(c.job, Take(m, 500))];
      case Threw(m) => emitted := emitted + [Error(c.job, Take(m, 500))];
    }
  }

  /** `serve_loop`: `run(k, payload)` is the k-th call of the render body. */
  method ServeLoop(lines: seq<CmdLine>, run: (nat, Json) -> Behaviour) returns (emitted: seq<Event>)
    ensures emitted == ServeTrace(lines, run)
  {
    emitted := [Ready];
    var calls: nat := 0;
    ghost var cs: seq<RenderCmd> := [];
    assert lines[..0] + BeforeShutdown(lines[0..]) == BeforeShutdown(lines);
    var i := 0;
    while i < |lines|
      invariant 0 <= i <= |lines|
      invariant cs == Renders(lines[..i]) && calls == |cs|
      invariant BeforeShutdown(lines) == lines[..i] + BeforeShutdown(lines[i..])
      invariant emitted == [Ready] + Blocks(cs, Behaviours(cs, run))
    {
      var line := lines[i];
      PeelLine(lines, i);
      if line == Cmd(Shutdown) {
        assert lines[..i] + BeforeShutdown(lines[i..]) == lines[..i];
        return;
      }
      i := i + 1;
      if line.BlankLine? || line.Malformed? || line.NotAnObject? || !line.command.Render? {
        continue;
      }
      var c := RenderCmd(line.command.job, AsDict(line.command.input));
      var block := ServeCommand(c, run(calls, c.payload));
      emitted := emitted + block;
      ServedOneMore(cs, run, c);
      cs := cs + [c];
      calls := calls + 1;
    }
    assert lines[..i] + BeforeShutdown(lines[i..]) == lines[..i];
  }

  lemma BehavioursAppend(cs: seq<RenderCmd>, run: (nat, Json) -> Behaviour, c: RenderCmd)
    ensures Behaviours(cs + [c], run) == Behaviours(cs, run) + [run(|cs|, c.payload)]
  {
    assert (cs + [c])[..|cs|] == cs;
  }

  lemma ReadyFirst(a: seq<Event>, b: seq<Event>)
    ensures [Ready] + (a + b) == [Ready] + a + b
  {
  }

  lemma ServedOneMore(cs: seq<RenderCmd>, run: (nat, Json) -> Behaviour, c: RenderCmd)
    ensures [Ready] + Blocks(cs + [c], Behaviours(cs + [c], run)) ==
      [Ready] + Blocks(cs, Behaviours(cs, run)) + Block(c, run(|cs|, c.payload))
  {
    var bs, b := Behaviours(cs, run), run(|cs|, c.payload);
    BehavioursAppend(cs, run, c);
    BlocksAppend(cs, bs, c, b);
    ReadyFirst(Blocks(cs, bs), Block(c, b));
  }

  lemma PeelLine(lines: seq<CmdLine>, i: nat)
    requires i < |lines|
    ensures Renders(lines[..i + 1]) == Renders(lines[..i]) + RenderOf(lines[i])
    ensures lines[i] == Cmd(Shutdown) ==> BeforeShutdown(lines[i..]) == []
    ensures lines[i] != Cmd(Shutdown) ==>
      lines[..i] + BeforeShutdown(lines[i..]) == lines[..i + 1] + BeforeShutdown(lines[i + 1..])
  {
    assert lines[..i + 1][..i] == lines[..i];
    assert lines[i..][1..] == lines[i + 1..];
  }

  lemma BlocksAppend(cs: seq<RenderCmd>, bs: seq<Behaviour>, c: RenderCmd, b: Behaviour)
    requires |cs| == |bs|
    ensures Blocks(cs + [c], bs + [b]) == Blocks(cs, bs) + Block(c, b)
  {
    assert (cs + [c])[..|cs|] == cs && (bs + [b])[..|bs|] == bs;
  }

  // --- what the trace guarantees ------------------------------------------------------------------

  function Terminals(es: seq<Event>): seq<Event> {
    if es == [] then []
    else Terminals(es[..|es| - 1]) + (if IsTerminal(es[|es| - 1]) then [es[|es| - 1]] else [])
  }

  lemma {:induction false} TerminalsConcat(a: seq<Event>, b: seq<Event>)
    ensures Terminals(a + b) == Terminals(a) + Terminals(b)
  {
    if b == [] {
      assert a + b == a;
    } else {
      var front := b[..|b| - 1];
      assert (a + b)[..|a + b| - 1] == a + front;
      TerminalsConcat(a, front);
    }
  }

  lemma {:induction false} NoTerminalsIn(es: seq<Event>)
    requires forall i :: 0 <= i < |es| ==> !IsTerminal(es[i])
    ensures Terminals(es) == []
  {
    if es != [] {
      NoTerminalsIn(es[..|es| - 1]);
    }
  }

  function Answers(cs: seq<RenderCmd>, bs: seq<Behaviour>): (es: seq<Event>)
    requires |cs| == |bs|
    ensures |es| == |cs|
  {
    if cs == [] then []
    else Answers(cs[..|cs| - 1], bs[..|bs| - 1]) + [TerminalEvent(cs[|cs| - 1].job, bs[|bs| - 1].outcome)]
  }

  /** A block contains exactly one terminal event, its last. */
  lemma BlockAnswersOnce(c: RenderCmd, b: Behaviour)
    ensures Terminals(Block(c, b)) == [TerminalEvent(c.job, b.outcome)]
  {
    ProgressOnly(c.job, b.progress);
    NoTerminalsIn(ProgressEvents(c.job, b.progress));
    assert [TerminalEvent(c.job, b.outcome)][..0] == [];
    assert Terminals([TerminalEvent(c.job, b.outcome)]) == [TerminalEvent(c.job, b.outcome)];
    TerminalsConcat(ProgressEvents(c.job, b.progress), [TerminalEvent(c.job, b.outcome)]);
  }

  lemma {:induction false} BlocksAnswerInOrder(cs: seq<RenderCmd>, bs: seq<Behaviour>)
    requires |cs| == |bs|
    ensures Terminals(Blocks(cs, bs)) == Answers(cs, bs)
  {
    if cs != [] {
      var n := |cs| - 1;
      BlocksAnswerInOrder(cs[..n], bs[..n]);
      BlockAnswersOnce(cs[n], bs[n]);
      TerminalsConcat(Blocks(cs[..n], bs[..n]), Block(cs[n], bs[n]));
    }
  }

  lemma ReadyAnswers(cs: seq<RenderCmd>, bs: seq<Behaviour>)
    requires |cs| == |bs|
    ensures Terminals([Ready] + Blocks(cs, bs)) == Answers(cs, bs)
  {
    NoTerminalsIn([Ready]);
    BlocksAnswerInOrder(cs, bs);
    TerminalsConcat([Ready], Blocks(cs, bs));
  }

  /** For every input, the k-th terminal event on stdout answers the k-th render command read before
      the shutdown or the end of input, even when that command's result does not encode. */
  lemma OneAnswerPerCommand(lines: seq<CmdLine>, run: (nat, Json) -> Behaviour)
    ensures var cs := Renders(BeforeShutdown(lines));
      Terminals(ServeTrace(lines, run)) == Answers(cs, Behaviours(cs, run))
  {
    var cs := Renders(BeforeShutdown(lines));
    ReadyAnswers(cs, Behaviours(cs, run));
  }

  /** `es[i]` is followed, after further progress of the same job only, by the answer to its job. */
  ghost predicate Announces(es: seq<Event>, i: int, j: int) {
    && 0 <= i < j < |es|
    && es[i].Progress?
    && IsTerminal(es[j]) && es[j].job == es[i].job
    && forall k :: i <= k < j ==> es[k].Progress? && es[k].job == es[i].job
  }

  lemma {:induction false} ProgressOnly(job: Json, ps: seq<(int, int)>)
    ensures forall i :: 0 <= i < |ProgressEvents(job, ps)| ==>
      ProgressEvents(job, ps)[i].Progress? && ProgressEvents(job, ps)[i].job == job
  {
    if job != Null && ps != [] {
      ProgressOnly(job, ps[..|ps| - 1]);
    }
  }

  lemma {:induction false} ProgressStaysInItsBlock(cs: seq<RenderCmd>, bs: seq<Behaviour>, i: nat)
    requires |cs| == |bs| && i < |Blocks(cs, bs)| && Blocks(cs, bs)[i].Progress?
    ensures exists j :: Announces(Blocks(cs, bs), i, j)
  {
    var n := |cs| - 1;
    var front, block := Blocks(cs[..n], bs[..n]), Block(cs[n], bs[n]);
    var es := Blocks(cs, bs);
    ProgressOnly(cs[n].job, bs[n].progress);
    if i < |front| {
      ProgressStaysInItsBlock(cs[..n], bs[..n], i);
      var j :| Announces(front, i, j);
      assert forall k :: i <= k <= j ==> es[k] == front[k];
      assert Announces(es, i, j);
    } else {
      assert forall k :: |front| <= k < |es| ==> es[k] == block[k - |front|];
      assert Announces(es, i, |es| - 1);
    }
  }

  /** Progress reported for a job lies between that job's command and its own answer. */
  lemma ProgressPrecedesItsAnswer(lines: seq<CmdLine>, run: (nat, Json) -> Behaviour, i: nat)
    requires i < |ServeTrace(lines, run)| && ServeTrace(lines, run)[i].Progress?
    ensures exists j :: Announces(ServeTrace(lines, run), i, j)
  {
    var cs := Renders(BeforeShutdown(lines));
    var es, bl := ServeTrace(lines, run), Blocks(cs, Behaviours(cs, run));
    assert forall k :: 0 <= k < |bl| ==> es[k + 1] == bl[k];
    ProgressStaysInItsBlock(cs, Behaviours(cs, run), i - 1);
    var j :| Announces(bl, i - 1, j);
    assert forall k :: i <= k <= j + 1 ==> es[k] == bl[k - 1];
    assert Announces(es, i, j + 1);
  }

  // --- the trace, command by command --------------------------------------------------------------

  /** How many of the lines are render commands. */
  function RenderCount(lines: seq<CmdLine>): nat {
    if lines == [] then 0
    else
      var line := lines[|lines| - 1];
      RenderCount(lines[..|lines| - 1]) + (if line.Cmd? && line.command.Render? then 1 else 0)
  }

  /** `e` says how the call of the render body for `job` ended. */
  predicate Tells(e: Event, job: Json, o: RunOutcome) {
    match o
    case Gave(v) => e == Result(job, v)
    case Unencodable(m) => e.Error? && e.job == job && IsCut(e.message, m)
    case Threw(m) => e.Error? && e.job == job && IsCut(e.message, m)
  }

  /** From position `at`: everything the body reported, in order (nothing for a null job), then how it ended. */
  predicate BlockAt(es: seq<Event>, at: nat, job: Json, b: Behaviour) {
    var n := if job == Null then 0 else |b.progress|;
    && at + n < |es|
    && (forall j :: 0 <= j < n ==> es[at + j] == Progress(job, b.progress[j].0, b.progress[j].1))
    && Tells(es[at + n], job, b.outcome)
  }

  lemma {:induction false} ProgressAt(job: Json, ps: seq<(int, int)>)
    ensures |ProgressEvents(job, ps)| == if job == Null then 0 else |ps|
    ensures forall j :: 0 <= j < |ProgressEvents(job, ps)| ==>
      ProgressEvents(job, ps)[j] == Progress(job, ps[j].0, ps[j].1)
  {
    if job != Null && ps != [] {
      ProgressAt(job, ps[..|ps| - 1]);
    }
  }

  lemma BlockIsAt(es: seq<Event>, at: nat, c: RenderCmd, b: Behaviour)
    requires at + |Block(c, b)| <= |es| && es[at..at + |Block(c, b)|] == Block(c, b)
    ensures BlockAt(es, at, c.job, b)
  {
    var reports := ProgressEvents(c.job, b.progress);
    var n := |reports|;
    ProgressAt(c.job, b.progress);
    SliceAt(es, at, Block(c, b), n);
    forall j | 0 <= j < n
      ensures es[at + j] == Progress(c.job, b.progress[j].0, b.progress[j].1)
    {
      SliceAt(es, at, Block(c, b), j);
      assert Block(c, b)[j] == reports[j];
    }
  }

  lemma SliceAt(es: seq<Event>, at: nat, block: seq<Event>, j: nat)
    requires at + |block| <= |es| && es[at..at + |block|] == block && j < |block|
    ensures es[at + j] == block[j]
  {
    assert es[at..at + |block|][j] == es[at + j];
  }

  lemma {:induction false} BlocksSplit(cs: seq<RenderCmd>, bs: seq<Behaviour>, k: nat) returns (rest: seq<Event>)
    requires |cs| == |bs| && k < |cs|
    ensures Blocks(cs, bs) == Blocks(cs[..k], bs[..k]) + Block(cs[k], bs[k]) + rest
  {
    var n := |cs| - 1;
    if k == n {
      rest := [];
      assert Blocks(cs, bs) == Blocks(cs[..k], bs[..k]) + Block(cs[k], bs[k]) + rest;
    } else {
      var r := BlocksSplit(cs[..n], bs[..n], k);
      assert cs[..n][..k] == cs[..k] && bs[..n][..k] == bs[..k];
      rest := r + Block(cs[n], bs[n]);
    }
  }

  lemma {:induction false} BehaviourAt(cs: seq<RenderCmd>, run: (nat, Json) -> Behaviour, k: nat)
    requires k < |cs|
    ensures Behaviours(cs, run)[k] == run(k, cs[k].payload)
  {
    if k < |cs| - 1 {
      BehaviourAt(cs[..|cs| - 1], run, k);
    }
  }

  lemma {:induction false} RendersCounted(lines: seq<CmdLine>)
    ensures |Renders(lines)| == RenderCount(lines)
  {
    if lines != [] {
      RendersCounted(lines[..|lines| - 1]);
    }
  }

  lemma {:induction false} ReadUpTo(lines: seq<CmdLine>, n: nat)
    requires n <= |lines| && Cmd(Shutdown) !in lines[..n]
    ensures BeforeShutdown(lines) == lines[..n] + BeforeShutdown(lines[n..])
    decreases n
  {
    if n > 0 {
      assert lines[0] in lines[..n];
      assert lines[1..][..n - 1] == lines[..n][1..];
      ReadUpTo(lines[1..], n - 1);
      assert lines[..n] == [lines[0]] + lines[1..][..n - 1] && lines[1..][n - 1..] == lines[n..];
    } else {
      assert lines[0..] == lines;
    }
  }

  /** The command on line `i` is the call of the body that its place among the render commands says. */
  lemma CommandAt(lines: seq<CmdLine>, i: nat)
    requires i < |lines| && lines[i].Cmd? && lines[i].command.Render? && Cmd(Shutdown) !in lines[..i]
    ensures var cs, k, c := Renders(BeforeShutdown(lines)), RenderCount(lines[..i]), lines[i].command;
      k < |cs| && cs[k].job == c.job && (if c.input.Obj? then cs[k].payload == c.input else cs[k].payload == Obj(map[]))
  {
    var tail := BeforeShutdown(lines[i..]);
    ReadUpTo(lines, i);
    assert tail == [lines[i]] + BeforeShutdown(lines[i..][1..]);
    RendersConcat(lines[..i], tail);
    RendersConcat([lines[i]], BeforeShutdown(lines[i..][1..]));
    assert [lines[i]][..0] == [];
    assert Renders([lines[i]]) == RenderOf(lines[i]);
    RendersCounted(lines[..i]);
  }

  /** Every render command that is read is served: if `k` render commands precede it, the k-th call of the
      body runs on this command's own input (or on an empty object if that is none), and the trace has, right
      after the k-th answer, everything the body reported and then how it ended. */
  lemma EveryCommandIsServed(lines: seq<CmdLine>, run: (nat, Json) -> Behaviour, i: nat) returns (at: nat)
    requires i < |lines| && lines[i].Cmd? && lines[i].command.Render? && Cmd(Shutdown) !in lines[..i]
    ensures var c, k := lines[i].command, RenderCount(lines[..i]);
      var payload := if c.input.Obj? then c.input else Obj(map[]);
      Serves(ServeTrace(lines, run), at, k, c.job, run(k, payload))
  {
    var cs, k := Renders(BeforeShutdown(lines)), RenderCount(lines[..i]);
    CommandAt(lines, i);
    BehaviourAt(cs, run, k);
    at := ServedAt(cs, Behaviours(cs, run), k);
    var c := lines[i].command;
    var payload := if c.input.Obj? then c.input else Obj(map[]);
    assert cs[k].payload == payload && cs[k].job == c.job;
    var b := run(k, payload);
    assert Behaviours(cs, run)[k] == b;
    assert Serves(ServeTrace(lines, run), at, k, c.job, b);
  }

  ghost predicate Serves(es: seq<Event>, at: nat, k: nat, job: Json, b: Behaviour) {
    && 0 < at <= |es| && !es[at - 1].Progress?
    && |Terminals(es[..at])| == k
    && BlockAt(es, at, job, b)
  }

  lemma Slices<T>(a: seq<T>, b: seq<T>, c: seq<T>)
    ensures var s := a + b + c;
      |s| >= |a| + |b| && s[..|a|] == a && s[|a|..|a| + |b|] == b
  {
  }

  lemma ServedAt(cs: seq<RenderCmd>, bs: seq<Behaviour>, k: nat) returns (at: nat)
    requires |cs| == |bs| && k < |cs|
    ensures Serves([Ready] + Blocks(cs, bs), at, k, cs[k].job, bs[k])
  {
    var front, block := [Ready] + Blocks(cs[..k], bs[..k]), Block(cs[k], bs[k]);
    var rest := BlocksSplit(cs, bs, k);
    ReadyFirst(Blocks(cs[..k], bs[..k]) + block, rest);
    ReadyFirst(Blocks(cs[..k], bs[..k]), block);
    Slices(front, block, rest);
    at := |front|;
    ReadyAnswers(cs[..k], bs[..k]);
    EndsWithAnswer(cs[..k], bs[..k]);
    BlockIsAt(front + block + rest, at, cs[k], bs[k]);
    LastOfFront(front, block, rest);
  }

  lemma LastOfFront(front: seq<Event>, block: seq<Event>, rest: seq<Event>)
    requires front != []
    ensures (front + block + rest)[|front| - 1] == front[|front| - 1]
  {
  }

  lemma EndsWithAnswer(cs: seq<RenderCmd>, bs: seq<Behaviour>)
    requires |cs| == |bs|
    ensures var es := [Ready] + Blocks(cs, bs);
      !es[|es| - 1].Progress?
  {
  }

  /** And nothing else is in the trace: the ready event, then progress and as many answers as render commands
      were read. */
  lemma NothingElseIsServed(lines: seq<CmdLine>, run: (nat, Json) -> Behaviour, n: nat)
    requires n <= |lines| && Cmd(Shutdown) !in lines[..n] && (n == |lines| || lines[n] == Cmd(Shutdown))
    ensures var es := ServeTrace(lines, run);
      && es[0] == Ready
      && (forall j :: 0 < j < |es| ==> es[j].Progress? || IsTerminal(es[j]))
      && |Terminals(es)| == RenderCount(lines[..n])
  {
    var cs := Renders(BeforeShutdown(lines));
    ReadUpTo(lines, n);
    assert lines[..n] + [] == lines[..n];
    RendersCounted(lines[..n]);
    OneAnswerPerCommand(lines, run);
    BlocksHoldNoOther(cs, Behaviours(cs, run));
  }

  lemma {:induction false} BlocksHoldNoOther(cs: seq<RenderCmd>, bs: seq<Behaviour>)
    requires |cs| == |bs|
    ensures forall j :: 0 <= j < |Blocks(cs, bs)| ==> Blocks(cs, bs)[j].Progress? || IsTerminal(Blocks(cs, bs)[j])
  {
    if cs != [] {
      var n := |cs| - 1;
      BlocksHoldNoOther(cs[..n], bs[..n]);
      ProgressOnly(cs[n].job, bs[n].progress);
    }
  }

  predicate Meaningful(c: CmdLine) {
    c.Cmd? && (c.command.Render? || c.command.Shutdown?)
  }

  function OnlyMeaningful(lines: seq<CmdLine>): seq<CmdLine> {
    if lines == [] then []
    else if Meaningful(lines[0]) then [lines[0]] + OnlyMeaningful(lines[1..])
    else OnlyMeaningful(lines[1..])
  }

  lemma {:induction false} RendersConcat(a: seq<CmdLine>, b: seq<CmdLine>)
    ensures Renders(a + b) == Renders(a) + Renders(b)
  {
    if b == [] {
      assert a + b == a;
    } else {
      assert (a + b)[..|a + b| - 1] == a + b[..|b| - 1];
      RendersConcat(a, b[..|b| - 1]);
    }
  }

  lemma {:induction false} NoiseHasNoRenders(lines: seq<CmdLine>)
    ensures Renders(BeforeShutdown(lines)) == Renders(BeforeShutdown(OnlyMeaningful(lines)))
  {
    if lines != [] {
      NoiseHasNoRenders(lines[1..]);
      if lines[0] != Cmd(Shutdown) {
        RendersConcat([lines[0]], BeforeShutdown(lines[1..]));
        if Meaningful(lines[0]) {
          assert OnlyMeaningful(lines)[1..] == OnlyMeaningful(lines[1..]);
          RendersConcat([lines[0]], BeforeShutdown(OnlyMeaningful(lines[1..])));
        } else {
          assert Renders([lines[0]]) == [];
        }
      }
    }
  }

  /** Blank, malformed, non-object and unknown lines change nothing at all. */
  lemma NoiseIsInvisible(lines: seq<CmdLine>, run: (nat, Json) -> Behaviour)
    ensures ServeTrace(lines, run) == ServeTrace(OnlyMeaningful(lines), run)
  {
    NoiseHasNoRenders(lines);
  }
}
