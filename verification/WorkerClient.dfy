/** RenderWorkerClient of core/worker_client.py, updated in place: the handle and its queue, the render
    loop, and the loop's meaning as a scan of the queued items. */
module WorkerClient {
  import opened Common
  import opened RenderWorker
  import opened WorkerProcess
  import opened Jobs
  import opened WorkerIpc

  /** What the reader thread puts on the queue. */
  datatype Item = LineItem(line: Line) | EofItem

  /** One pass of the read loop: what `should_cancel` answers, and what the reader thread queues
      before `q.get` looks. */
  datatype Tick = Tick(cancel: bool, arrivals: seq<Item>)

  datatype End = Pending | CancelSeen | Answered(outcome: Outcome) | EofSeen

  function EndOf(item: Item): End {
    match item
    case EofItem => EofSeen
    case LineItem(line) => if Verdict(line).Some? then Answered(Verdict(line).value) else Pending
  }

  predicate Decides(item: Item) {
    EndOf(item) != Pending
  }

  /** The read loop: how it ends on this schedule, and what it leaves in the queue. */
  function Scan(q: seq<Item>, ticks: seq<Tick>): (End, seq<Item>)
    decreases |ticks|
  {
    if ticks == [] then (Pending, q)
    else if ticks[0].cancel then (CancelSeen, q)
    else
      var items := q + ticks[0].arrivals;
      if items == [] then Scan([], ticks[1..])
      else if Decides(items[0]) then (EndOf(items[0]), items[1..])
      else Scan(items[1..], ticks[1..])
  }

  /** What `render` does for the caller when the loop ends so. `code` is the exit code it reports. */
  function OutcomeOf(end: End, code: string, corr: string): Option<Outcome> {
    match end
    case Pending => None
    case CancelSeen => Some(WasCancelled)
    case Answered(o) => Some(o)
    case EofSeen => Some(Raised(DiedText(code, corr)))
  }

  /** The parent's handle on a worker: a Popen object. */
  class Handle {
    var stdin: seq<CmdLine>
    var stdinOpen: bool
    var stdoutOpen: bool
    var exited: bool

    constructor ()
      ensures stdin == [] && stdinOpen && stdoutOpen && !exited
    {
      stdin, stdinOpen, stdoutOpen, exited := [], true, true, false;
    }
  }

  class ReaderQueue {
    var items: seq<Item>

    constructor ()
      ensures items == []
    {
      items := [];
    }
  }

  /** How an attempt to spawn a worker can fail: no process, or a process whose reader thread does not start. */
  datatype SpawnFault = NoFault | NoProcess(why: string) | NoReader(why: string)

  /** How the outside world behaves during one call of `render`. */
  datatype Script = Script(
    spawn: SpawnFault,            // met only if a worker has to be spawned
    writeError: Option<string>,   // the command cannot be written
    reach: Reach,                 // and how much of it reached the pipe
    code: string,                 // what `poll` reports when it is asked for the exit code
    ticks: seq<Tick>,
    obeysTerm: bool,              // a terminated worker exits within the grace period
    obeysKill: bool)

  class RenderWorkerClient {
    var proc: Handle?
    var queue: ReaderQueue?

    /** The handle and its queue are set and cleared together, and the current handle's pipes are open. */
    ghost predicate Valid()
      reads this, proc
    {
      && (proc == null <==> queue == null)
      && (proc != null ==> proc.stdinOpen && proc.stdoutOpen)
    }

    constructor ()
      ensures Valid() && proc == null
    {
      proc, queue := null, null;
    }

    method Reap(p: Handle?)
      requires Valid()
      modifies this, if p == null then {} else {p}
      ensures Valid()
      ensures p != null ==> !p.stdinOpen && !p.stdoutOpen && p.stdin == old(p.stdin) && p.exited == old(p.exited)
      ensures if p != null && old(proc) == p then proc == null else proc == old(proc) && queue == old(queue)
    {
      if p == null {
        return;
      }
      p.stdinOpen := false;
      p.stdoutOpen := false;
      if proc == p {
        proc := null;
        queue := null;
      }
    }

    method TerminateProc(p: Handle, obeysTerm: bool, obeysKill: bool)
      modifies p`exited
      ensures p.exited <==> old(p.exited) || obeysTerm || obeysKill
    {
      if p.exited {
        return;
      }
      p.exited := obeysTerm;
      if p.exited {
        return;
      }
      p.exited := obeysKill;
    }

    predicate Alive()
      reads this, proc
    {
      proc != null && !proc.exited
    }

    /** A live worker is kept with its queue; otherwise the dead handle is reaped and a fresh worker is
        spawned with a fresh, empty queue. If that raises, there is no current handle. */
    method EnsureWorker(spawn: SpawnFault) returns (p: Handle?)
      requires Valid()
      modifies this, if proc == null then {} else {proc}
      ensures Valid() && p == proc
      ensures p == null <==> !old(Alive()) && spawn != NoFault
      ensures p != null ==> !p.exited && queue != null
      ensures old(Alive()) ==> p == old(proc) && queue == old(queue) && p.stdin == old(proc.stdin)
      ensures !old(Alive()) && p != null ==> fresh(p) && fresh(queue) && queue.items == [] && p.stdin == []
      ensures old(proc) != null && old(proc.exited) ==> !old(proc).stdinOpen && !old(proc).stdoutOpen
    {
      if Alive() {
        return proc;
      }
      Reap(proc);
      if spawn.NoProcess? {
        return null;
      }
      p := new Handle();
      var q := new ReaderQueue();
      if spawn.NoReader? {
        return null;
      }
      proc := p;
      queue := q;
    }

    method ReadUntilTerminal(p: Handle, q: ReaderQueue, corr: string, s: Script) returns (o: Option<Outcome>)
      requires Valid()
      modifies this, p, q
      ensures Valid()
      ensures var (end, rest) := Scan(old(q.items), s.ticks);
        && q.items == rest
        && o == OutcomeOf(end, s.code, corr)
        && (if end.Pending? || end.Answered? then proc == old(proc) && queue == old(queue)
            else proc == (if old(proc) == p then null else old(proc)) && !p.stdinOpen && !p.stdoutOpen)
        && (end.CancelSeen? && (s.obeysTerm || s.obeysKill) ==> p.exited)
      ensures p.stdin == old(p.stdin)
    {
      var i := 0;
      while i < |s.ticks|
        invariant 0 <= i <= |s.ticks|
        invariant Valid() && proc == old(proc) && queue == old(queue) && p.stdin == old(p.stdin)
        invariant Scan(old(q.items), s.ticks) == Scan(q.items, s.ticks[i..])
      {
        var tick := s.ticks[i];
        assert s.ticks[i..][0] == tick && s.ticks[i..][1..] == s.ticks[i + 1..];
        if tick.cancel {
          TerminateProc(p, s.obeysTerm, s.obeysKill);
          Reap(p);
          return Some(WasCancelled);
        }
        q.items := q.items + tick.arrivals;
        i := i + 1;
        if q.items == [] {
          continue;
        }
        var item := q.items[0];
        q.items := q.items[1..];
        if item.EofItem? {
          Reap(p);
          return Some(Raised(DiedText(s.code, corr)));
        }
        if !item.line.Protocol? {
          continue;
        }
        match item.line.event {
          case Result(_, output) => return Some(Returned(AsDict(output)));
          case Error(_, message) => return Some(Raised(if message == "" then FALLBACK else message));
          case Ready =>
          case Progress(_, _, _) =>
          case OtherVerb =>
        }
      }
      return None;
    }

    /** One call of `render`. `None` means that the schedule ran out while the call still waits. Without a
        worker nothing is written. */
    method Render(call: Call, s: Script) returns (o: Option<Outcome>, p: Handle?)
      requires Valid()
      modifies this, if proc == null then {} else {proc}, if queue == null then {} else {queue}
      ensures Valid()
      ensures p == null <==> !old(Alive()) && s.spawn != NoFault
      ensures p == null ==> o == Some(Raised(s.spawn.why)) && proc == null
      ensures p != null ==> if old(Alive()) then p == old(proc) else fresh(p)
      ensures p != null ==>
        var sent := if old(Alive()) then old(proc.stdin) else [];
        p.stdin == sent + if s.writeError.Some? then Reached(s.reach, call) else [CommandLine(call)]
      ensures p != null && s.writeError.Some? ==>
        o == Some(Raised(UnavailableText(s.code, call.corr, s.writeError.value))) && proc == null
      ensures p != null && s.writeError.None? ==>
        var start := if old(Alive()) then old(queue.items) else [];
        var (end, rest) := Scan(start, s.ticks);
        && o == OutcomeOf(end, s.code, call.corr)
        && (if end.Pending? || end.Answered? then proc == p && queue != null && queue.items == rest
            else proc == null)
    {
      p := EnsureWorker(s.spawn);
      if p == null {
        return Some(Raised(s.spawn.why)), null;
      }
      var q := queue;
      if s.writeError.Some? {
        p.stdin := p.stdin + Reached(s.reach, call);
        Reap(p);
        return Some(Raised(UnavailableText(s.code, call.corr, s.writeError.value))), p;
      }
      p.stdin := p.stdin + [CommandLine(call)];
      o := ReadUntilTerminal(p, q, call.corr, s);
    }

    /** `shutdown`: ask only if the lock was free (`got`), terminate in any case, then drop the handle. The
        request may fail to be written, and the worker may or may not exit on its own. */
    method Shutdown(got: bool, graceful: bool, written: bool, exitsOnItsOwn: bool, obeysTerm: bool, obeysKill: bool)
      requires Valid()
      modifies this, if proc == null then {} else {proc}
      ensures Valid() && proc == null
      ensures old(proc) != null ==>
        && !old(proc).stdinOpen && !old(proc).stdoutOpen
        && old(proc).stdin == old(proc.stdin) +
             (if got && graceful && written && !old(proc.exited) then [Cmd(RenderWorker.Shutdown)] else [])
        && (old(proc).exited <==> old(proc.exited) || (got && graceful && exitsOnItsOwn) || obeysTerm || obeysKill)
    {
      var p := proc;
      if p == null {
        return;
      }
      if got && graceful && !p.exited {
        if written {
          p.stdin := p.stdin + [Cmd(RenderWorker.Shutdown)];
        }
        p.exited := exitsOnItsOwn;
      }
      TerminateProc(p, obeysTerm, obeysKill);
      Reap(p);
    }
  }

  // --- the loop as a scan -------------------------------------------------------------------------------

  function Arrivals(ticks: seq<Tick>): seq<Item> {
    if ticks == [] then [] else ticks[0].arrivals + Arrivals(ticks[1..])
  }

  predicate NoCancel(ticks: seq<Tick>) {
    forall i :: 0 <= i < |ticks| ==> !ticks[i].cancel
  }

  lemma NoCancelLater(ticks: seq<Tick>)
    requires NoCancel(ticks) && ticks != []
    ensures NoCancel(ticks[1..]) && !ticks[0].cancel
  {
    assert forall i :: 0 <= i < |ticks[1..]| ==> ticks[1..][i] == ticks[i + 1];
  }

  /** The meaning of a stream of items: what its first deciding item says. */
  function FirstDecision(items: seq<Item>): End {
    if items == [] then Pending
    else if Decides(items[0]) then EndOf(items[0])
    else FirstDecision(items[1..])
  }

  /** Without a cancel the loop returns what the first deciding item of the whole stream says; if it
      still waits, it has dropped only items that decide nothing. */
  lemma {:induction false} ScanIsFirstDecision(q: seq<Item>, ticks: seq<Tick>)
    requires NoCancel(ticks)
    ensures var (end, rest) := Scan(q, ticks);
      if end == Pending then FirstDecision(q + Arrivals(ticks)) == FirstDecision(rest)
      else end == FirstDecision(q + Arrivals(ticks))
    decreases |ticks|
  {
    if ticks == [] {
      assert q + [] == q;
    } else {
      var items := q + ticks[0].arrivals;
      NoCancelLater(ticks);
      assert q + Arrivals(ticks) == items + Arrivals(ticks[1..]);
      if items == [] {
        ScanIsFirstDecision([], ticks[1..]);
      } else {
        assert items + Arrivals(ticks[1..]) == [items[0]] + (items[1..] + Arrivals(ticks[1..]));
        if !Decides(items[0]) {
          ScanIsFirstDecision(items[1..], ticks[1..]);
        }
      }
    }
  }

  /** Once the reader is silent, one pass per queued item is enough: the loop then waits only if the
      stream holds no deciding item at all. */
  lemma {:induction false} SilentPassesSuffice(q: seq<Item>, ticks: seq<Tick>)
    requires NoCancel(ticks) && Arrivals(ticks) == [] && |ticks| >= |q|
    ensures Scan(q, ticks).0 == FirstDecision(q)
    decreases |ticks|
  {
    if ticks != [] {
      NoCancelLater(ticks);
      assert ticks[0].arrivals == [] && q + ticks[0].arrivals == q;
      if q == [] {
        SilentPassesSuffice([], ticks[1..]);
      } else if !Decides(q[0]) {
        SilentPassesSuffice(q[1..], ticks[1..]);
      }
    }
  }

  lemma {:induction false} ScanContinues(q: seq<Item>, a: seq<Tick>, b: seq<Tick>)
    ensures Scan(q, a + b) == if Scan(q, a).0 == Pending then Scan(Scan(q, a).1, b) else Scan(q, a)
    decreases |a|
  {
    if a == [] {
      assert a + b == b;
    } else {
      assert (a + b)[1..] == a[1..] + b;
      var items := q + a[0].arrivals;
      if !a[0].cancel {
        if items == [] {
          ScanContinues([], a[1..], b);
        } else if !Decides(items[0]) {
          ScanContinues(items[1..], a[1..], b);
        }
      }
    }
  }

  /** A stream that ends gives an end to the call: never a hang. The reader appends its end-of-file
      item whatever happens, so a waiting call always gets a decision once the reader is done. */
  lemma EndedStreamEndsTheCall(q: seq<Item>, ticks: seq<Tick>, silent: seq<Tick>)
    requires NoCancel(ticks) && NoCancel(silent) && Arrivals(silent) == []
    requires |silent| >= |Scan(q, ticks).1|
    requires EofItem in q + Arrivals(ticks)
    ensures Scan(q, ticks + silent).0 == FirstDecision(q + Arrivals(ticks)) != Pending
  {
    ScanIsFirstDecision(q, ticks);
    ScanContinues(q, ticks, silent);
    EofDecides(q + Arrivals(ticks));
    if Scan(q, ticks).0 == Pending {
      SilentPassesSuffice(Scan(q, ticks).1, silent);
    }
  }

  lemma {:induction false} EofDecides(items: seq<Item>)
    requires EofItem in items
    ensures FirstDecision(items) != Pending
  {
    if !Decides(items[0]) {
      assert items == [items[0]] + items[1..];
      EofDecides(items[1..]);
    }
  }

  /** The first of answer, end of file and observed cancel wins: a cancel seen at pass `i` decides
      exactly when the passes before it had not. */
  lemma FirstCancelDecides(q: seq<Item>, ticks: seq<Tick>, i: nat)
    requires i < |ticks| && ticks[i].cancel && NoCancel(ticks[..i])
    ensures Scan(q, ticks) ==
      if Scan(q, ticks[..i]).0 == Pending then (CancelSeen, Scan(q, ticks[..i]).1) else Scan(q, ticks[..i])
  {
    assert ticks == ticks[..i] + ticks[i..];
    ScanContinues(q, ticks[..i], ticks[i..]);
  }

  /** The item is the end of the file, or a result or an error. */
  predicate IsLast(item: Item) {
    item.EofItem? || (item.line.Protocol? && IsTerminal(item.line.event))
  }

  /** What the first such item of a stream says is what the stream means: a result's own output if that is an
      object and an empty object if not, an error's own message or the fixed text, or the loss of the worker. */
  lemma {:induction false} FirstLastDecides(items: seq<Item>, i: nat)
    requires i < |items| && IsLast(items[i]) && forall j :: 0 <= j < i ==> !IsLast(items[j])
    ensures items[i].EofItem? ==> FirstDecision(items) == EofSeen
    ensures items[i].LineItem? && items[i].line.event.Result? ==>
      var output := items[i].line.event.output;
      FirstDecision(items) == Answered(Returned(if output.Obj? then output else Obj(map[])))
    ensures items[i].LineItem? && items[i].line.event.Error? ==>
      var message := items[i].line.event.message;
      FirstDecision(items) == Answered(Raised(if message == "" then FALLBACK else message))
  {
    if i > 0 {
      assert !IsLast(items[0]);
      FirstLastDecides(items[1..], i - 1);
    }
  }

  lemma {:induction false} NoneDecides(items: seq<Item>)
    requires forall j :: 0 <= j < |items| ==> !IsLast(items[j])
    ensures FirstDecision(items) == Pending
  {
    if items != [] {
      NoneDecides(items[1..]);
    }
  }

  /** The read loop returns the very object of the first result, if that comes before anything else that ends the
      call, and nobody cancels. */
  lemma ResultIsReturned(q: seq<Item>, ticks: seq<Tick>, i: nat)
    requires NoCancel(ticks) && Scan(q, ticks).0 != Pending
    requires var items := q + Arrivals(ticks);
      i < |items| && IsLast(items[i]) && forall j :: 0 <= j < i ==> !IsLast(items[j])
    ensures var item := (q + Arrivals(ticks))[i];
      && (item.EofItem? ==> Scan(q, ticks).0 == EofSeen)
      && (item.LineItem? && item.line.event.Result? ==>
            var output := item.line.event.output;
            Scan(q, ticks).0 == Answered(Returned(if output.Obj? then output else Obj(map[]))))
      && (item.LineItem? && item.line.event.Error? ==>
            var message := item.line.event.message;
            Scan(q, ticks).0 == Answered(Raised(if message == "" then FALLBACK else message)))
  {
    ScanIsFirstDecision(q, ticks);
    FirstLastDecides(q + Arrivals(ticks), i);
  }

  function OnlyDeciding(items: seq<Item>): seq<Item> {
    if items == [] then []
    else if Decides(items[0]) then [items[0]] + OnlyDeciding(items[1..])
    else OnlyDeciding(items[1..])
  }

  /** Stray lines, blank lines, progress and unknown events never change the meaning of a stream. */
  lemma {:induction false} NoiseNeverDecides(items: seq<Item>)
    ensures FirstDecision(OnlyDeciding(items)) == FirstDecision(items)
  {
    if items != [] {
      NoiseNeverDecides(items[1..]);
    }
  }

  // --- the loop and the step system ------------------------------------------------------------------------

  function LineItems(ls: seq<Line>): seq<Item> {
    if ls == [] then [] else [LineItem(ls[0])] + LineItems(ls[1..])
  }

  /** The reader queue of a worker of the step system. */
  function QueueOf(p: Proc): seq<Item>
    requires InOrder(p)
  {
    LineItems(p.stdout[p.taken..p.pumped]) + (if p.readerDone then [EofItem] else [])
  }

  lemma {:induction false} LineItemsAppend(ls: seq<Line>, l: Line)
    ensures LineItems(ls + [l]) == LineItems(ls) + [LineItem(l)]
  {
    if ls != [] {
      assert (ls + [l])[1..] == ls[1..] + [l];
      LineItemsAppend(ls[1..], l);
    }
  }

  predicate InOrder(p: Proc) {
    p.taken <= p.pumped <= |p.stdout|
  }

  /** The reader thread appends one item at a time, and its end-of-file item once and last. */
  lemma ReaderAppends(p: Proc, a: ProcAction)
    requires InOrder(p) && ProcEnabled(p, a) && (a == Pump || a == PumpEof)
    ensures !p.readerDone
    ensures QueueOf(ProcNext(p, a)) ==
      QueueOf(p) + [if a == Pump then LineItem(p.stdout[p.pumped]) else EofItem]
  {
    var waiting := p.stdout[p.taken..p.pumped];
    assert QueueOf(p) == LineItems(waiting);
    if a == Pump {
      assert p.stdout[p.taken..p.pumped + 1] == waiting + [p.stdout[p.pumped]];
      LineItemsAppend(waiting, p.stdout[p.pumped]);
      assert QueueOf(ProcNext(p, a)) == LineItems(waiting + [p.stdout[p.pumped]]);
    }
  }

  lemma QueueHead(p: Proc)
    requires InOrder(p)
    ensures p.taken < p.pumped ==>
      QueueOf(p) == [LineItem(p.stdout[p.taken])] + QueueOf(p.(taken := p.taken + 1))
    ensures p.taken == p.pumped ==> QueueOf(p) == if p.readerDone then [EofItem] else []
  {
    if p.taken < p.pumped {
      assert p.stdout[p.taken..p.pumped][1..] == p.stdout[p.taken + 1..p.pumped];
    }
  }

  lemma ScanOnePass(q: seq<Item>, cancel: bool)
    ensures Scan(q, [Tick(cancel, [])]) ==
      if cancel then (CancelSeen, q)
      else if q == [] then (Pending, [])
      else (EndOf(q[0]), q[1..])
  {
    assert q + [] == q;
    assert [Tick(cancel, [])][1..] == [];
  }

  /** The step of the system that takes the next item off the queue, if there is one. */
  function GetStep(p: Proc, code: string): IpcAction {
    if p.taken < p.pumped then GetLine else if p.readerDone then GetEof(code) else GetTimesOut
  }

  /** A pass that sees the cancel is one step of the system, which ends the call. */
  lemma CanceledPassIsOneStep(s: Ipc, killed: bool, code: string)
    requires s.phase.Polling? && s.phase.p < |s.procs| && InOrder(s.procs[s.phase.p])
    ensures Yield(s, Poll(true, killed)) ==
      OutcomeOf(Scan(QueueOf(s.procs[s.phase.p]), [Tick(true, [])]).0, code, s.phase.call.corr)
    ensures IpcNext(s, Poll(true, killed)).procs[s.phase.p].child ==
      if killed then Exited else s.procs[s.phase.p].child
  {
    ScanOnePass(QueueOf(s.procs[s.phase.p]), true);
  }

  /** Every other pass is the poll step followed by one get step, with the same end of the call and
      the same queue left behind. */
  lemma PassIsTwoSteps(s: Ipc, killed: bool, code: string)
    requires s.phase.Polling? && s.phase.p < |s.procs| && InOrder(s.procs[s.phase.p])
    ensures var w, call := s.phase.p, s.phase.call;
      var (end, rest) := Scan(QueueOf(s.procs[w]), [Tick(false, [])]);
      var t := IpcNext(s, Poll(false, killed));
      var get := GetStep(s.procs[w], code);
      && IpcEnabled(t, get)
      && Yield(t, get) == OutcomeOf(end, code, call.corr)
      && (end == Pending ==> IpcNext(t, get).phase == Polling(w, call))
      && (end != EofSeen ==> InOrder(IpcNext(t, get).procs[w]) && QueueOf(IpcNext(t, get).procs[w]) == rest)
  {
    QueueHead(s.procs[s.phase.p]);
    ScanOnePass(QueueOf(s.procs[s.phase.p]), false);
  }
}
