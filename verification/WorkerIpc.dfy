/** The parent side of the worker protocol, core/worker_client.py, as a step system over the worker
    processes it has spawned.

    The client returns on the first terminal event it dequeues and never compares the event's job. */
module WorkerIpc {
  import opened Common
  import opened RenderWorker
  import opened WorkerProcess
  import opened Jobs

  /** One call of `render`: its correlation id and its payload. */
  datatype Call = Call(corr: string, payload: Json)

  /** Where the holder of the render lock stands. */
  datatype Phase =
    | Idle                            // the lock is free
    | Holding(p: nat, call: Call)     // `_ensure_worker` returned, the command is not written yet
    | Polling(p: nat, call: Call)     // about to ask `should_cancel`
    | Getting(p: nat, call: Call)     // about to take from the reader queue

  datatype Ipc = Ipc(
    procs: seq<Proc>,                 // every worker ever spawned, with its own pipes and queue
    current: Option<nat>,             // the handle `_proc` (and its `_queue`)
    phase: Phase,
    slots: map<string, (nat, nat)>)   // correlation id -> worker, and index among its render commands

  const NEW_IPC := Ipc([], None, Idle, map[])

  /** How much of a failing write reached the pipe. */
  datatype Reach = Nothing | Part | Everything

  datatype IpcAction =
    | Begin(call: Call)                                  // take the lock, `_ensure_worker`
    | NoWorker(leaked: bool, why: string)                // the spawn raises, or its reader thread does
    | Send
    | SendFails(reach: Reach, code: string, why: string)
    | Poll(cancel: bool, killed: bool)                   // `should_cancel()`, then maybe terminate and reap
    | GetTimesOut
    | GetLine
    | GetEof(code: string)
    | Worker(w: nat, step: ProcAction)                   // the child, its reader thread, or a signal
    | SendShutdown                                       // `shutdown` while it holds the idle lock
    | LateReap(w: nat)                                   // `shutdown` drops its handle, without the lock

  function CommandLine(c: Call): CmdLine {
    Cmd(Render(Str(c.corr), c.payload))
  }

  /** What writing to a pipe that `_reap` has closed raises. */
  const CLOSED_TEXT := "I/O operation on closed file."

  const FALLBACK := "render worker reported an error"

  function UnavailableText(code: string, corr: string, why: string): string {
    "render worker unavailable (exit code=" + code + ") before job " + corr + " started: " + why
  }

  function DiedText(code: string, corr: string): string {
    "render worker exited (code=" + code + ") before completing job " + corr
  }

  /** What one dequeued line does to the render loop: nothing, or its end. */
  function Verdict(l: Line): Option<Outcome> {
    if !l.Protocol? then None
    else match l.event
      case Result(_, output) => Some(Returned(AsDict(output)))
      case Error(_, message) => Some(Raised(if message == "" then FALLBACK else message))
      case Ready => None
      case Progress(_, _, _) => None
      case OtherVerb => None
  }

  function ClosePipes(p: Proc): Proc {
    p.(stdinOpen := false, stdoutOpen := false)
  }

  /** `_reap` */
  function Reap(s: Ipc, w: nat): Ipc
    requires w < |s.procs|
  {
    s.(procs := s.procs[w := ClosePipes(s.procs[w])],
       current := if s.current == Some(w) then None else s.current)
  }

  predicate Alive(s: Ipc) {
    s.current.Some? && s.current.value < |s.procs| && s.procs[s.current.value].child != Exited
  }

  /** A dead handle is reaped before another worker is spawned. */
  function DropDead(s: Ipc): Ipc {
    if s.current.Some? && s.current.value < |s.procs| then Reap(s, s.current.value) else s
  }

  /** `_ensure_worker` and `q = self._queue`, under the lock. */
  function LiveWorker(s: Ipc): (t: Ipc)
    ensures t.current.Some? && t.current.value < |t.procs|
  {
    if Alive(s) then s
    else
      var t := DropDead(s);
      t.(procs := t.procs + [SPAWNED], current := Some(|t.procs|))
  }

  predicate IpcEnabled(s: Ipc, a: IpcAction) {
    match a
    case Begin(call) => s.phase == Idle && call.corr !in s.slots      // uuid4 never repeats
    case NoWorker(_, _) => s.phase == Idle && !Alive(s)
    case Send => s.phase.Holding? && s.phase.p < |s.procs| && s.procs[s.phase.p].stdinOpen
    case SendFails(_, _, _) => s.phase.Holding? && s.phase.p < |s.procs|
    case Poll(_, _) => s.phase.Polling? && s.phase.p < |s.procs|
    case GetTimesOut => s.phase.Getting? && s.phase.p < |s.procs| &&
      s.procs[s.phase.p].taken == s.procs[s.phase.p].pumped && !s.procs[s.phase.p].readerDone
    case GetLine => s.phase.Getting? && s.phase.p < |s.procs| &&
      s.procs[s.phase.p].taken < s.procs[s.phase.p].pumped <= |s.procs[s.phase.p].stdout|
    case GetEof(_) => s.phase.Getting? && s.phase.p < |s.procs| &&
      s.procs[s.phase.p].taken == s.procs[s.phase.p].pumped && s.procs[s.phase.p].readerDone
    case Worker(w, step) => w < |s.procs| && ProcEnabled(s.procs[w], step)
    case SendShutdown => s.phase == Idle && s.current.Some? && s.current.value < |s.procs| &&
      s.procs[s.current.value].stdinOpen
    case LateReap(w) => w < |s.procs|
  }

  /** What a failing write leaves in the pipe. */
  function Reached(reach: Reach, call: Call): seq<CmdLine> {
    match reach
    case Nothing => []
    case Part => [Malformed]
    case Everything => [CommandLine(call)]
  }

  function Write(s: Ipc, w: nat, lines: seq<CmdLine>): Ipc
    requires w < |s.procs|
  {
    s.(procs := s.procs[w := s.procs[w].(stdin := s.procs[w].stdin + lines)])
  }

  function IpcNext(s: Ipc, a: IpcAction): Ipc
    requires IpcEnabled(s, a)
  {
    match a
    case Begin(call) =>
      var t := LiveWorker(s);
      var p := t.current.value;
      t.(phase := Holding(p, call),
         slots := s.slots[call.corr := (p, |Renders(t.procs[p].stdin)|)])
    case NoWorker(leaked, _) =>
      var t := DropDead(s);
      if leaked then t.(procs := t.procs + [SPAWNED]) else t
    case Send =>
      Write(s, s.phase.p, [CommandLine(s.phase.call)]).(phase := Polling(s.phase.p, s.phase.call))
    case SendFails(reach, _, _) =>
      Reap(Write(s, s.phase.p, Reached(reach, s.phase.call)), s.phase.p).(phase := Idle)
    case Poll(cancel, killed) =>
      if !cancel then s.(phase := Getting(s.phase.p, s.phase.call))
      else
        var p := s.procs[s.phase.p];
        var q := if killed then p.(child := Exited) else p;
        Reap(s.(procs := s.procs[s.phase.p := q]), s.phase.p).(phase := Idle)
    case GetTimesOut => s.(phase := Polling(s.phase.p, s.phase.call))
    case GetLine =>
      var p := s.procs[s.phase.p];
      s.(procs := s.procs[s.phase.p := p.(taken := p.taken + 1)],
         phase := if Verdict(p.stdout[p.taken]).Some? then Idle else Polling(s.phase.p, s.phase.call))
    case GetEof(_) => Reap(s, s.phase.p).(phase := Idle)
    case Worker(w, step) => s.(procs := s.procs[w := ProcNext(s.procs[w], step)])
    case SendShutdown => Write(s, s.current.value, [Cmd(Shutdown)])
    case LateReap(w) => Reap(s, w)
  }

  /** How the call in progress ends with this step, if it ends. */
  function Yield(s: Ipc, a: IpcAction): Option<Outcome>
    requires IpcEnabled(s, a)
  {
    match a
    case NoWorker(_, why) => Some(Raised(why))
    case SendFails(_, code, why) =>
      Some(Raised(if s.procs[s.phase.p].stdinOpen
                  then UnavailableText(code, s.phase.call.corr, why) else CLOSED_TEXT))
    case Poll(cancel, _) => if cancel then Some(WasCancelled) else None
    case GetLine => Verdict(s.procs[s.phase.p].stdout[s.procs[s.phase.p].taken])
    case GetEof(code) => Some(Raised(DiedText(code, s.phase.call.corr)))
    case _ => None
  }

  // --- the invariant ------------------------------------------------------------------------------

  /** The answers that the client has dequeued from a worker. */
  function Taken(p: Proc): seq<Event> {
    Terminals(Events(if p.taken <= |p.stdout| then p.stdout[..p.taken] else p.stdout))
  }

  /** Every command ever sent to the worker has been answered, and the answer dequeued. */
  predicate Quiet(p: Proc) {
    |Taken(p)| == |Renders(p.stdin)|
  }

  /** The last command sent to the worker is this call's, and the only one not yet answered. */
  predicate Awaiting(p: Proc, call: Call) {
    && |Taken(p)| + 1 == |Renders(p.stdin)|
    && Renders(p.stdin)[|Taken(p)|] == RenderCmd(Str(call.corr), AsDict(call.payload))
  }

  ghost predicate PhaseOk(s: Ipc) {
    match s.phase
    case Idle => s.current.Some? ==> s.current.value < |s.procs| && Quiet(s.procs[s.current.value])
    case Holding(p, call) =>
      && p < |s.procs| && (s.current == None || s.current == Some(p))
      && Quiet(s.procs[p])
      && call.corr in s.slots && s.slots[call.corr] == (p, |Renders(s.procs[p].stdin)|)
    case Polling(p, call) => InFlight(s, p, call)
    case Getting(p, call) => InFlight(s, p, call)
  }

  ghost predicate InFlight(s: Ipc, p: nat, call: Call) {
    && p < |s.procs| && (s.current == None || s.current == Some(p))
    && Awaiting(s.procs[p], call)
    && call.corr in s.slots && s.slots[call.corr] == (p, |Renders(s.procs[p].stdin)| - 1)
  }

  /** Every render command ever written sits in the slot of its own correlation id. */
  ghost predicate SlotsOk(s: Ipc) {
    && (forall w, k :: 0 <= w < |s.procs| && 0 <= k < |Renders(s.procs[w].stdin)| ==>
          SitsInItsSlot(s, w, k))
    && (forall c :: c in s.slots ==> s.slots[c].0 < |s.procs|)
  }

  ghost predicate SitsInItsSlot(s: Ipc, w: nat, k: nat)
    requires w < |s.procs| && k < |Renders(s.procs[w].stdin)|
  {
    var job := Renders(s.procs[w].stdin)[k].job;
    job.Str? && job.s in s.slots && s.slots[job.s] == (w, k)
  }

  ghost predicate IpcInv(s: Ipc) {
    && (forall w :: 0 <= w < |s.procs| ==> ProcValid(s.procs[w]))
    && (s.current.Some? ==> s.current.value < |s.procs|)
    && PhaseOk(s)
    && SlotsOk(s)
  }

  /** Some worker passed the payload of this call (or an empty object, if it is none) to its render body, under
      this call's id, and that execution ended with `o`. */
  ghost predicate Executed(s: Ipc, call: Call, o: RunOutcome) {
    && call.corr in s.slots
    && var (w, k) := s.slots[call.corr];
       && w < |s.procs| && k < |s.procs[w].done| && k < |s.procs[w].ran|
       && s.procs[w].ran[k].job == Str(call.corr)
       && s.procs[w].ran[k].payload == (if call.payload.Obj? then call.payload else Obj(map[]))
       && s.procs[w].done[k].outcome == o
  }

  /** What the caller of `render` gets when the worker's run function ended with `o`. */
  function Delivered(o: RunOutcome): Outcome {
    match o
    case Gave(v) => Returned(AsDict(v))
    case Unencodable(m) => Raised(if m == "" then FALLBACK else Take(m, 500))
    case Threw(m) => Raised(if m == "" then FALLBACK else Take(m, 500))
  }
}
