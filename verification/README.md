# Render door verification

A Dafny model of the always-on render door: the serial job registry, the client that drives one render
worker process over two pipes, the worker's protocol loop, the process-wide pipeline caches that decide who
holds the consumer card, and the key, frame and crop arithmetic around them. `dafny verify dfyconfig.toml`
checks the whole project (Dafny 4.11).

## How the model is laid out

Code that changes things in place is a class or a loop here too, and each method is proved against a value
function; theorems over runs are then proved about the value functions.

| file | models |
|---|---|
| `Jobs.dfy`, `JobsTheorems.dfy` | the registry as a value, its atomic (lock-held) steps, the step relation, the histories the registry forgets, and the theorems over all runs |
| `JobRegistry.dfy` | the `JobRegistry` class: map, queue and finish-order deque reassigned by its methods and the worker loop, each method equal to a step of `Jobs` |
| `StatusEnvelope.dfy` | `status_dict`, which takes no lock, read field by field between the writer's field writes |
| `RenderWorker.dfy` | `serve_loop` as a loop producing an event trace |
| `WorkerProcess.dfy` | one spawned worker: two pipes (a log and a cursor each), the child as an automaton, the reader thread |
| `WorkerIpc.dfy`, `WorkerIpcTheorems.dfy` | the client's steps over any number of spawned workers, with deaths at any point, partial writes, cancels and respawns |
| `WorkerClient.dfy` | the `RenderWorkerClient` class and its read loop; the loop as a scan of the queue, and one pass of it as steps of `WorkerIpc` |
| `RenderRuns.dfy` | a whole call on the client class as a run of `WorkerIpc`, for every schedule and everything the worker does meanwhile |
| `WorkerShutdown.dfy` | how a worker runs to its end after a shutdown command or a closed pipe, as runs of `WorkerIpc` |
| `RenderPipeline.dfy` | registry and client composed as `serve` wires them, and the end-to-end theorems |
| `Card.dfy`, `CardProcess.dfy` | the SDXL and i2v caches under i2v, preview and training jobs, each with every fault point, as value effects and as a class that mutates them |
| `SdxlResidency.dfy` | which jobs bring the SDXL pipe onto the card and which take it off |
| `Regex.dfy`, `Paths.dfy`, `KeyGrammar.dfy`, `Slugs.dfy` | regular expressions with their textbook meaning, `split("/")`, the key patterns, `_safe` and the key builders |
| `Frames.dfy`, `Crop.dfy` | the shape of a clip from request to engine, and the resize/crop arithmetic of LoRA training |

The central question is why the client may return the first `result` or `error` it dequeues without ever
comparing the event's `job` field. The answer is a global invariant (`WorkerIpc.IpcInv`): a worker that is
current while the render lock is free has answered every command it was ever sent and had the answer
dequeued, because the worker answers each command exactly once and in order, every abnormal end of `render`
drops the handle, and every spawn gets its own pipes and queue. `RenderPipeline` carries this up to the job
registry.

## Findings

- A job submitted after a shutdown, between the return of the worker loop and the death of its thread, is
  left in the queue: `_ensure_worker_locked` trusts `is_alive()`, and nothing looks at the queue again until
  another submission. `JobsTheorems.SubmitServedIff` says this is exactly when a submission is not served,
  `JobsTheorems.SubmitCanStrand` gives the run, `JobsTheorems.RunsStayServed` proves every other run safe.
- An envelope that says FAILED can lack its error, because the status is written before the error and
  readers hold no lock. This happens only to readers that start between those two writes: a reader that
  starts while the lock is free always gets the error (`StatusEnvelope.UnhurriedReaderSeesTheError`).
  COMPLETED is safe in every interleaving.
- `keyframe_key_for` and `lora_key_for` can build keys that the door's own validators refuse. The exact
  condition is `Slugs.BuiltKeyframeKeyIsSafeIff` and `Slugs.BuiltLoraKeyIsSafeIff`; `Slugs.BuiltKeyCanBeUnsafe`
  is a project name that fails both.
- The comments in `i2v_ltx.py` say that the card cannot fit two i2v pipelines, but the cache keeps one per
  key and the model follows the code. Two are resident exactly when a draft or standard clip and a final clip
  have both loaded theirs and neither pipeline was dropped since it was loaded, by a preview or training job
  that got past its request check or by a failed generate under its own key (`Card.TwoResidentIff`, and
  `Card.ClipLeavesTwoIff` for one clip); otherwise at most one is.
- `resolve_engine_dims` snaps frames under the global ceiling of 257, not the tier's. This respects a tier's
  ceiling exactly when that ceiling is itself of the form 8k + 1 (`Frames.GlobalSnapRespectsCeilingIff`);
  all three tiers are. A requested width or height of 0 counts as missing, a requested frame count of 0
  does not.

## Assumptions

- Ids drawn with `uuid4` never repeat, and `max_completed` is not negative.
- `run_fn` returns a dict, raises `Cancelled`, or raises another `Exception`.
- `should_cancel`, the audit line and `print` do not raise. The message of an exception is a string.
- A stray or cut-off stdout line does not decode to a JSON object; a cut-off stdin line does not decode to a
  command. The JSON text itself is not modelled: a line is a decoded event or command, or noise.
- A float operation of the crop arithmetic gives a value within one unit roundoff of the exact one (binary64,
  rounding to nearest, away from overflow and underflow), and sides are exact as floats. The resolution, which
  a request can set to 1536 at most, is bounded by 2^50.
- The clock is a choice of the schedule: a timeout, a grace period or a death can happen at any step.

## Model

| member | source | states |
|---|---|---|
| JobRegistryClass.JobRegistry.constructor | src/vivijure_local/core/jobs.py:91-100 | a new registry is the empty one, with no thread yet |
| JobRegistryClass.JobRegistry.Submit | src/vivijure_local/core/jobs.py:104-112 | the new record carries the submitted payload, is queued without output, error or flag, and is the last of the queue; a dead or missing worker is replaced, a parked one notified, nothing else changes |
| JobRegistryClass.JobRegistry.Get | src/vivijure_local/core/jobs.py:114-116 | nothing exactly for the ids that the registry value does not know (which `JobsTheorems.RetentionWindow` pins down), otherwise the one shared record of that id, showing the value's job |
| JobRegistryClass.JobRegistry.Cancel | src/vivijure_local/core/jobs.py:118-141 | a queued job leaves the queue, fails and is retained; a running job is only flagged; terminal and unknown ids change nothing; the record itself says so even if it is evicted at once; always true |
| JobRegistryClass.JobRegistry.RemoveFromQueue | src/vivijure_local/core/jobs.py:128-131 | the queue without the first occurrence of the id, missing ids ignored |
| JobRegistryClass.JobRegistry.EnsureWorkerLocked | src/vivijure_local/core/jobs.py:145-148 | a thread is started only when none is alive |
| JobRegistryClass.JobRegistry.WorkerTurn | src/vivijure_local/core/jobs.py:152-168 | one pass under the lock: wait, return, or pop the head and start, skip or fail it |
| JobRegistryClass.JobRegistry.PopJob | src/vivijure_local/core/jobs.py:157-168 | the head of a non-empty queue is skipped, failed or started, and handed to the worker only when started |
| JobRegistryClass.JobRegistry.FailBeforeStart | src/vivijure_local/core/jobs.py:132-134 | the status and then the error are written, and the job retained |
| JobRegistryClass.JobRegistry.RunTaken | src/vivijure_local/core/jobs.py:173-197 | the job's own payload is run, and its end recorded and retained |
| JobRegistryClass.JobRegistry.RecordOutcome | src/vivijure_local/core/jobs.py:174-197 | the three arms: output and COMPLETED, canceled, or the first 500 characters of the message; then retention |
| JobRegistryClass.JobRecord.Settle | src/vivijure_local/core/jobs.py:176-195 | the record after each arm, and the order of the two field writes as lock-free readers can meet it |
| JobRegistryClass.JobRegistry.IsCancelled | src/vivijure_local/core/jobs.py:199-202 | the flag of a job still in the map |
| JobRegistryClass.JobRegistry.RetainLocked | src/vivijure_local/core/jobs.py:204-210 | the eviction loop equals the retention step on map and deque |
| JobRegistryClass.JobRegistry.Shutdown | src/vivijure_local/core/jobs.py:212-215 | the stop flag is set and a parked worker released |
| JobRegistryClass.JobRegistry.RunLoop | src/vivijure_local/core/jobs.py:150-197 | after a shutdown, with no other thread left to interfere, the whole worker loop computes the drain of the registry |
| JobRegistryClass.JobRegistry.Step | src/vivijure_local/core/jobs.py:104-215 | one critical section of any thread takes the object through one step of the step relation, and writes the record of that step even if it evicts it |
| JobRegistryClass.JobRegistry.Interleave | src/vivijure_local/core/jobs.py:104-215 | so any interleaving of clients, shutdowns and the worker loop, at the grain of the lock, takes the object through the very states of a run |
| JobRegistryClass.DrainServesTheQueue | src/vivijure_local/core/jobs.py:150-168 | draining is a run of the step relation that starts and finishes the whole queue in order, each job once, and ends with the loop returned and the queue empty |
| Jobs.EvictKeepsNewest | src/vivijure_local/core/jobs.py:208-210 | the eviction loop keeps exactly the newest ids of the deque and drops exactly the records of the others |
| JobsTheorems.NextKeeps | src/vivijure_local/core/jobs.py:104-215 | every step of submit, cancel, shutdown and the worker keeps map, queue, deque, flags, records and histories in agreement |
| JobsTheorems.RunKeeps | src/vivijure_local/core/jobs.py:104-215 | so does every run |
| JobsTheorems.JobMapPartition | src/vivijure_local/core/jobs.py:104-210 | in every reachable state the map splits exactly into queued, at most one running, and retained ids with the matching statuses; both counting equations hold |
| JobsTheorems.RetentionWindow | src/vivijure_local/core/jobs.py:114-210 | the deque is the last `max_completed` ids of the complete finish log; a lookup misses exactly the never-submitted ids and the terminal ids older than that window |
| JobsTheorems.FifoService | src/vivijure_local/core/jobs.py:104-167 | submissions without those canceled before their start are the started ids followed by the queue; no job starts twice |
| JobsTheorems.TurnAlwaysStarts | src/vivijure_local/core/jobs.py:157-168 | the defensive branches of the worker are unreachable: the popped job is known, queued and not flagged |
| JobsTheorems.LifecycleIsMonotone | src/vivijure_local/core/jobs.py:127-196 | between any two moments of a run a job only moves forward, keeps payload and flag, never changes once terminal, and never returns once forgotten |
| JobsTheorems.PayloadWasSubmitted | src/vivijure_local/core/jobs.py:104-112 | over every run from a fresh registry every record carries the one payload that was submitted under its id |
| JobsTheorems.CanceledEarlyNeverStarts | src/vivijure_local/core/jobs.py:123-135 | a job canceled while queued is never passed to `run_fn` in any later run |
| JobsTheorems.CanceledRunningStaysFlagged | src/vivijure_local/core/jobs.py:136-202 | every later poll for a job canceled while running answers true until it finishes |
| JobsTheorems.CancelIsIdempotent | src/vivijure_local/core/jobs.py:118-141 | canceling twice is canceling once, in every registry state |
| JobsTheorems.NoLostWakeup | src/vivijure_local/core/jobs.py:104-156 | in every reachable state a parked worker implies an empty queue and no stop |
| JobsTheorems.SubmitServedIff | src/vivijure_local/core/jobs.py:145-156 | a submission is served if and only if it does not meet a worker whose loop has returned and whose thread is still alive |
| JobsTheorems.StepsKeepServed | src/vivijure_local/core/jobs.py:118-215 | no other step leaves a non-empty queue without a worker |
| JobsTheorems.RunsStayServed | src/vivijure_local/core/jobs.py:104-215 | every run without such a submission keeps every non-empty queue served |
| JobsTheorems.SubmitCanStrand | src/vivijure_local/core/jobs.py:145-156 | a run from a fresh registry that leaves a submitted job queued with no thread |
| JobsTheorems.StrandedUntilSubmit | src/vivijure_local/core/jobs.py:145-156 | a stranded queue stays as it is until a submit or cancel |
| JobsTheorems.DrainIsBounded | src/vivijure_local/core/jobs.py:150-197 | without submits, takes and finishes together are at most twice the queue plus the running job, over every run |
| JobsTheorems.WorkerLeavesNothingBehind | src/vivijure_local/core/jobs.py:152-156 | the worker loop returns only after a shutdown and only when every submitted job is terminal |
| JobsTheorems.StopsIff | src/vivijure_local/core/jobs.py:212-215 | over every run the registry is told to stop if and only if a shutdown was among the actions |
| StatusEnvelope.EnvelopeIsHonest | src/vivijure_local/core/jobs.py:51-58 | over every interleaving of reads and writes a COMPLETED envelope carries the final output, and no envelope carries both output and error |
| StatusEnvelope.FailedEnvelopeHasErrorIff | src/vivijure_local/core/jobs.py:51-58 | readers that start at a given moment can see FAILED without the error if and only if at that moment FAILED is written and the error is not |
| StatusEnvelope.RestingPointsAreWhole | src/vivijure_local/core/jobs.py:123-196 | over every run, no FAILED record, evicted ones included, is without its error while the lock is free |
| StatusEnvelope.UnhurriedReaderSeesTheError | src/vivijure_local/core/jobs.py:51-58 | so over every run a reader that starts while the lock is free gets the error of every FAILED job |
| StatusEnvelope.FailedEnvelopeCanLackError | src/vivijure_local/core/jobs.py:183-195 | a run that does it for every retention bound: a job submitted to a fresh registry and canceled, with a reader that starts between the two writes of the cancel |
| StatusEnvelope.StepIsTwoWrites | src/vivijure_local/core/jobs.py:123-196 | every step of the registry changes a known job's record by at most two writes, in an order that a lock-free reader may face, and leaves no FAILED record without its error |
| StatusEnvelope.WrittenIsNext | src/vivijure_local/core/jobs.py:118-210 | a step that keeps the job known leaves exactly the written record in the map |
| StatusEnvelope.KnownAtTheEnd | src/vivijure_local/core/jobs.py:104-210 | the record that a run leaves is the one in the map as long as the job is known |
| StatusEnvelope.TrailContinuesHistory | src/vivijure_local/core/jobs.py:104-210 | the writes of any run continue the history of a job, up to and including the step that evicts it |
| StatusEnvelope.EnvelopesOfARun | src/vivijure_local/core/jobs.py:51-58 | over every run from a job's submission, evicted or not, every envelope assembled on the way agrees with the last record |
| StatusEnvelope.StatusWasThere | src/vivijure_local/core/jobs.py:51-58 | over every interleaving the status of an envelope is one that the record had while the envelope was assembled |
| StatusEnvelope.StillRecordIsShown | src/vivijure_local/core/jobs.py:51-58 | an envelope assembled while nothing is written shows that record: its status, its output if and only if it is COMPLETED with one, its error if and only if it is FAILED with one |
| StatusEnvelope.LatePollShowsTheEnd | src/vivijure_local/core/jobs.py:51-58 | over every run an envelope assembled after the last write shows the status, output and error of the last record |
| StatusEnvelope.FinalRecordIsOfTheSubmission | src/vivijure_local/core/jobs.py:105-107 | over every run from its submission the last record of a job, evicted or not, carries the id and the payload that were submitted |
| RenderWorker.ServeLoop | src/vivijure_local/core/render_worker.py:45-90 | the loop emits exactly the trace of its input lines, malformed, blank and unknown ones included |
| RenderWorker.ServeCommand | src/vivijure_local/core/render_worker.py:79-90 | one command gives its progress events and then one result or error, also when encoding the result raises |
| RenderWorker.RelayProgress | src/vivijure_local/core/render_worker.py:53-56 | progress is emitted for the current job only, and not at all for a null job |
| RenderWorker.OneAnswerPerCommand | src/vivijure_local/core/render_worker.py:61-90 | for every input the k-th terminal event answers the k-th render command read before shutdown or end of input, and there are no others |
| RenderWorker.EveryCommandIsServed | src/vivijure_local/core/render_worker.py:61-90 | every render command read before a shutdown has its own stretch of the output: its progress reports with their numbers, unless its job is null, and then its answer; the call that gives them gets the very object of the command, and is numbered by the commands before it |
| RenderWorker.NothingElseIsServed | src/vivijure_local/core/render_worker.py:61-90 | after the ready event every emitted event belongs to the stretch of some render command read before a shutdown |
| RenderWorker.ProgressPrecedesItsAnswer | src/vivijure_local/core/render_worker.py:53-90 | every progress event is followed, after progress of the same job only, by that job's answer |
| RenderWorker.NoiseIsInvisible | src/vivijure_local/core/render_worker.py:65-78 | blank, malformed, non-object and unknown lines change nothing in the trace |
| WorkerProcess.ProcNextKeeps | src/vivijure_local/core/render_worker.py:61-90 | every step of a child, its reader or a signal keeps the child's output equal to a serve trace, cut short by its death |
| WorkerProcess.ChildIsServeLoop | src/vivijure_local/core/render_worker.py:45-90 | between commands the child has written exactly what the loop emits for the lines it has read |
| WorkerProcess.AnswersMatchCommands | src/vivijure_local/core/render_worker.py:79-90 | the answers written so far, in order, are those of the commands executed so far |
| WorkerIpcTheorems.IpcNextKeeps | src/vivijure_local/core/worker_client.py:84-272 | every step of the client, of any worker, reader or signal keeps the protocol invariant |
| WorkerIpcTheorems.IpcRunKeeps | src/vivijure_local/core/worker_client.py:84-272 | so does every run |
| WorkerIpcTheorems.NoWorkerKeeps | src/vivijure_local/core/worker_client.py:87-104 | a spawn that raises, even after the process has started, leaves no current handle and the invariant intact |
| WorkerIpcTheorems.IdleHandleIsQuiescent | src/vivijure_local/core/worker_client.py:84-211 | whenever the render lock is free and a handle is current, no command and no answer is in flight in stdin, worker, stdout or queue |
| WorkerIpcTheorems.RenderExit | src/vivijure_local/core/worker_client.py:175-240 | every end of `render` leaves the lock free, with the handle kept after an answer and dropped after anything else |
| WorkerIpcTheorems.NextAnswerIsOwn | src/vivijure_local/core/worker_client.py:228-240 | while one command is unanswered, the next terminal event can only be the answer to it |
| WorkerIpcTheorems.AnswerIsOwn | src/vivijure_local/core/worker_client.py:228-240 | the answer that ends a call is what a worker's run function produced from that call's own payload |
| WorkerIpcTheorems.JobFieldAlwaysAgrees | src/vivijure_local/core/worker_client.py:228-240 | the job field that the client ignores always equals the call's own id |
| WorkerIpcTheorems.EveryAnswerIsOwn | src/vivijure_local/core/worker_client.py:171-240 | the same for every run with any number of calls, workers, cancels, deaths and respawns |
| WorkerIpcTheorems.CommandIsWrittenOnce | src/vivijure_local/core/worker_client.py:171-184 | a call's command is written at most once, to one worker |
| WorkerIpcTheorems.DeadWorkerWaitIsBounded | src/vivijure_local/core/worker_client.py:106-211 | over every run from a worker's death its lines are moved at most as often as its backlog allows; a call still waiting on it can proceed, and with the backlog used up the next look at the queue ends the call |
| WorkerIpcTheorems.RunUsesUpBacklog | src/vivijure_local/core/worker_client.py:106-204 | over every run the moves of a dead worker's lines and the backlog that remains add up to the backlog at its death |
| WorkerIpcTheorems.DeadWorkerRunEnds | src/vivijure_local/core/worker_client.py:106-211 | from every state in which a call waits on a dead worker, an explicit bounded run ends the call |
| WorkerShutdown.RunsToItsEnd | src/vivijure_local/core/render_worker.py:61-90 | a live worker with a shutdown command before it, or with its stdin closed, can run to its exit by its own steps, however its commands end, and has then executed exactly the commands before a shutdown |
| WorkerShutdown.FinishedHasAnswered | src/vivijure_local/core/render_worker.py:79-90 | such a worker has answered each of those commands, in order |
| WorkerShutdown.ShutdownEndsTheWorker | src/vivijure_local/core/worker_client.py:246-272 | whenever the lock is free and the worker alive, the shutdown command leads the worker to its exit without executing anything more, ends no call, and leaves no handle and closed pipes |
| WorkerClient.RenderWorkerClient.constructor | src/vivijure_local/core/worker_client.py:63-77 | no worker yet |
| WorkerClient.RenderWorkerClient.EnsureWorker | src/vivijure_local/core/worker_client.py:84-104 | a live worker is kept with its queue; a dead one is reaped and replaced by a fresh worker with a fresh, empty queue; if the spawn or the reader thread raises there is no current handle |
| WorkerClient.RenderWorkerClient.Reap | src/vivijure_local/core/worker_client.py:119-131 | the pipes are closed, and handle and queue dropped only if the handle is the current one |
| WorkerClient.RenderWorkerClient.TerminateProc | src/vivijure_local/core/worker_client.py:133-153 | the process has exited afterwards if and only if it had before or obeyed one of the signals |
| WorkerClient.RenderWorkerClient.ReadUntilTerminal | src/vivijure_local/core/worker_client.py:186-242 | for every schedule of passes the read loop equals a scan of the queue: its end, what is left in the queue, and that a handle is dropped only if it is still the current one |
| WorkerClient.RenderWorkerClient.Render | src/vivijure_local/core/worker_client.py:157-184 | without a worker nothing is written and the spawn's error comes out; otherwise the command reaches the worker's stdin once and the outcome is that of the scan, or the write failure with its text and no handle left |
| WorkerClient.RenderWorkerClient.Shutdown | src/vivijure_local/core/worker_client.py:246-272 | at most one shutdown line, and only when the lock was free and the worker alive; exactly when the worker has exited; closed pipes and no handle |
| WorkerClient.ScanIsFirstDecision | src/vivijure_local/core/worker_client.py:194-242 | without a cancel the loop's end is that of the first deciding item of the whole stream |
| WorkerClient.FirstLastDecides | src/vivijure_local/core/worker_client.py:206-242 | the first result, error or end of file of a stream decides: the very object of the result (an empty one if it carries none), the message of the error or the fixed text, the loss of the worker |
| WorkerClient.NoneDecides | src/vivijure_local/core/worker_client.py:206-242 | a stream without any of the three decides nothing, and the call waits on |
| WorkerClient.ResultIsReturned | src/vivijure_local/core/worker_client.py:194-242 | so for every schedule without a cancel the loop that ends returns the very object of the first result if that comes first |
| WorkerClient.FirstCancelDecides | src/vivijure_local/core/worker_client.py:194-199 | the first observed cancel decides exactly when no earlier pass had |
| WorkerClient.EndedStreamEndsTheCall | src/vivijure_local/core/worker_client.py:106-211 | a stream that holds the end-of-file item always ends the call, with its first decision |
| WorkerClient.NoiseNeverDecides | src/vivijure_local/core/worker_client.py:212-242 | stray, blank, progress and unknown lines never change the outcome |
| WorkerClient.ReaderAppends | src/vivijure_local/core/worker_client.py:106-117 | the reader appends one item per line and its end-of-file item once and last |
| WorkerClient.CanceledPassIsOneStep | src/vivijure_local/core/worker_client.py:195-199 | a pass that sees the cancel is one step of the step system, with the same outcome, and the worker killed or not as the signals say |
| WorkerClient.PassIsTwoSteps | src/vivijure_local/core/worker_client.py:200-242 | any other pass of the loop is two steps of the step system, with the same outcome and the same queue left |
| RenderRuns.LoopIsARun | src/vivijure_local/core/worker_client.py:186-242 | for every schedule of passes and worker steps, the step system has a run that ends the call as the scan of the arriving items does: the one outcome, the queue left, and the handle kept or dropped alike |
| RenderRuns.RenderIsARun | src/vivijure_local/core/worker_client.py:157-184 | the same for a whole call, from the free lock through spawn and send to its end: exactly the one command with the call's id and payload is written |
| RenderRuns.UnreadCallIsARun | src/vivijure_local/core/worker_client.py:171-184 | the calls that never read, for want of a worker or a failed write, are runs with the same outcomes, no handle left, and exactly what reached the pipe written |
| RenderRuns.HandlesStayOpen | src/vivijure_local/core/worker_client.py:119-131 | in every reachable state the stdin of the current handle has not been closed |
| RenderPipeline.SysNextKeeps | src/vivijure_local/core/jobs.py:173-197 | every step of the composed system keeps the registry and protocol invariants and an explanation for every terminal job |
| RenderPipeline.RegistryRuns | src/vivijure_local/core/jobs.py:104-215 | the registry of the composed system goes through a run of the registry alone with exactly the submissions of its clients |
| RenderPipeline.SubmittedPayloadIsKept | src/vivijure_local/core/jobs.py:105-175 | over every interleaving a known job carries the one payload that its client submitted |
| RenderPipeline.CompletedOutputIsOwn | src/vivijure_local/core/worker_client.py:171-240 | over every interleaving a COMPLETED job's output is the very object that a worker's run function returned (an empty one if it returned none) for the payload that this job's client submitted |
| RenderPipeline.FailedJobsSayWhy | src/vivijure_local/core/worker_client.py:171-240 | every FAILED job was canceled early or could not get a worker (and was never sent), was canceled while running, failed with the first 500 characters of its own message (or the fallback when empty), or lost its worker; the fixed texts are spelled out |
| RenderPipeline.DeathsAreNamed | src/vivijure_local/core/worker_client.py:205-211 | the text of a worker that died names the exit code and the call |
| RenderPipeline.RefusalsAreNamed | src/vivijure_local/core/worker_client.py:178-184 | the text of a failed write names the exit code, the call and what was raised |
| RenderPipeline.ExecutionsAreNotShared | src/vivijure_local/core/worker_client.py:171-184 | no two jobs share a command, and a command has one execution |
| RenderPipeline.AtMostOneItemAfterCancel | src/vivijure_local/core/worker_client.py:194-204 | from the moment a running job is flagged until its outcome is recorded, at most one item is dequeued |
| CardProcess.Process.GetPipe | src/vivijure_local/i2v_ltx.py:135-147 | a hit returns the cached pipeline unchanged; a miss caches a fresh, wired build; a failing build caches nothing |
| CardProcess.Process.BuildPipe | src/vivijure_local/i2v_ltx.py:143-147 | the pipeline is wired, as far as the hooks go in this build, before it is cached |
| CardProcess.I2VPipe.ApplyOffload | src/vivijure_local/i2v_ltx.py:332-353 | the tiling hook that works, then the hook of the offload mode if it works, and nothing else |
| CardProcess.Process.EvictPipe | src/vivijure_local/i2v_ltx.py:165-178 | the key alone is dropped, and coherence is restored even when its pipeline was poisoned |
| CardProcess.Process.DropI2V | src/vivijure_local/i2v_ltx.py:181-191 | no i2v pipeline is cached |
| CardProcess.Process.Generate | src/vivijure_local/i2v_ltx.py:231-238 | build or reuse, generate, and evict the key if either raised |
| CardProcess.Process.GenerateRaises | src/vivijure_local/i2v_ltx.py:236-238 | a pipeline in which generate raised is gone from the cache |
| CardProcess.Process.RunI2V | src/vivijure_local/core/server.py:157-213 | the i2v job body in its order of effects, SDXL dropped first, for every fault point |
| CardProcess.Process.DropPreview | src/vivijure_local/preview_sdxl.py:147-163 | no SDXL pipe is cached |
| CardProcess.Process.EnsureIpAdapter | src/vivijure_local/preview_sdxl.py:166-194 | the pipe has exactly n encoders loaded and says so, or it is dropped and the job fails |
| CardProcess.Process.GetPreviewPipe | src/vivijure_local/preview_sdxl.py:209-238 | the cached pipe for the same model, or a fresh one after the other was dropped; a failing build caches nothing |
| CardProcess.Process.RenderShots | src/vivijure_local/preview_sdxl.py:379-424 | the shot loop: skipped, copied and drawn shots, and where each failure stops it |
| CardProcess.Process.RunPreview | src/vivijure_local/preview_sdxl.py:325-436 | the preview job body in its order of effects, i2v dropped first, for every fault point |
| CardProcess.Process.RunTrainLora | src/vivijure_local/train_lora_job.py:18-43 | the training job body: a bad request touches nothing, otherwise SDXL and then i2v are dropped before anything else can fail |
| CardProcess.Process.Run | src/vivijure_local/core/server.py:296-315 | each action runs its own body |
| CardProcess.ServeJobs | src/vivijure_local/core/render_worker.py:18-20 | a worker process that serves a list of jobs ends with the caches that the value effects give |
| SdxlResidency.TrainingEmptiesTheCard | src/vivijure_local/train_lora_job.py:18-43 | a training job that gets past its request check leaves neither SDXL nor i2v on the card, whatever happens to it later; a bad request changes nothing; neither loads anything |
| SdxlResidency.SdxlResidentIff | src/vivijure_local/preview_sdxl.py:147-424 | after any jobs the SDXL pipe for a model is resident if and only if some preview for that model got its pipe, bound its adapters and lost it over no IP-Adapter, and every later job failed before it reached the card |
| SdxlResidency.PreviewLoadsIff | src/vivijure_local/preview_sdxl.py:209-238 | a preview loads weights if and only if it completes a build and its model is not resident |
| Card.CardTenancy | src/vivijure_local/i2v_ltx.py:123-191 | over every sequence of jobs and faults: never SDXL and i2v together, every cached i2v pipeline with the weights and engine of its key and not poisoned, a truthful IP-Adapter flag, at most two i2v pipelines |
| Card.KeysOfTiers | src/vivijure_local/config.py:102-130 | the cache key of each tier, with and without the operator's override: draft and standard share one |
| Card.CachedPipesAreWired | src/vivijure_local/i2v_ltx.py:135-147 | when the hooks of every build work, every cached pipeline after any jobs has the weights, engine, offload mode and tiling of its key |
| Card.ResidentIff | src/vivijure_local/i2v_ltx.py:135-191 | after any jobs a pipeline is resident if and only if some clip loaded it, or it was there before, and no later preview, training job or failed generate under its own key dropped it |
| Card.WarmIsUntouched | src/vivijure_local/i2v_ltx.py:135-147 | a pipeline that is not dropped is the same, unchanged, after any jobs |
| Card.TwoResidentIff | src/vivijure_local/i2v_ltx.py:117-147 | after any jobs two i2v pipelines share the card if and only if both keys are warm in that sense; otherwise at most one is resident |
| Card.ClipLeavesTwoIff | src/vivijure_local/i2v_ltx.py:135-147 | a clip leaves two pipelines behind if and only if the other key's is resident and its own is loaded now, or was resident and did not fail to generate |
| Card.TwoTiersStayResident | src/vivijure_local/i2v_ltx.py:117-147 | the least such list: a standard clip and then a final clip |
| Card.FailedGenerateIsEvicted | src/vivijure_local/i2v_ltx.py:231-238 | whatever came before a failed generate, what is resident under its key later is what the later jobs alone would leave in a fresh process |
| Card.ClipAfterAnyJobs | src/vivijure_local/i2v_ltx.py:135-147 | after any jobs a clip loads weights if and only if it completes a build and its key is not warm, a warm key cannot fail its build, and a clip that succeeds leaves the warm pipeline untouched or a fresh build under its key, with SDXL gone |
| Card.ShotsSucceedIff | src/vivijure_local/preview_sdxl.py:166-194 | the shots of a preview all succeed if and only if each does, an IP-Adapter fault counting only where the adapter has to change; the flag ends as the last drawn shot needs it |
| Card.PreviewSucceedsIff | src/vivijure_local/preview_sdxl.py:325-436 | a preview succeeds if and only if its setup and all its shots do; the card then holds the pipe for its model, with exactly the adapters of the last drawn shot |
| Regex.KeyChars | src/vivijure_local/core/contract.py:24 | the characters that a key segment may hold |
| KeyGrammar.BundleKeyLanguage | src/vivijure_local/core/contract.py:24-44 | accepted if and only if the segments are `bundles` and then one or more safe ones |
| KeyGrammar.LoraKeyLanguage | src/vivijure_local/core/contract.py:25-51 | accepted if and only if the segments are `loras` and then one or more safe ones, or `bundles` with an interior `loras` that has safe ones on both sides |
| KeyGrammar.KeyframeKeyLanguage | src/vivijure_local/core/contract.py:59-68 | accepted if and only if the segments are `renders`, one or more safe ones, `keyframes`, and a safe `.png` name |
| Slugs.SlugIsSlug | src/vivijure_local/core/contract.py:233-238 | a slug is non-empty and holds no white space and no slash |
| Slugs.SlugOfTwo | src/vivijure_local/core/contract.py:233-238 | for two names that are not blank, with any white space between them, the slug of the whole is the two slugs with one underscore between |
| Slugs.SlugOfOne | src/vivijure_local/core/contract.py:233-238 | the slug of a name without white space is that name with an underscore for each slash |
| Slugs.SameSlugSameWords | src/vivijure_local/core/contract.py:233-238 | two names whose words hold neither slashes nor underscores have one slug if and only if their words are the same |
| Slugs.WhiteSpace | src/vivijure_local/core/contract.py:238 | the 29 characters that count as white space |
| Slugs.SlugFixedPoints | src/vivijure_local/core/contract.py:233-238 | `_safe` fixes a string if and only if the string looks like a slug |
| Slugs.SlugIsIdempotent | src/vivijure_local/core/contract.py:233-238 | a slug of a slug is that slug |
| Slugs.SpellingsAgree | src/vivijure_local/core/contract.py:233-238 | names that differ only in an inner run of white space share one slug |
| Slugs.OuterSpaceIsForgotten | src/vivijure_local/core/contract.py:233-238 | white space around a name does not matter |
| Slugs.StripIsRedundant | src/vivijure_local/core/contract.py:238 | stripping before splitting changes nothing |
| Slugs.StripIsInner | src/vivijure_local/core/contract.py:238 | stripping removes exactly the white space at both ends |
| Slugs.BuildersAreInjectiveUpToSlugs | src/vivijure_local/core/contract.py:180-195 | two built keys of one kind are equal if and only if both slugs are |
| Slugs.KeyframeSegments | src/vivijure_local/core/contract.py:180-183 | the four segments of a keyframe key |
| Slugs.ClipSegments | src/vivijure_local/core/contract.py:186-189 | the four segments of a clip key |
| Slugs.LoraSegments | src/vivijure_local/core/contract.py:192-195 | the four segments of an adapter key |
| Slugs.KeySpacesAreDisjoint | src/vivijure_local/core/contract.py:180-195 | a keyframe, a clip and an adapter never share a key |
| Slugs.MatchesProjectIff | src/vivijure_local/core/contract.py:71-75 | the prefix test is a test of the first three segments |
| Slugs.OneProjectPerKey | src/vivijure_local/core/contract.py:71-75 | an accepted keyframe key belongs to one project slug only |
| Slugs.BuiltKeyframeKeyIsSafeIff | src/vivijure_local/core/contract.py:180-183 | a built keyframe key passes its validator if and only if both slugs use the allowed characters and the project's is not `..` |
| Slugs.BuiltLoraKeyIsSafeIff | src/vivijure_local/core/contract.py:192-195 | the same for adapter keys, where neither slug may be `..` |
| Slugs.BuiltKeyCanBeUnsafe | src/vivijure_local/core/contract.py:180-195 | a project name whose keyframe and adapter keys are always refused |
| Frames.SnapFramesIff | src/vivijure_local/i2v_ltx.py:51-63 | the snapped count is the only 8k + 1 count under the ceiling that covers the request (or is as large as the ceiling allows) and overshoots by less than a stride |
| Frames.SnapFramesIsLeastElseGreatest | src/vivijure_local/i2v_ltx.py:51-63 | it is the least acceptable count that covers the request, or else the greatest acceptable count |
| Frames.SnapFramesIsMonotone | src/vivijure_local/i2v_ltx.py:51-63 | asking for more, or under a higher ceiling, never gives less |
| Frames.SnapFramesIsIdempotent | src/vivijure_local/i2v_ltx.py:51-63 | a snapped count snaps to itself under the same or a higher ceiling |
| Frames.SnapDimIff | src/vivijure_local/i2v_ltx.py:66-69 | the only positive multiple of 32 within 32 below the request, or 32 |
| Frames.RealizedSide | src/vivijure_local/config.py:211-213 | a missing or zero request gives the tier's side, one under 32 gives 32, any other the greatest multiple of 32 that neither it nor the tier forbids |
| Frames.RealizedCount | src/vivijure_local/config.py:209-210 | a missing request gives the tier's count, any other the least 8k + 1 count that covers it as far as the tier allows |
| Frames.GlobalSnapRespectsCeilingIff | src/vivijure_local/i2v_ltx.py:86-90 | clamping to a ceiling and snapping under 257 equals snapping under that ceiling, for every request, if and only if the ceiling is of the form 8k + 1 |
| Frames.RequestsNarrow | src/vivijure_local/config.py:206-213 | a request gets what it asks for within its tier, the tier's value where it asks for more or for nothing (a side of 0 is nothing), and at least one frame |
| Frames.RealizedShapeFits | src/vivijure_local/i2v_ltx.py:86-90 | for every integer or missing request each side and the count are what that field of the request comes to within its tier, and the count is the one that snapping under the tier's own ceiling gives |
| Frames.TierShapes | src/vivijure_local/config.py:102-130 | the shape each tier gives without any wishes |
| Frames.RealizedShapeIsAFixedPoint | src/vivijure_local/config.py:197-213 | requesting the realized shape realizes it again |
| Crop.RoundHalfEvenIff | src/vivijure_local/lora_train.py:314 | `round` of a number is the only integer within one half, even on a tie |
| Crop.ResizeCovers | src/vivijure_local/lora_train.py:313-315 | whatever the two float operations lose, the short side becomes exactly the resolution and no side falls below it |
| Crop.ScaledIsNear | src/vivijure_local/lora_train.py:310-311 | a scaled side is within one half and the float error of the exact scaled side |
| Crop.CropsFit | src/vivijure_local/lora_train.py:186-190 | both crops lie inside the resized image, their offsets leave the same columns on opposite sides and differ by at most one |
| Crop.DescribeReferences | src/vivijure_local/lora_train.py:179-190 | the loop gives each reference, in order, the conditions of its center crop and of its flipped copy |
| Crop.FlippedOffsetIsRight | src/vivijure_local/lora_train.py:186-190 | for every image, cropping the mirrored image at the flipped offset is mirroring the crop |
| Crop.FlippedOffsetIsTheOnlyOne | src/vivijure_local/lora_train.py:186-190 | on an image whose cropped rows have no equal pixels no other offset does |
| Crop.MirrorTwice | src/vivijure_local/lora_train.py:210-214 | mirroring undoes itself |

## Left out

- HTTP sockets, tokens, startup guards, object storage, archives, configuration files and GPU libraries: I/O.
- JSON text: a line is one decoded event or command, or noise (control characters inside JSON strings are escaped, section 7 of RFC 8259, so an object never spans lines).
- `RenderWorkerClient.shutdown` during a call: in the step system the death of the worker and the late reap of its handle, which closes the pipes and drops the handle in one step.
- JobRegistryClass.JobRegistry.RunLoop: the loop as one method is proved where no other thread changes the registry in between; under interference it is taken apart at the lock, and `JobRegistryClass.JobRegistry.Interleave` covers every interleaving.
- WorkerClient.RenderWorkerClient.ReadUntilTerminal: runs on a finite schedule of passes and reports that it still waits when the schedule ends; that the wait ends is `WorkerClient.EndedStreamEndsTheCall` and `WorkerIpcTheorems.DeadWorkerRunEnds`, and a live worker may be waited on for ever.
- WorkerClient.RenderWorkerClient.Shutdown: runs as one step; a render that runs meanwhile is in the step system only.
- "Cancel implies FAILED" is false of the code and not claimed: a run that finishes without another poll completes.
- Crop.FlippedOffsetIsRight: about pixels; the training loop mirrors the encoded image, and the encoder is not part of this model.
- Frames.RealizedShapeFits: integer or missing values only; text and floating-point values, and the other fields of a request, are not part of this model.
- Card.CardTenancy: the two unload calls that swallow their errors are taken as done. The upsampler cache (no tier enables it), agreement of a reused SDXL pipe with `few_step`, and LoRA adapters left bound by a failed preview are not part of this model.
- In-slot training: steps, losses, checkpoints and the progress callback, whose exceptions the code swallows.
- Request parsing, prompts, captions, shot planning, the LoRA slot pattern, audit lines and VRAM reports: one-branch facts.
