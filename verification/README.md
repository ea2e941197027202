# Execution engine: model and proofs

The engine runs an untrusted submission. A *runner* process (`ProcessRunner::run`) forks a
*supervisor*; the supervisor prepares a cgroup, forks *child A*, attaches it to the cgroup and
releases it through a sync pipe; child A builds namespaces, forks *child B*, which becomes the
submission, and forwards B's wait status on a status pipe. Runner and supervisor talk over a framed
control socket. Queues, schedulers and worker pools feed the runner, and a fail-fast test runner
and a judge turn its results into verdicts.

The project models these components in Dafny and proves what holds for every kernel behaviour and
every interleaving.

- `Wire.dfy`, `StatusPipe.dfy` - transfers under short reads, short writes and EINTR, the framed
  message codec and the tagged status-pipe codec, as methods over byte streams whose system calls
  answer as an arbitrary script says.
- `Kernel.dfy` - every other system call: a finite script of arbitrary replies. When it is used up
  every call fails, so each process terminates and every finite piece of an execution is covered.
- `SandboxCgroup.dfy`, `Supervisor.dfy`, `Runner.dfy` - the imperative code of the supervisor and
  of the runner, method by method, with the source's variables as fields. Each carries a ghost
  trace and is proved to follow an event automaton, and a log of the calls of its poll loop.
- `RunnerTurns.dfy`, `SupervisorTurns.dfy` - what each loop owes to a poll: which calls must follow
  it, in which order, and what their replies amount to.
- `SupervisorProtocol.dfy`, `RunnerProtocol.dfy` - those automata, and what holds of all their runs.
- `RunSystem.dfy` - both automata composed with child A, child B, the pipes and the sockets as one
  transition system in which any process may take the next step, die, or be killed; an inductive
  invariant; and the theorems over all runs. `RunExamples.dfy` holds runs that show which stronger
  statements fail.
- `WaitStatuses.dfy`, `Deadlines.dfy`, `ExecutionIds.dfy` - wait-status arithmetic, the deadline of
  the poll loop, 64-bit execution ids.
- `WorkQueue.dfy`, `ConcurrentQueue.dfy` - the execution and submission queues (one machine, two
  id schemes), schedulers and worker pools; then the same queue shared by any number of
  submitters, workers, cancellers and collectors, one step for each lock-guarded operation.
- `Executions.dfy` - the scheduler over the runner: what a published handle says about its run.
- `Results.dfy`, `Verdicts.dfy` - results, judge, test runner and submission service, and the
  end-to-end statements from a verdict back to what the processes did.

`dafny verify dfyconfig.toml` checks the whole project.

## Where the code and its documentation part ways

The model follows the code; each item is a proved statement.

- Handling `Terminated` closes the pipes before they are drained, so captured output can be short
  (`RunExamples.OutputCanBeLost`). Once the submission is over it is complete exactly when nothing
  was unread at that moment (`RunSystem.OutputFrozenAtTerminated`).
- A failure inside the poll loop returns with the state `Created`, so a published execution is not
  always finished in the scheduler's sense (`RunExamples.ResultCanBeUnfinished`);
  `RunnerProtocol.ReturnedState` and `Executions.RunNext` say exactly when.
- A cgroup whose removal is denied counts as removed, so a run can return while the submission is
  still executing (`RunExamples.SubmissionCanSurvive`); `RunSystem.CompletionLeavesNothing` and
  `RunExamples.SurvivalCondition` say exactly when.
- A return between the fork and `Ready` leaves three child-side pipe ends open in the runner
  (`Runner.Runner.Run`).
- `failSetup` writes a frame where the status pipe's reader expects a raw payload, so every such
  failure is read as (Namespace, 8) (`StatusPipe.FramedFailureMisread`).
- The supervisor can reap child A before it reads a pending failure record, so a setup failure can
  look like a submission that returned 1 (`RunExamples.SetupFailureCanLookCompleted`). Which report
  wins is decided by whether the record was read (`RunSystem.FailureReportedExactly`), and either
  way it is never accepted (`Verdicts.FailedSetupNeverAccepted`).
- A denied cgroup kill counts as success, and a Terminate may come too late to be read, so a
  submission can outlive its deadline, exit with 0 and be accepted although the result says
  TimedOut (`RunExamples.DeadlineCanBeOutlived`, `RunExamples.TerminateCanBeUnread`,
  `Verdicts.TimedOutCanBeAccepted`). A kill that is written while A and B run does end it
  (`RunSystem.WrittenKillDecides`); `RunExamples.OutlivingCondition`, `Verdicts.SparedHadWayOut`
  and `Verdicts.DeadlineVerdict` say exactly what leaves a way out.
- The judge leaves the verdict unassigned for most signals; it is taken as an arbitrary value there
  (`Verdicts.VerdictAssigned`).
- Child A also writes `SetupFailed` frames on the control socket. The composed system lets it do
  so, whole or torn, at any moment; what is said about the supervisor's own messages is about the
  supervisor as sole writer.

## Model

| member | source | states |
|---|---|---|
| RunSystem.CompletionIsSafe | src/runner/process_runner.cpp:384-440 | Over every interleaving: a run that returns Completed, TimedOut or Signaled has a supervisor that attached, released and announced the child, reaped it, cleared the cgroup path and only then sent Terminated; it has exited and was reaped once; no failed cgroup cleanup is behind the result, which says what Terminated said |
| RunSystem.CompletionLeavesNothing | src/sandbox/sandbox.cpp:544-572 | After such a return nothing of the submission is alive and nobody can write any more, if rmdir removed the cgroup, A ended as B did, B's status was forwarded, or A never passed the gate |
| RunExamples.SurvivalCondition | src/sandbox/sandbox.cpp:555-568 | B can be alive after such a return exactly when the cgroup was not removed, A did not end as B did and no status was forwarded |
| RunSystem.StatusIsFaithful | src/sandbox/sandbox.cpp:352-385 | If child A ended as B did, or its forwarded record was read, the returned exit code or signal is B's, whichever of the record and the reap the supervisor saw first |
| RunSystem.GateHolds | src/sandbox/sandbox.cpp:213-264 | In every state of every run: whoever is past the sync read was attached and then released, and is a member of the cgroup or there is no path any more; whoever is not has no child B, wrote nothing and waits or has ended; without a release, as after a failed attach or release, nobody gets past; an aborted child is gone exactly when its reap is on record |
| RunSystem.OutputIsPrefix | src/runner/process_runner.cpp:1085-1150 | Captured stdout and stderr are in-order prefixes of what was written, and all of it once a read returned zero |
| RunSystem.OutputFrozenAtTerminated | src/runner/process_runner.cpp:1022-1034 | The returned stdout and stderr are what had been captured when Terminated was handled; if the submission is over by then, each is everything exactly when nothing was unread; it is over if A ended as B did, the forwarded record got through, or rmdir removed the cgroup |
| RunSystem.FailedSetupIsVisible | src/runner/process_runner.cpp:334-406 | A run whose setup failed, absent an outside kill of child A, returns a failure, or exit code 1, or a SIGKILL at the deadline |
| RunSystem.FailureReportedExactly | src/runner/process_runner.cpp:334-406 | A run that was told of a setup failure had one; if the supervisor read a failure record the run is returned as a failure; and, with the supervisor as sole writer, a run that was told the last message is a failure exactly when that record was read, or the wait for the supervisor failed |
| RunSystem.RunKeepsInv | src/runner/process_runner.cpp:143-1190 | The invariant of the composed system (delivery, tracking of the child, gate, truthful statuses, justified kills, visible setup failures, captured output) holds in every reachable state |
| RunSystem.RunnerKeepInv | src/runner/process_runner.cpp:605-1190 | Every step of the runner keeps that invariant |
| RunSystem.SupervisorKeepInv | src/runner/process_runner.cpp:189-440 | Every step of the supervisor keeps it |
| RunSystem.ChildrenKeepInv | src/sandbox/sandbox.cpp:245-400 | Every step of child A and child B, which a written cgroup kill allows to end by a signal only, and every kill keeps it |
| RunExamples.OutputCanBeLost | src/runner/process_runner.cpp:1022-1034 | A run with its status forwarded and read and its cgroup removed that returns Completed with exit code 0 and none of the two bytes that were written |
| RunExamples.SetupFailureCanLookCompleted | src/runner/process_runner.cpp:384-406 | A run in which setup failed, the record is in the pipe unread, the cgroup was removed and the result is Completed with exit code 1 |
| RunSystem.WrittenKillDecides | src/runner/process_runner.cpp:302-307 | If the supervisor's kill of the cgroup was written while the submission was running, a return that is not a failure is TimedOut and ended by a signal |
| RunSystem.FailedKillFails | src/runner/process_runner.cpp:303-305 | A kill that failed other than by denial never ends in Completed, TimedOut or Signaled |
| RunSystem.OutlivedHadWayOut | src/runner/process_runner.cpp:289-312 | Every run that is not a failure and did not end by a signal had a way out: the supervisor handled no Terminate, or the kill did not fail and was not written while neither A nor B had ended |
| RunSystem.RunnerProjects | src/runner/process_runner.cpp:443-1190 | Seen from the runner, every run of the composed system is a run of the runner's protocol that has forked |
| RunExamples.OutlivingCondition | src/sandbox/sandbox.cpp:516-542 | For Terminate not handled, and for each outcome of the handled kill and whether A or B had ended by then: a run past its deadline can return without a signal exactly when that leaves such a way out |
| RunExamples.DeadlineCanBeOutlived | src/sandbox/sandbox.cpp:516-542 | For a denied kill and for no cgroup, a run in which nothing was killed or written by then, and which returns TimedOut with exit code 0 and output written after the deadline |
| RunExamples.KillCanComeLate | src/runner/process_runner.cpp:289-312 | For every kill that does not fail, a run past its deadline in which the submission had ended with 0 before it |
| RunExamples.TerminateCanBeUnread | src/runner/process_runner.cpp:394-406 | A run past its deadline whose Terminate is never handled: TimedOut with exit code 0, with A in the cgroup and the cgroup removed |
| RunExamples.ResultCanBeUnfinished | src/runner/process_runner.cpp:943-949 | A run that returns a result that is not finished in the scheduler's sense |
| RunExamples.SubmissionCanSurvive | src/sandbox/sandbox.cpp:555-564 | A run with A killed from outside and a cgroup that was given up returns Signaled while child B is executing |
| RunExamples.SurvivorCanWrite | src/runner/process_runner.cpp:1022-1034 | Whenever B is alive after such a return, the run can go on so that the returned output is a strict prefix: the condition of OutputFrozenAtTerminated cannot be dropped |
| SupervisorProtocol.SupervisorDiscipline | src/runner/process_runner.cpp:189-440 | In every run the supervisor's messages are nothing, [SetupFailed], [Ready], [Ready, SetupFailed] or [Ready, Terminated]; one after Ready comes after the reap and then the cleared cgroup path; Ready comes after attach and release; sandbox.terminate is called at most once |
| SupervisorProtocol.StepKeepsInv | src/runner/process_runner.cpp:189-440 | Every event keeps the invariant that ties phase, history of irrevocable acts and cgroup path together |
| SupervisorProtocol.LastMessageDecided | src/runner/process_runner.cpp:334-434 | Of the two possible last messages SetupFailed is sent exactly when a failure record was read, and Terminated with the final status exactly otherwise |
| SupervisorProtocol.AbortedUnreleased | src/sandbox/sandbox.cpp:406-433 | After a failed attach or release there is no release and no message, and the reap is on record exactly when the wait succeeded |
| SupervisorProtocol.MessagesOfLawful | src/runner/process_runner.cpp:264-440 | The exact messages a lawful history contains, position by position |
| Supervisor.Supervisor.Run | src/runner/process_runner.cpp:189-440 | For every script of kernel replies the supervisor's code follows the protocol and exits, with code 0 exactly when Terminated was sent; with the discipline above; every poll is served as SupervisorTurns demands, and the forwarded status and failure of the protocol are those that the log read |
| SupervisorTurns.WantedExactly | src/runner/process_runner.cpp:289-386 | What a poll calls for: a command if reported, a record exactly if the pipe is open and was reported, and always the child |
| SupervisorTurns.ServedBeforeNextPoll | src/runner/process_runner.cpp:277-407 | Whatever a poll calls for is served before the loop polls again |
| SupervisorTurns.RecordBeforeChild | src/runner/process_runner.cpp:314-393 | A reported record is read before the child is looked at in that turn |
| SupervisorTurns.ReadIsRemembered | src/runner/process_runner.cpp:319-380 | The forwarded status is the last one read, and a failure counts as read exactly if a failure record was |
| Supervisor.Supervisor.Turn | src/runner/process_runner.cpp:277-407 | One turn serves its poll; a failure record that comes first is read and ends the loop, a wait status that comes first is kept |
| Supervisor.Supervisor.Prepare | src/sandbox/sandbox.cpp:149-173 | Goes on exactly when the cgroup was made or denied and the root directory was made; otherwise it leaves without having reported an end |
| Supervisor.Supervisor.Fork | src/sandbox/sandbox.cpp:179-221 | Succeeds exactly when both pipes, the close-on-exec flag and the fork did |
| Supervisor.Supervisor.AttachAndRelease | src/sandbox/sandbox.cpp:406-433 | Goes on exactly when the child joined the cgroup, or none is to be managed, and the sync byte was written; then exactly an attach and a release are on record; otherwise no release is, and the child's end exactly if the wait for it succeeded |
| Supervisor.Supervisor.Abort | src/sandbox/sandbox.cpp:223-239 | The child's end is on record exactly when the wait behind the kill succeeded, nothing else is, and the supervisor leaves without a report |
| Supervisor.Supervisor.Reap | src/runner/process_runner.cpp:384-393 | The child's end goes on record, with its raw status, exactly when the kernel reported it |
| Supervisor.Supervisor.HandleControl | src/runner/process_runner.cpp:289-312 | Stays exactly for an empty Terminate after which, unless termination was requested before, the kill did not fail, and has then requested it; anything else makes it leave without a report |
| Supervisor.Supervisor.HandleStatus | src/runner/process_runner.cpp:314-382 | Leaves exactly on a failure record or an error; a failure is on record as read exactly if that is what was read; a wait-status record is stored, end of file closes the pipe |
| Supervisor.Supervisor.SendFailure | src/runner/process_runner.cpp:354-367 | SetupFailed is on record as sent exactly when the send succeeded, and the supervisor exits |
| Supervisor.Supervisor.TryReap | src/runner/process_runner.cpp:384-406 | Goes on watching exactly when the wait found the child alive; it goes on to report only with the child's end and then the cleared path on record |
| Supervisor.Supervisor.GiveUp | src/runner/process_runner.cpp:225-262 | Calls terminate exactly if that was not tried; the child's end is on record exactly when the wait behind the kill succeeded; the status pipe is closed and no report is made |
| Supervisor.Supervisor.Clear | src/runner/process_runner.cpp:402-405 | The path is cleared exactly on success, and whether rmdir really removed the cgroup goes on record; a stuck cgroup ends the supervisor |
| Supervisor.Supervisor.Report | src/runner/process_runner.cpp:429-440 | Exit code 0 exactly when the send succeeded; then exactly the forwarded status, if there is one, and the reaped one otherwise, was sent |
| SandboxCgroup.Sandbox.SetupCgroup | src/sandbox/sandbox.cpp:122-146 | Success exactly when the directory was made or denied; the path is forgotten exactly when denied or already there |
| SandboxCgroup.Sandbox.AddProcess | src/sandbox/sandbox.cpp:574-615 | On success the process is a member exactly when a path remains; both outcomes characterised by the kernel's answers |
| SandboxCgroup.Sandbox.Terminate | src/sandbox/sandbox.cpp:516-542 | Success, denial and failure of the kill characterised by the kernel's answers; only a tolerated denial forgets the path |
| SandboxCgroup.Sandbox.CleanupCgroup | src/sandbox/sandbox.cpp:544-572 | At most five attempts, each but the last busy, with one pause after each busy one; success exactly when the last one removed, missed or was denied the directory; success and only success forgets the path |
| Kernel.DeniedCases | src/sandbox/sandbox.cpp:559-562 | Exactly EPERM and EACCES count as a denial |
| WaitStatuses.MirrorFaithful | src/sandbox/sandbox.cpp:367-385 | Decoding child A's status gives B's exit code or B's signal, with or without a core dump |
| WaitStatuses.DecodeMeaning | src/runner/process_runner.cpp:722-730 | A status decodes to exit code c exactly if it is 256 * c, and to signal c exactly if it is c, with or without the core flag |
| RunnerProtocol.RunnerDiscipline | src/runner/process_runner.cpp:893-1190 | In every run the supervisor is successfully waited for at most once; a result that is not a failure comes after exactly one reap and is computed from Terminated; every failure carries exit code 1, no output and no signal |
| RunnerProtocol.OkEndings | src/runner/process_runner.cpp:1174-1187 | A return that is not a failure: TimedOut exactly past the deadline, else Signaled or Completed by how the child ended, each with its own state; the child's exit code, or 1 under a signal; the captured streams |
| RunnerProtocol.ReturnedState | src/runner/process_runner.cpp:943-996 | The returned state is finished in the scheduler's sense exactly unless the run's events include a setup failure or trouble after Ready, which leaves Created; it is never Cancelled |
| Results.FinishedStates | include/runner/execution_scheduler.hpp:143-151 | Exactly Created, Starting and Running are not finished |
| Executions.RunNext | include/runner/execution_scheduler.hpp:112-129 | The handle that runNext publishes is finished exactly unless its run met a setup failure or trouble after Ready, and is never Cancelled |
| Executions.SerialFinished | include/runner/execution_scheduler.hpp:188-206 | The same for every handle a worker pool publishes |
| Runner.Runner.Run | src/runner/process_runner.cpp:75-1190 | For every script of kernel replies: follows the protocol to a return; before the fork exactly the ends that were opened are closed; after Ready all eight ends are closed exactly once; in between exactly the three child-side ends stay open; every poll is served as RunnerTurns demands, a run that got to the loop is a failure exactly if a call in its log failed, and otherwise returns what the log captured; stdin got a prefix of the input; the deadline is kept punctually; at most 200 sleeps |
| RunnerTurns.WantedExactly | src/runner/process_runner.cpp:952-1120 | What a poll calls for: a message if reported and then nothing else, else each stream exactly if it is open and was reported |
| RunnerTurns.ServedBeforeNextPoll | src/runner/process_runner.cpp:939-1152 | Whatever a poll calls for is served before the loop polls again |
| RunnerTurns.CapturedIsBrought | src/runner/process_runner.cpp:1085-1150 | The captured streams are the concatenation of what the logged reads brought |
| RunnerTurns.PollsAreTimely | src/runner/process_runner.cpp:913-941 | A poll before the deadline never waits past it for limits below 2^31 ms; after Terminate it waits 10 ms |
| Runner.Runner.Acquire | src/runner/process_runner.cpp:82-160 | Forks exactly when all six calls succeed; each successful call opens its pair; a failure closes exactly what was opened |
| Runner.Runner.AwaitReady | src/runner/process_runner.cpp:605-651 | Goes on exactly for a whole, fitting Ready; which failure status every other case gets; three ends left open |
| Runner.Runner.CleanupBeforeReady | src/runner/process_runner.cpp:544-604 | Every step is tried that the outcome of the steps before it allows: reap, kill, look, removal; success exactly if the removal was reached and succeeded; at most 100 sleeps; the same four ends closed on every path |
| Runner.Runner.Contain | src/runner/process_runner.cpp:753-840 | Every step is tried that the outcome of the steps before it allows, in the source's order; success exactly if the removal was reached and succeeded, and then the supervisor is reaped; at most 200 sleeps |
| Runner.RemovalIsLast | src/runner/process_runner.cpp:834-838 | In every such sequence a removal is last, after a successful kill, then an empty cgroup, and a reap |
| Runner.Runner.AskToTerminate | src/runner/process_runner.cpp:741-751 | An open channel stays open exactly if it took Terminate, and is closed otherwise |
| Runner.Runner.AwaitSupervisor | src/runner/process_runner.cpp:757-779 | Gives up only after 100 sleeps or a failed wait |
| Runner.ToleranceAgrees | src/runner/process_runner.cpp:484-542 | Interruptions apart, the runner and the sandbox take the same answers for a killed and for a removed cgroup |
| Runner.Runner.CleanupAfterFailure | src/runner/process_runner.cpp:732-859 | As above, and every end still open is closed exactly once |
| Runner.Runner.KillGroup | src/runner/process_runner.cpp:500-542 | Success exactly for a written kill, a missing or a forbidden cgroup |
| Runner.Runner.AwaitEmpty | src/runner/process_runner.cpp:786-806 | The verdict is that of the last look, after 100 sleeps or a look that already found the cgroup empty |
| Runner.Runner.GroupEmpty | src/runner/process_runner.cpp:447-483 | True exactly if the text could be read and has a 0 behind its first "populated " |
| Runner.FirstLineDecides | src/runner/process_runner.cpp:474-482 | For a text that starts with "populated " the digit behind it decides, whatever follows |
| Runner.Runner.RemoveGroup | src/runner/process_runner.cpp:484-499 | Success exactly when the cgroup was gone, removed, missing or forbidden |
| Runner.Runner.Fail | src/runner/process_runner.cpp:943-949 | A failure in the loop returns RunnerFailure or, after a failed containment, SandboxFailure, with state Created and everything closed |
| Runner.Runner.HandleControl | src/runner/process_runner.cpp:952-1042 | The loop goes on exactly for a whole Terminated of the exact size with a successful wait, and then everything is closed and the supervisor is reaped; every other case returns the failure that the source gives it |
| Runner.Runner.FailOnControl | src/runner/process_runner.cpp:957-999 | The status each bad header, bad payload and setup failure is returned with |
| Runner.ReportUnderstood | src/runner/process_runner.cpp:1000-1023 | The runner takes exactly a Terminated frame with that wait status for that end, and exactly a SetupFailed frame of 8 bytes for a setup failure |
| Runner.ReadyUnderstood | src/runner/process_runner.cpp:605-622 | A message with a payload is received before Ready exactly if its payload fits 16 bytes |
| Runner.Runner.FinishSupervisorTerminal | src/runner/process_runner.cpp:861-884 | The channel is closed once; success exactly when the wait succeeded |
| Runner.Runner.WriteChunk | src/runner/process_runner.cpp:1050-1082 | Feeds the next bytes that the kernel took; closes stdin exactly on EPIPE or at the end of the input, once, in spite of the wrap-around of the 64-bit offset |
| Runner.Runner.ServeOutputs | src/runner/process_runner.cpp:1085-1150 | An open stream that was reported is read, and what the read brought is appended; both streams are seen to |
| Runner.Runner.ReadStdout | src/runner/process_runner.cpp:1085-1116 | Appends exactly what one read brought, at most 4096 bytes |
| Runner.Runner.ReadStderr | src/runner/process_runner.cpp:1119-1150 | The same for stderr |
| Runner.Runner.LoopHead | src/runner/process_runner.cpp:894-910 | Terminate is sent on an open channel at the first unfinished head at or past the deadline, never earlier and at most once; whether it counts as sent or lost is the reply's; the flag says which |
| Runner.Runner.Loop | src/runner/process_runner.cpp:893-1171 | Its head keeps control_channel_open == !submission_finished, and finished means closed pipes and a reaped supervisor; the break at 931 and the reap at 1153 are unreachable |
| Runner.Runner.Conclude | src/runner/process_runner.cpp:1174-1189 | The returned result is the protocol's result for the reported status |
| Deadlines.PollTimeoutFaithful | src/runner/process_runner.cpp:913-929 | Before the deadline the poll timeout is the remaining time exactly when that fits 31 bits, and then it never overshoots |
| Deadlines.PunctualStep | src/runner/process_runner.cpp:893-910 | Each further loop head keeps the sequence of attempts punctual |
| Wire.WriteAll | src/common/sandbox_protocol.cpp:12-37 | What reaches the stream is a prefix of the buffer, the whole of it exactly on success |
| Wire.ReadAll | src/common/sandbox_protocol.cpp:39-64 | What leaves the stream is its next bytes in order, stored in the target range and nowhere else; all of them exactly on success |
| Wire.SendMessage | src/common/sandbox_protocol.cpp:67-87 | A failed send leaves a strict prefix of the frame, a successful one the whole frame |
| Wire.ReceiveMessage | src/common/sandbox_protocol.cpp:89-108 | Success takes exactly one frame and stays within capacity; what each failure has consumed; on a sound descriptor success exactly when a fitting frame is there |
| Wire.FramePrefixFree | src/common/sandbox_protocol.cpp:67-87 | Two streams that start with frames are equal only if frames and rests are |
| Wire.CodesDistinct | include/common/sandbox_protocol.hpp:21-26 | The four message types have distinct codes, in the order of the enumeration |
| Wire.TornFrameUnreadable | src/common/sandbox_protocol.cpp:78-86 | A strict prefix of a frame is never received as a message |
| Wire.Exchange | src/common/sandbox_protocol.cpp:67-108 | Any list of messages under any finite pattern of short transfers and interruptions on both sides arrives as that list, with nothing left over |
| StatusPipe.WriteWaitStatus | src/common/sandbox_protocol.cpp:149-156 | The record, or a strict prefix of it exactly on failure |
| StatusPipe.ReadStatusPipe | src/common/sandbox_protocol.cpp:161-209 | Whatever is not an error is the parse of the stream; a sound descriptor gives exactly the parse |
| StatusPipe.ReadSetupFailure | src/common/sandbox_protocol.cpp:109-145 | The same for the untagged reader |
| StatusPipe.ExchangeRecords | src/common/sandbox_protocol.cpp:149-209 | Any sequence of records, written and read under any finite pattern of short transfers and interruptions on both sides, is read as that sequence and then end of file |
| StatusPipe.StatusRoundTrip | src/common/sandbox_protocol.cpp:149-209 | Any sequence of failure records and forwarded statuses reads back as that sequence, then end of file |
| StatusPipe.TruncationDetected | src/common/sandbox_protocol.cpp:161-209 | A stream cut inside a record reads as the whole records before, then an error |
| StatusPipe.ReadersAgree | src/common/sandbox_protocol.cpp:109-209 | The two readers agree exactly on streams that do not start with a whole tagged record |
| StatusPipe.FramedFailureMisread | src/sandbox/sandbox.cpp:25-36 | Every failSetup frame is read as (Namespace, 8), whatever failed, followed by the true record |
| StatusPipe.TornFailureMisread | src/common/sandbox_protocol.cpp:187-208 | A torn failSetup frame is read as (Namespace, 8) exactly when it was torn behind its header, and as an error otherwise |
| ExecutionIds.NearbyIdsDiffer | src/runner/process_runner.cpp:27-39 | For all clock readings, raw ids whose counters are 1 to 65535 apart differ; the remap can only merge a raw 0 with a raw 1 |
| ExecutionIds.CollisionCondition | src/runner/process_runner.cpp:27-39 | Some clock readings make two raw ids collide exactly when the counters agree modulo 65536 |
| ExecutionIds.ClockCounts | src/runner/process_runner.cpp:27-39 | Ids of one process and count agree exactly if the clocks agree in their low 48 bits |
| ExecutionIds.ProcessCounts | src/runner/process_runner.cpp:27-39 | Ids of one clock reading and count agree exactly if the process ids agree in their low 16 bits |
| ExecutionIds.IdGenerator.GenerateExecutionId | src/runner/process_runner.cpp:27-39 | Each call uses the counter once and moves it on modulo 2^64; the id is the remapped raw id |
| WorkQueue.Queue.TryEnqueue | include/runner/execution_scheduler.hpp:41-53 | Refuses exactly when there is a bound and it is reached, changes nothing then, and otherwise appends; keeps the bound |
| WorkQueue.Queue.TryDequeue | include/runner/execution_scheduler.hpp:55-64 | Takes the oldest job, or reports an empty queue |
| WorkQueue.Queue.Cancel | include/runner/execution_scheduler.hpp:71-85 | Moves exactly the first match from pending to completed as Cancelled; found exactly when there is one |
| WorkQueue.Queue.DrainCompleted | include/runner/execution_scheduler.hpp:92-97 | Hands out all completed jobs once |
| WorkQueue.Scheduler.RunNext | include/runner/execution_scheduler.hpp:112-129 | Runs the oldest job and publishes it with its result and state |
| WorkQueue.WorkerPool.DrainOnce | include/runner/execution_scheduler.hpp:188-196 | Processes min(workers, pending) jobs in order |
| WorkQueue.WorkerPool.DrainAll | include/runner/execution_scheduler.hpp:198-206 | Terminates; with at least one worker it empties the queue, returns the initial count and publishes exactly what a single worker would; with none it changes nothing |
| WorkQueue.SerialAppend | include/submission/submission_service.hpp:172-180 | Batches published one after the other are one serial loop |
| ConcurrentQueue.QueueConserves | include/runner/execution_scheduler.hpp:30-97 | Over every run of any number of submitters, workers, cancellers and collectors each admitted job is in exactly one of pending, in hand and published, once |
| ConcurrentQueue.FifoOverUncancelled | include/runner/execution_scheduler.hpp:55-85 | Jobs are taken in admission order, each at most once; a job was taken exactly when it was admitted, no longer waits and was not cancelled |
| ConcurrentQueue.CancelledMeansUnrun | include/runner/execution_scheduler.hpp:71-129 | A published job is Cancelled exactly when no worker ever took it, and exactly then has no result |
| ConcurrentQueue.BoundKept | include/submission/submission_service.hpp:45-58 | With bounded admission only, pending never exceeds the bound |
| ConcurrentQueue.BoundStep | include/submission/submission_service.hpp:33-58 | One step breaks the bound exactly if it is an enqueue at the bound; tryEnqueue changes nothing there and admits below it |
| ConcurrentQueue.UnboundedAdmits | include/submission/submission_service.hpp:45-58 | Without a bound every request is admitted |
| ConcurrentQueue.JobsKeepIdentity | include/runner/execution_scheduler.hpp:30-97 | From admission to publication every job keeps the id and the request it was admitted with |
| ConcurrentQueue.StepKeeps | include/runner/execution_scheduler.hpp:30-129 | Every lock-guarded operation keeps conservation, order and accounting |
| Verdicts.VerdictAssigned | src/judge/judge.cpp:6-35 | The verdict is independent of what was unassigned exactly outside the unassigned signals; there it is Accepted exactly for a clean exit 0 with the expected output |
| Verdicts.VerdictMeaning | src/judge/judge.cpp:10-31 | Exactly when each of Accepted, WrongAnswer, RuntimeError and TimeLimitExceeded is given |
| Verdicts.VerdictFollowsSubmission | src/judge/judge.cpp:6-35 | When B's status got through, the verdict is decided by how B ended, whether the deadline had passed, and the captured output |
| Verdicts.RunTests | src/testrunner/testrunner.cpp:10-27 | All tests accepted, or the least non-accepted index with its result and verdict, and no later test was started |
| Verdicts.EvaluateSubmission | src/submission/submission.cpp:10-43 | CompilationError and nothing started when compilation failed; otherwise the verdict of the first failing test, or Accepted |
| Verdicts.FailureIsRuntimeError | src/judge/judge.cpp:21-24 | Every run of the runner that returns RunnerFailure or SandboxFailure, before or after the fork, is judged RuntimeError |
| Verdicts.UnforkedIsRuntimeError | src/runner/process_runner.cpp:82-160 | A run that did not get to fork returns RunnerFailure and is judged RuntimeError |
| Verdicts.FailedSetupNeverAccepted | src/runner/process_runner.cpp:334-406 | A run whose setup failed is judged RuntimeError or TimeLimitExceeded whichever report wins the race, absent an outside kill of child A |
| Verdicts.AcceptedExecution | src/judge/judge.cpp:10-31 | Accepted implies a safe completion, exit 0, expected output equal to what was captured and a prefix of what was written, B's own exit 0, and no failed setup |
| Verdicts.Submit | src/submission/submission.cpp:21-42 | Given the executions up to the first failing test, forked or not: accepted exactly when it compiled and every test ended cleanly; then every test got to fork and is as AcceptedExecution says; otherwise the least failing index |
| Verdicts.SparedHadWayOut | src/judge/judge.cpp:10-31 | Every TimedOut run judged other than TimeLimitExceeded had a way out: Terminate not handled, the kill denied, no cgroup, or A or B ended when the kill was written |
| Verdicts.DeadlineVerdict | src/judge/judge.cpp:10-31 | For each way Terminate can be handled, or not: a TimedOut run handled so can be judged other than TimeLimitExceeded exactly when it leaves a way out, whatever is expected |
| Verdicts.WrittenKillIsTimeLimit | src/judge/judge.cpp:10-13 | A return that is not a failure after a kill written while the submission was running is judged TimeLimitExceeded |
| Verdicts.TimedOutVerdict | src/judge/judge.cpp:10-31 | A timed-out run is judged TimeLimitExceeded exactly when it was ended by a signal |
| Verdicts.TimedOutCanBeAccepted | src/judge/judge.cpp:21-31 | A run with status TimedOut whose verdict is Accepted |

## Left out

- Namespaces, mounts, pivot_root, uid and gid maps, resource limits and exec: kernel effects; only their success or failure, and what is reported then, is kept.
- Child A and child B as methods: they are straight-line code and appear as steps of the composed system only. B stands for the submission with all its descendants, which end with it as it is the init process of its PID namespace.
- Interleaving of bytes within frames when child A and the supervisor write to the control socket at once: every frame is whole or torn in the composed system.
- Descriptors inside the supervisor and the children: only the runner's eight ends are counted.
- Liveness: a denied kill can leave the runner polling for ever, so the statements are about safety and about bounded cleanup.
- Migration out of the cgroup: a process forked by a member is taken to stay a member, rmdir to fail while a member is alive, and a written cgroup.kill to leave a member no way to end but a signal.
- Rollback of a partial setup: the code does not promise it (a failed mkdtemp leaves the cgroup behind).
- rusage, memory and wall-time figures: measurements without logic.
- Uniqueness of submission ids: not promised by the code; ids are arbitrary and may repeat.
- Exceptions, mutexes and the memory model: each lock-guarded operation is one atomic step.
- The compiler, paths, console output and verdict names: plumbing.
- Runner.Runner.GroupEmpty: a NUL byte inside the text of cgroup.events would end the search early; the kernel writes none.
- Runner.Runner.AwaitReady: a message is received as one header reply and one payload reply; the byte-level transfers are in Wire. The host and namespace pids it carries are not used afterwards and are dropped.
- WorkQueue.Queue.Enqueue: takes the id as a parameter instead of drawing it from the clock.
