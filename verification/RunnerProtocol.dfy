/**
 * The runner half of ProcessRunner::run, as the order in which it may act on the control socket,
 * the supervisor and the output pipes, and the result it then returns. Runner.dfy shows that the
 * code keeps to this order; RunSystem.dfy composes it with the other processes.
 */
module RunnerProtocol {
  import opened Bytes
  import opened Results
  import opened WaitStatuses

  datatype Phase =
    | Idle | AwaitingReady | EarlyFailure | EarlyCleanup
    | Looping | TerminatedRead | Settled | FailureRead | Cleanup
    | Returned(result: ExecutionResult)

  /** `reported`: the status Terminated carried. `refused`: a SetupFailed came instead of it. */
  datatype View = View(
    phase: Phase,
    forked: bool,
    ready: bool,
    terminationRequested: bool,
    wallExceeded: bool,
    reported: Option<int>,
    refused: bool,
    reaps: nat,
    stdout: seq<Byte>,
    stdoutEof: bool,
    stderr: seq<Byte>,
    stderrEof: bool)

  const START := View(Idle, false, false, false, false, None, false, 0, [], false, [], false)

  datatype Event =
    | NotForked | Forked
    | GotReady | GotEarlyFailure | EarlyTrouble
    | DeadlineSent
    | GotOutput(data: seq<Byte>) | OutputEof | GotErrors(data: seq<Byte>) | ErrorsEof
    | GotTerminated(waitStatus: int) | GotFailure | Trouble
    | CleanupTerminate | KilledGroup | KilledSupervisor
    | ReapedSupervisor
    | ReturnedOk | ReturnedFailed(status: ExecutionStatus)

  /** finalize_status and the last lines of run. */
  function OkResult(v: View, ws: int): ExecutionResult {
    var (status, state) :=
      if v.wallExceeded then (ExecutionStatus.TimedOut, ExecutionState.TimedOut)
      else if IfSignaled(ws) then (ExecutionStatus.Signaled, ExecutionState.Signaled)
      else (Completed, ExecutionState.Finished);
    ExecutionResult(status, state,
                    if IfExited(ws) then ExitStatus(ws) else 1,
                    v.stdout, v.stderr,
                    !IfExited(ws) && IfSignaled(ws), v.wallExceeded,
                    if !IfExited(ws) && IfSignaled(ws) then TermSignal(ws) else 0)
  }

  /** Every other return: exit code 1, no output, no signal. */
  function FailedResult(status: ExecutionStatus, state: ExecutionState, wallExceeded: bool): ExecutionResult {
    ExecutionResult(status, state, 1, [], [], false, wallExceeded, 0)
  }

  /** The state a failing return leaves in the result, by where the run had got to. */
  function FailedState(p: Phase, status: ExecutionStatus): ExecutionState {
    if p.FailureRead? || p.Cleanup? then Created
    else if status == RunnerFailure then ExecutionState.RunnerFailed
    else ExecutionState.SandboxFailed
  }

  predicate Enabled(v: View, e: Event) {
    match e
    case NotForked => v.phase.Idle?
    case Forked => v.phase.Idle?
    case GotReady => v.phase.AwaitingReady?
    case GotEarlyFailure => v.phase.AwaitingReady?
    case EarlyTrouble => v.phase.AwaitingReady?
    case DeadlineSent => v.phase.Looping? && !v.terminationRequested
    case GotOutput(data) => v.phase.Looping? && !v.stdoutEof && data != []
    case OutputEof => v.phase.Looping? && !v.stdoutEof
    case GotErrors(data) => v.phase.Looping? && !v.stderrEof && data != []
    case ErrorsEof => v.phase.Looping? && !v.stderrEof
    case GotTerminated(_) => v.phase.Looping?
    case GotFailure => v.phase.Looping?
    case Trouble => v.phase.Looping?
    case CleanupTerminate => v.phase.Cleanup?
    case KilledGroup => v.phase.Cleanup? || v.phase.EarlyCleanup?
    case KilledSupervisor => v.phase.Cleanup? || v.phase.EarlyCleanup?
    case ReapedSupervisor =>
      v.reaps == 0 && (v.phase.TerminatedRead? || v.phase.FailureRead? || v.phase.EarlyFailure? || v.phase.Cleanup? || v.phase.EarlyCleanup?)
    case ReturnedOk => v.phase.Settled? && v.reported.Some?
    case ReturnedFailed(status) =>
      || (v.phase.TerminatedRead? && status == RunnerFailure)
      || ((v.phase.FailureRead? || v.phase.EarlyFailure?) && status == SandboxFailure)
      || ((v.phase.Cleanup? || v.phase.EarlyCleanup?) && (status == RunnerFailure || status == SandboxFailure))
  }

  function PhaseAfter(v: View, e: Event): Phase
    requires Enabled(v, e)
  {
    match e
    case NotForked => Returned(FailedResult(RunnerFailure, ExecutionState.RunnerFailed, false))
    case Forked => AwaitingReady
    case GotReady => Looping
    case GotEarlyFailure => EarlyFailure
    case EarlyTrouble => EarlyCleanup
    case GotTerminated(_) => TerminatedRead
    case GotFailure => FailureRead
    case Trouble => Cleanup
    case ReapedSupervisor => if v.phase.TerminatedRead? then Settled else v.phase
    case ReturnedOk => Returned(OkResult(v, v.reported.value))
    case ReturnedFailed(status) => Returned(FailedResult(status, FailedState(v.phase, status), v.wallExceeded))
    case _ => v.phase
  }

  function Next(v: View, e: Event): View
    requires Enabled(v, e)
  {
    View(
      PhaseAfter(v, e),
      v.forked || e.Forked?,
      v.ready || e.GotReady?,
      v.terminationRequested || e.DeadlineSent? || e.CleanupTerminate?,
      v.wallExceeded || e.DeadlineSent?,
      if e.GotTerminated? then Some(e.waitStatus) else v.reported,
      v.refused || e.GotFailure?,
      if e.ReapedSupervisor? then v.reaps + 1 else v.reaps,
      if e.GotOutput? then v.stdout + e.data else v.stdout,
      v.stdoutEof || e.OutputEof?,
      if e.GotErrors? then v.stderr + e.data else v.stderr,
      v.stderrEof || e.ErrorsEof?)
  }

  predicate IsOk(s: ExecutionStatus) {
    s == Completed || s == ExecutionStatus.TimedOut || s == ExecutionStatus.Signaled
  }

  predicate Inv(v: View) {
    && v.reaps <= 1
    && (v.wallExceeded ==> v.terminationRequested) && (v.ready ==> v.forked)
    && (!v.forked ==> v.phase.Idle? || v.phase == Returned(FailedResult(RunnerFailure, ExecutionState.RunnerFailed, false)))
    && (v.refused ==> v.ready && v.reported.None? && (v.phase.FailureRead? || v.phase.Returned?))
    && match v.phase
       case Idle => v == START
       case AwaitingReady => v == START.(phase := AwaitingReady, forked := true)
       case EarlyFailure => !v.ready && v.reported.None? && !v.terminationRequested
       case EarlyCleanup => !v.ready && v.reported.None? && !v.terminationRequested
       case Looping => v.reaps == 0 && v.reported.None? && v.ready && v.wallExceeded == v.terminationRequested
       case TerminatedRead => v.reaps == 0 && v.reported.Some? && v.ready && v.wallExceeded == v.terminationRequested
       case Settled => v.reaps == 1 && v.reported.Some? && v.ready && v.wallExceeded == v.terminationRequested
       case FailureRead => v.refused && v.ready && v.wallExceeded == v.terminationRequested
       case Cleanup => v.ready && v.reported.None?
       case Returned(r) =>
         && (IsOk(r.status) ==> v.reaps == 1 && v.reported.Some? && v.ready && r == OkResult(v, v.reported.value)
                                && v.wallExceeded == v.terminationRequested)
         && (!IsOk(r.status) ==> r == FailedResult(r.status, r.state, r.wallTimeLimitExceeded))
         && (!IsOk(r.status) && v.reported.Some? ==> v.reaps == 0)
         && (r.state == Created ==> v.ready && !IsOk(r.status))
         && (r.state == Created || IsFinished(r.state)) && r.state != ExecutionState.Cancelled
  }

  lemma StepKeepsInv(v: View, e: Event)
    requires Inv(v) && Enabled(v, e)
    ensures Inv(Next(v, e))
  {
  }

  function AfterReap(v: View): View {
    v.(reaps := v.reaps + 1, phase := if v.phase.TerminatedRead? then Settled else v.phase)
  }

  lemma ReapNext(v: View)
    requires Enabled(v, ReapedSupervisor)
    ensures Next(v, ReapedSupervisor) == AfterReap(v)
  {
  }

  /** Only GotTerminated sets the reported status, and no output is taken once it is set. */
  lemma FrozenNext(v: View, e: Event)
    requires Inv(v) && Enabled(v, e) && !e.GotTerminated? && Next(v, e).reported.Some?
    ensures v.reported.Some? && Next(v, e).stdout == v.stdout && Next(v, e).stderr == v.stderr
  {
  }

  /** A run: the events, and the views before, between and after them. */
  datatype Run = Run(events: seq<Event>, views: seq<View>)

  predicate IsStep(v: View, e: Event, v': View) {
    Enabled(v, e) && v' == Next(v, e)
  }

  predicate StepAt(r: Run, i: nat)
    requires i < |r.events| < |r.views|
  {
    IsStep(r.views[i], r.events[i], r.views[i + 1])
  }

  ghost predicate Accepts(r: Run, v: View) {
    && |r.views| == |r.events| + 1 && r.views[0] == START && r.views[|r.events|] == v
    && forall i: nat :: i < |r.events| ==> StepAt(r, i)
  }

  /** Without its last event, a run is a run. */
  lemma Before(r: Run, v: View) returns (before: Run, u: View)
    requires Accepts(r, v) && r.events != []
    ensures var n := |r.events| - 1;
            before == Run(r.events[..n], r.views[..n + 1]) && u == r.views[n] && Accepts(before, u) && IsStep(u, r.events[n], v)
  {
    var n := |r.events| - 1;
    before, u := Run(r.events[..n], r.views[..n + 1]), r.views[n];
    assert StepAt(r, n);
    forall i: nat | i < n ensures StepAt(before, i) {
      assert StepAt(r, i);
    }
  }

  const EMPTY := Run([], [START])

  function Record(r: Run, e: Event, v: View): Run {
    Run(r.events + [e], r.views + [v])
  }

  lemma AcceptsStep(r: Run, v: View, e: Event)
    requires Accepts(r, v) && Enabled(v, e)
    ensures Accepts(Record(r, e, Next(v, e)), Next(v, e))
  {
    var r' := Record(r, e, Next(v, e));
    forall i: nat | i < |r'.events| ensures StepAt(r', i) {
      if i < |r.events| { assert StepAt(r, i); }
    }
  }

  /**
   * Every run of the runner waits successfully for the supervisor at most once; and when it
   * returns a result that is not a failure, it did so exactly once, after reading Terminated,
   * and the result is computed from that message alone.
   */
  lemma {:induction false} RunnerDiscipline(r: Run, v: View)
    requires Accepts(r, v)
    ensures Inv(v) && v.reaps <= 1 && (v.ready ==> v.forked)
    ensures v.phase.Returned? && !v.forked ==> v.phase.result == FailedResult(RunnerFailure, ExecutionState.RunnerFailed, false)
    ensures v.phase.Returned? && IsOk(v.phase.result.status) ==>
              v.ready && v.reaps == 1 && v.reported.Some? && v.phase.result == OkResult(v, v.reported.value)
    ensures v.phase.Returned? && !IsOk(v.phase.result.status) ==>
              v.phase.result == FailedResult(v.phase.result.status, v.phase.result.state, v.phase.result.wallTimeLimitExceeded)
    decreases |r.events|
  {
    if r.events != [] {
      var before, u := Before(r, v);
      RunnerDiscipline(before, u);
      StepKeepsInv(u, r.events[|r.events| - 1]);
    }
  }

  /**
   * What a return that is not a failure looks like, for a status that a child can have: past the
   * deadline it is TimedOut, else Signaled or Completed; the exit code is the child's, or 1 under
   * a signal; and the output is what was captured.
   */
  lemma OkEndings(r: Run, v: View)
    requires Accepts(r, v) && v.phase.Returned? && IsOk(v.phase.result.status)
    ensures v.reported.Some?
    ensures Valid(v.reported.value) ==>
              var result, ending := v.phase.result, Decode(v.reported.value);
              && (ending.Exited? ==> !result.terminatedBySignal && result.exitCode == ending.code)
              && (ending.Killed? ==> result.terminatedBySignal && result.signalNumber == ending.signal && result.exitCode == 1)
              && (result.status == ExecutionStatus.TimedOut <==> result.state == ExecutionState.TimedOut)
              && (result.status == ExecutionStatus.Signaled <==> result.state == ExecutionState.Signaled)
              && (result.status == Completed <==> result.state == ExecutionState.Finished)
              && (result.status == ExecutionStatus.TimedOut <==> result.wallTimeLimitExceeded)
              && (!result.wallTimeLimitExceeded ==> (result.status == Completed <==> ending.Exited?))
    ensures v.phase.result.stdout == v.stdout && v.phase.result.stderr == v.stderr && v.phase.result.wallTimeLimitExceeded == v.wallExceeded
  {
    RunnerDiscipline(r, v);
    if Valid(v.reported.value) { DecodeMeaning(v.reported.value, 0); }
  }

  /** After Ready, a setup failure was received or something went wrong. */
  predicate LeavesLoop(e: Event) {
    e.GotFailure? || e.Trouble?
  }

  ghost predicate LeftThroughFailure(events: seq<Event>) {
    exists e :: e in events && LeavesLoop(e)
  }

  /** Where a run stands that was, or was not, left through a failure. */
  predicate Astray(v: View) {
    v.phase.FailureRead? || v.phase.Cleanup? || (v.phase.Returned? && v.phase.result.state == Created)
  }

  lemma AstrayStep(v: View, e: Event)
    requires Inv(v) && Enabled(v, e)
    ensures Astray(Next(v, e)) <==> Astray(v) || LeavesLoop(e)
    ensures LeavesLoop(e) ==> v.ready
  {
  }

  lemma {:induction false} AstrayExactly(r: Run, v: View)
    requires Accepts(r, v)
    ensures Astray(v) <==> LeftThroughFailure(r.events)
    decreases |r.events|
  {
    if r.events != [] {
      var before, u := Before(r, v);
      var e := r.events[|r.events| - 1];
      RunnerDiscipline(before, u);
      AstrayExactly(before, u);
      AstrayStep(u, e);
      assert r.events == before.events + [e];
    }
  }

  /**
   * The state a returned result carries: finished in the scheduler's sense exactly unless, after
   * Ready, the run met a setup failure or trouble of its own, which leaves it at Created. It is
   * never Cancelled.
   */
  lemma ReturnedState(r: Run, v: View)
    requires Accepts(r, v) && v.phase.Returned?
    ensures IsFinished(v.phase.result.state) <==> !LeftThroughFailure(r.events)
    ensures v.phase.result.state == Created <==> LeftThroughFailure(r.events)
    ensures v.phase.result.state != ExecutionState.Cancelled
  {
    AstrayExactly(r, v);
    RunnerDiscipline(r, v);
  }
}
