/** include/common: the vocabulary shared by the runner, the queues and the judge. */
module Results {
  import opened Bytes

  datatype Option<+T> = None | Some(value: T)

  datatype ExecutionState =
    | Created | Starting | Running | Finished | TimedOut | Signaled
    | Failed | SandboxFailed | RunnerFailed | Cancelled

  datatype ExecutionStatus = Completed | TimedOut | Signaled | SandboxFailure | RunnerFailure

  datatype ExecutionResult = ExecutionResult(
    status: ExecutionStatus,
    state: ExecutionState,
    exitCode: int,
    stdout: seq<Byte>,
    stderr: seq<Byte>,
    terminatedBySignal: bool,
    wallTimeLimitExceeded: bool,
    signalNumber: int)

  datatype Verdict =
    | Accepted | WrongAnswer | RuntimeError | TimeLimitExceeded
    | MemoryLimitExceeded | CompilationError | InternalError

  /** ExecutionScheduler::isFinished. */
  predicate IsFinished(s: ExecutionState) {
    || s == ExecutionState.Finished || s == ExecutionState.TimedOut || s == ExecutionState.Signaled
    || s == ExecutionState.Failed || s == ExecutionState.SandboxFailed || s == ExecutionState.RunnerFailed
    || s == ExecutionState.Cancelled
  }

  /** Only an execution that is still to run, or running, is not finished. */
  lemma FinishedStates(s: ExecutionState)
    ensures IsFinished(s) <==> s !in {ExecutionState.Created, ExecutionState.Starting, ExecutionState.Running}
  {
  }
}
