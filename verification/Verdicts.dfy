/** src/judge/judge.cpp, src/testrunner/testrunner.cpp, src/submission/submission.cpp. */
module Verdicts {
  import opened Bytes
  import opened Results
  import opened WaitStatuses
  import opened RunSystem
  import RunExamples
  import opened SandboxCgroup
  import S = SupervisorProtocol
  import R = RunnerProtocol

  const SIGXCPU := 24
  const SIGSEGV := 11

  /**
   * Judge::evaluate. For a signal other than SIGXCPU and SIGSEGV without a wall timeout the code
   * assigns nothing; `unassigned` is whatever the verdict then holds.
   */
  function Evaluate(r: ExecutionResult, expected: seq<Byte>, unassigned: Verdict): Verdict {
    if r.terminatedBySignal then
      if r.wallTimeLimitExceeded then TimeLimitExceeded
      else if r.signalNumber == SIGXCPU then TimeLimitExceeded
      else if r.signalNumber == SIGSEGV then RuntimeError
      else unassigned
    else if r.exitCode != 0 then RuntimeError
    else if r.stdout != expected then WrongAnswer
    else Accepted
  }

  predicate Unassigned(r: ExecutionResult) {
    r.terminatedBySignal && !r.wallTimeLimitExceeded && r.signalNumber != SIGXCPU && r.signalNumber != SIGSEGV
  }

  predicate Clean(r: ExecutionResult, expected: seq<Byte>) {
    !r.terminatedBySignal && r.exitCode == 0 && r.stdout == expected
  }

  /** The verdict is the code's own exactly when it does not depend on what was unassigned. */
  lemma VerdictAssigned(r: ExecutionResult, expected: seq<Byte>)
    ensures (forall u, v :: Evaluate(r, expected, u) == Evaluate(r, expected, v)) <==> !Unassigned(r)
    ensures !Unassigned(r) ==> forall u :: Evaluate(r, expected, u) == Accepted <==> Clean(r, expected)
  {
    if Unassigned(r) {
      assert Evaluate(r, expected, Accepted) != Evaluate(r, expected, WrongAnswer);
    }
  }

  /** When each verdict is given, to a result that has one. */
  lemma VerdictMeaning(r: ExecutionResult, expected: seq<Byte>, unassigned: Verdict)
    requires !Unassigned(r)
    ensures var v := Evaluate(r, expected, unassigned);
            && (v == Accepted <==> !r.terminatedBySignal && r.exitCode == 0 && r.stdout == expected)
            && (v == WrongAnswer <==> !r.terminatedBySignal && r.exitCode == 0 && r.stdout != expected)
            && (v == RuntimeError <==> if r.terminatedBySignal then !r.wallTimeLimitExceeded && r.signalNumber == 11 else r.exitCode != 0)
            && (v == TimeLimitExceeded <==> r.terminatedBySignal && (r.wallTimeLimitExceeded || r.signalNumber == 24))
  {
  }

  // ---------------------------------------------------------------------------------------
  // TestRunner::run and SubmissionService::evaluate
  // ---------------------------------------------------------------------------------------

  datatype TestCase = TestCase(input: seq<Byte>, expected: seq<Byte>)

  /** What the n-th run returned, and what its verdict would hold if left unassigned. */
  datatype Trial = Trial(result: ExecutionResult, unassigned: Verdict)

  datatype Failure = Failure(index: nat, result: ExecutionResult, verdict: Verdict)

  function VerdictOf(tests: seq<TestCase>, trials: nat -> Trial, i: nat): Verdict
    requires i < |tests|
  {
    Evaluate(trials(i).result, tests[i].expected, trials(i).unassigned)
  }

  /** Runs the tests in order and stops at the first that is not accepted; `ran` counts the runs. */
  method RunTests(tests: seq<TestCase>, trials: nat -> Trial) returns (failure: Option<Failure>, ran: nat)
    ensures failure.None? ==> ran == |tests| && forall i :: 0 <= i < |tests| ==> VerdictOf(tests, trials, i) == Accepted
    ensures failure.Some? ==>
              && failure.value.index < |tests| && ran == failure.value.index + 1
              && (forall i :: 0 <= i < failure.value.index ==> VerdictOf(tests, trials, i) == Accepted)
              && failure.value.verdict == VerdictOf(tests, trials, failure.value.index) != Accepted
              && failure.value.result == trials(failure.value.index).result
  {
    ran := 0;
    for i := 0 to |tests|
      invariant ran == i
      invariant forall j :: 0 <= j < i ==> VerdictOf(tests, trials, j) == Accepted
    {
      var trial := trials(i);
      ran := ran + 1;
      var verdict := Evaluate(trial.result, tests[i].expected, trial.unassigned);
      if verdict != Accepted {
        return Some(Failure(i, trial.result, verdict)), ran;
      }
    }
    failure := None;
  }

  datatype SubmissionResult = SubmissionResult(compileExit: int, verdict: Verdict, failure: Option<Failure>)

  /** Compiles, then tests; nothing is run when compilation fails. */
  method EvaluateSubmission(compileExit: int, tests: seq<TestCase>, trials: nat -> Trial)
    returns (result: SubmissionResult, ran: nat)
    ensures result.compileExit == compileExit
    ensures compileExit != 0 ==> result.verdict == CompilationError && result.failure.None? && ran == 0
    ensures compileExit == 0 ==> ran <= |tests| && forall i :: 0 <= i < ran - 1 ==> VerdictOf(tests, trials, i) == Accepted
    ensures compileExit == 0 && result.verdict == Accepted ==>
              ran == |tests| && result.failure.None? && forall i :: 0 <= i < |tests| ==> VerdictOf(tests, trials, i) == Accepted
    ensures compileExit == 0 && result.verdict != Accepted ==>
              && result.failure.Some? && ran == result.failure.value.index + 1 <= |tests|
              && VerdictOf(tests, trials, ran - 1) == result.verdict == result.failure.value.verdict
              && result.failure.value.result == trials(ran - 1).result
  {
    if compileExit == 0 {
      var failure;
      failure, ran := RunTests(tests, trials);
      var verdict := if failure.Some? then failure.value.verdict else Accepted;
      result := SubmissionResult(compileExit, verdict, failure);
    } else {
      result := SubmissionResult(compileExit, CompilationError, None);
      ran := 0;
    }
  }

  // ---------------------------------------------------------------------------------------
  // End to end
  // ---------------------------------------------------------------------------------------

  /**
   * One test's execution: a run of the system that has returned, or a run of the runner alone
   * that did not get to fork.
   */
  datatype Execution = Ran(run: Run, end: System) | Unforked(trace: R.Run, view: R.View)

  function RunnerOf(x: Execution): R.View {
    if x.Ran? then x.end.r else x.view
  }

  ghost predicate Executed(x: Execution) {
    && RunnerOf(x).phase.Returned?
    && match x
       case Ran(run, end) => Accepts(run, end)
       case Unforked(trace, view) => R.Accepts(trace, view) && !view.forked
  }

  /** What the run returned, once it has. */
  function ResultOf(x: Execution): ExecutionResult {
    if RunnerOf(x).phase.Returned? then RunnerOf(x).phase.result else R.FailedResult(RunnerFailure, Created, false)
  }

  /** Either way there is a run of the runner behind it. */
  lemma RunnerRun(x: Execution) returns (r: R.Run)
    requires Executed(x)
    ensures R.Accepts(r, RunnerOf(x))
  {
    match x {
      case Ran(run, end) => r := RunnerProjects(run, end);
      case Unforked(trace, _) => r := trace;
    }
  }

  /** Every run of the runner that ends as RunnerFailure or SandboxFailure is a runtime error. */
  lemma FailureIsRuntimeError(r: R.Run, v: R.View, expected: seq<Byte>, unassigned: Verdict)
    requires R.Accepts(r, v) && v.phase.Returned? && !R.IsOk(v.phase.result.status)
    ensures Evaluate(v.phase.result, expected, unassigned) == RuntimeError
  {
    R.RunnerDiscipline(r, v);
  }

  /** A run that did not get to fork is one of these. */
  lemma UnforkedIsRuntimeError(x: Execution, expected: seq<Byte>, unassigned: Verdict)
    requires Executed(x) && x.Unforked?
    ensures ResultOf(x).status == RunnerFailure && Evaluate(ResultOf(x), expected, unassigned) == RuntimeError
  {
    R.RunnerDiscipline(x.trace, x.view);
    FailureIsRuntimeError(x.trace, x.view, expected, unassigned);
  }

  /** Whichever report wins the race, a failed sandbox setup is never accepted. */
  lemma FailedSetupNeverAccepted(x: Execution, expected: seq<Byte>, unassigned: Verdict)
    requires Executed(x) && x.Ran? && x.end.setupFailed && !x.end.cause.ByOutside?
    ensures Evaluate(ResultOf(x), expected, unassigned) == RuntimeError
         || Evaluate(ResultOf(x), expected, unassigned) == TimeLimitExceeded
  {
    FailedSetupIsVisible(x.run, x.end);
  }

  /** What acceptance says about the processes. */
  predicate Sound(x: Execution, expected: seq<Byte>) {
    && x.Ran? && ReturnedOk(x.end) && Clean(ResultOf(x), expected)
    && expected <= x.end.output && (x.end.r.stdoutEof ==> expected == x.end.output)
    && x.end.a.Gone? && !x.end.s.hasPath && !x.end.s.stuck && x.end.r.reaps == 1
    && (x.end.mirrored || x.end.s.forwarded.Some? ==> x.end.b.Over? && Decode(x.end.b.ws) == Exited(0))
    && (!x.end.cause.ByOutside? ==> !x.end.setupFailed)
  }

  /**
   * An accepted execution returned normally after a safe completion, exited with 0, and what was
   * expected is what was captured, hence a prefix of what the program really wrote. If child A
   * ended as B did, or its forwarded status got through, B itself exited with 0.
   */
  lemma AcceptedExecution(x: Execution, expected: seq<Byte>, unassigned: Verdict)
    requires Executed(x) && !Unassigned(ResultOf(x))
    requires Evaluate(ResultOf(x), expected, unassigned) == Accepted
    ensures Sound(x, expected)
  {
    if x.Unforked? {
      UnforkedIsRuntimeError(x, expected, unassigned);
      assert false;
    }
    RunKeepsInv(x.run, x.end);
    OutputIsPrefix(x.run, x.end);
    CompletionIsSafe(x.run, x.end);
    if x.end.mirrored || x.end.s.forwarded.Some? { StatusIsFaithful(x.run, x.end); }
    if x.end.setupFailed && !x.end.cause.ByOutside? { FailedSetupNeverAccepted(x, expected, unassigned); }
  }

  /** There is an execution for every test, or for the tests up to one that is not clean. */
  ghost predicate FarEnough(tests: seq<TestCase>, executions: seq<Execution>) {
    && |executions| <= |tests|
    && (|executions| < |tests| ==>
          exists i :: 0 <= i < |executions| && !Clean(ResultOf(executions[i]), tests[i].expected))
  }

  /**
   * A submission over executions: accepted exactly when it compiled and every test ran cleanly;
   * and then every test got to fork, every expected output is a prefix of what the program wrote,
   * and no sandbox setup failed unless child A was killed from outside.
   */
  method Submit(compileExit: int, tests: seq<TestCase>, executions: seq<Execution>, unassigned: seq<Verdict>)
    returns (result: SubmissionResult)
    requires |executions| == |unassigned| && (compileExit == 0 ==> FarEnough(tests, executions))
    requires forall i :: 0 <= i < |executions| ==> Executed(executions[i]) && !Unassigned(ResultOf(executions[i]))
    ensures result.verdict == Accepted <==>
              && compileExit == 0 && |executions| == |tests|
              && forall i :: 0 <= i < |tests| ==> Clean(ResultOf(executions[i]), tests[i].expected)
    ensures result.verdict == Accepted ==> forall i :: 0 <= i < |tests| ==> Sound(executions[i], tests[i].expected)
    ensures compileExit == 0 && result.verdict != Accepted ==>
              && result.failure.Some? && result.failure.value.index < |executions| <= |tests|
              && !Clean(ResultOf(executions[result.failure.value.index]), tests[result.failure.value.index].expected)
              && forall i :: 0 <= i < result.failure.value.index ==> Clean(ResultOf(executions[i]), tests[i].expected)
    ensures compileExit != 0 ==> result.verdict == CompilationError && result.failure.None?
  {
    var blank := Trial(R.FailedResult(RunnerFailure, Created, false), InternalError);
    var trials := (i: nat) => if i < |executions| && i < |unassigned| then Trial(ResultOf(executions[i]), unassigned[i]) else blank;
    var ran;
    result, ran := EvaluateSubmission(compileExit, tests, trials);
    if compileExit == 0 {
      forall i | 0 <= i < |executions|
        ensures VerdictOf(tests, trials, i) == Accepted <==> Clean(ResultOf(executions[i]), tests[i].expected)
        ensures VerdictOf(tests, trials, i) == Accepted ==> Sound(executions[i], tests[i].expected)
      {
        assert trials(i) == Trial(ResultOf(executions[i]), unassigned[i]);
        VerdictAssigned(ResultOf(executions[i]), tests[i].expected);
        if VerdictOf(tests, trials, i) == Accepted {
          AcceptedExecution(executions[i], tests[i].expected, unassigned[i]);
        }
      }
    }
  }

  /** The judge's view of how the submission itself ended. */
  function VerdictOfEnding(ending: Ending, late: bool, right: bool, unassigned: Verdict): Verdict {
    match ending
    case Exited(code) => if code != 0 then RuntimeError else if right then Accepted else WrongAnswer
    case Killed(signal) => if late || signal == 24 then TimeLimitExceeded else if signal == 11 then RuntimeError else unassigned
    case Other => RuntimeError
  }

  /**
   * When B's status got through, the verdict is decided by how B ended, whether the deadline had
   * passed, and the captured output.
   */
  lemma VerdictFollowsSubmission(x: Execution, expected: seq<Byte>, unassigned: Verdict)
    requires Executed(x) && x.Ran? && R.IsOk(ResultOf(x).status) && (x.end.mirrored || x.end.s.forwarded.Some?)
    ensures x.end.b.Over? && Valid(x.end.b.ws)
    ensures Evaluate(ResultOf(x), expected, unassigned) ==
            VerdictOfEnding(Decode(x.end.b.ws), ResultOf(x).wallTimeLimitExceeded, ResultOf(x).stdout == expected, unassigned)
  {
    RunKeepsInv(x.run, x.end);
    StatusIsFaithful(x.run, x.end);
    DecodeMeaning(x.end.b.ws, 0);
    CompletionIsSafe(x.run, x.end);
  }

  /** The wall limit alone does not decide: a run past its deadline can still be accepted. */
  lemma TimedOutCanBeAccepted() returns (x: Execution)
    ensures Executed(x) && ResultOf(x).status == ExecutionStatus.TimedOut && ResultOf(x).wallTimeLimitExceeded
    ensures forall u :: Evaluate(ResultOf(x), [104], u) == Accepted
  {
    var run, st, _ := RunExamples.DeadlineCanBeOutlived(Tolerated);
    x := Ran(run, st);
  }

  /** A timed-out run is judged TimeLimitExceeded exactly when it was ended by a signal. */
  lemma TimedOutVerdict(x: Execution, expected: seq<Byte>, unassigned: Verdict)
    requires Executed(x) && ResultOf(x).status == ExecutionStatus.TimedOut
    ensures Evaluate(ResultOf(x), expected, unassigned) == TimeLimitExceeded <==> ResultOf(x).terminatedBySignal
  {
    var r := RunnerRun(x);
    R.RunnerDiscipline(r, RunnerOf(x));
  }

  /** A kill that is written while the submission is running makes it TimeLimitExceeded. */
  lemma WrittenKillIsTimeLimit(x: Execution, i: nat, expected: seq<Byte>, unassigned: Verdict)
    requires Executed(x) && x.Ran? && R.IsOk(ResultOf(x).status) && StrikesAt(x.run, i) && Unended(x.run.states[i])
    ensures Evaluate(ResultOf(x), expected, unassigned) == TimeLimitExceeded
  {
    WrittenKillDecides(x.run, x.end, i);
  }

  /** A run past its deadline that is judged anything but TimeLimitExceeded. */
  ghost predicate Spared(x: Execution, expected: seq<Byte>, unassigned: Verdict) {
    && Executed(x) && ResultOf(x).status == ExecutionStatus.TimedOut
    && Evaluate(ResultOf(x), expected, unassigned) != TimeLimitExceeded
  }

  /** Every such run had a way out: Terminate was not handled, or no kill was written while A and B were running. */
  lemma SparedHadWayOut(x: Execution, expected: seq<Byte>, unassigned: Verdict)
    requires Spared(x, expected, unassigned)
    ensures x.Ran? && exists handling, running :: Handling(x.run, handling, running)
    ensures forall handling, running :: Handling(x.run, handling, running) ==> WayOut(handling, running)
  {
    TimedOutVerdict(x, expected, unassigned);
    if x.Unforked? {
      UnforkedIsRuntimeError(x, expected, unassigned);
      assert false;
    }
    OutlivedHadWayOut(x.run, x.end);
  }

  /** And every way out is taken by some such run, whatever is expected. */
  lemma DeadlineVerdict(handling: Option<Kill>, running: bool, expected: seq<Byte>, unassigned: Verdict)
    ensures (exists x :: Spared(x, expected, unassigned) && x.Ran? && Handling(x.run, handling, running)) <==> WayOut(handling, running)
  {
    if x :| Spared(x, expected, unassigned) && x.Ran? && Handling(x.run, handling, running) {
      SparedHadWayOut(x, expected, unassigned);
    }
    if WayOut(handling, running) {
      RunExamples.OutlivingCondition(handling, running);
      var run, st :| RunExamples.Outlives(run, st, handling, running);
      var x := Ran(run, st);
      var r := RunnerRun(x);
      R.RunnerDiscipline(r, st.r);
      TimedOutVerdict(x, expected, unassigned);
      assert Spared(x, expected, unassigned);
    }
  }
}
