/**
 * Runs that show what the protocol does not promise: captured output may be short, a failed setup
 * may look like a submission that exited with 1, a submission may outlive its deadline or, when
 * the cgroup was given up, even the run, and a result may not be finished.
 */
module RunExamples {
  import opened Results
  import opened WaitStatuses
  import opened SandboxCgroup
  import opened RunSystem
  import R = RunnerProtocol
  import S = SupervisorProtocol

  predicate Extends(run: Run, run': Run) {
    run.actions <= run'.actions && run.states <= run'.states
  }

  lemma ExtendsOn(a: Run, b: Run, c: Run)
    requires Extends(a, b) && Extends(b, c)
    ensures Extends(a, c)
  {
  }

  lemma Then(run: Run, st: System, act: Action) returns (run': Run, st': System)
    requires Accepts(run, st) && Enabled(st, act)
    ensures Accepts(run', st') && st' == Next(st, act) && Extends(run, run')
    ensures run'.actions == run.actions + [act]
  {
    st' := Next(st, act);
    run' := Run(run.actions + [act], run.states + [st']);
    forall i: nat | i < |run'.actions| ensures StepAt(run', i) {
      if i < |run.actions| { assert StepAt(run, i); }
    }
  }

  lemma RunnerThen(run: Run, st: System, e: R.Event) returns (run': Run, st': System)
    requires Accepts(run, st) && R.Enabled(st.r, e) && RunnerCan(st, e)
    ensures Accepts(run', st') && st' == RunnerStep(st, e) && Extends(run, run')
    ensures run'.actions == run.actions + [RunnerDoes(e)]
  {
    run', st' := Then(run, st, RunnerDoes(e));
  }

  lemma SupervisorThen(run: Run, st: System, e: S.Event) returns (run': Run, st': System)
    requires Accepts(run, st) && S.Enabled(st.s, e) && SupervisorCan(st, e)
    ensures Accepts(run', st') && st' == SupervisorStep(st, e) && Extends(run, run')
    ensures run'.actions == run.actions + [SupervisorDoes(e)]
  {
    run', st' := Then(run, st, SupervisorDoes(e));
  }

  lemma ChildThen(run: Run, st: System, act: Action) returns (run': Run, st': System)
    requires Accepts(run, st) && Enabled(st, act) && ByChildren(act)
    ensures Accepts(run', st') && st' == ChildrenStep(st, act) && Extends(run, run')
  {
    run', st' := Then(run, st, act);
  }

  lemma Nothing() returns (run: Run, st: System)
    ensures Accepts(run, st) && st == INITIAL
  {
    st := INITIAL;
    run := Run([], [st]);
  }

  /**
   * Everything is set up: the runner and the supervisor loop, A waits for B, B prepares; with A in
   * the cgroup, or with the cgroup given up when A was to be attached.
   */
  function Underway(member: bool): System {
    System(
      R.START.(phase := R.Looping, forked := true, ready := true),
      S.START.(phase := S.Watching, hasPath := member,
               history := [S.Forked, S.Attached(member), S.Released, S.SentReady]),
      WaitingForB, Preparing, true, [], [], 0, [], [], true, false, false, false, false, false, Natural)
  }

  /** Ready is on the socket, the gate is open, nobody has gone on yet. */
  function Announced(member: bool): System {
    Underway(member).(r := INITIAL.r, a := AtGate, b := NoB, control := [Whole(Ready)], passed := false)
  }

  /** The child was forked, and perhaps attached, and still waits at the gate. */
  function Waiting(s: S.View): System {
    INITIAL.(s := s, a := AtGate)
  }

  const FORKED := S.START.(phase := S.Attaching, hasPath := true, history := [S.Forked])

  function Attached(member: bool): S.View {
    S.START.(phase := S.Releasing, hasPath := member, history := [S.Forked, S.Attached(member)])
  }

  lemma GetsForked() returns (run: Run)
    ensures Accepts(run, Waiting(FORKED))
  {
    var st;
    run, st := Nothing();
    run, st := SupervisorThen(run, st, S.Prepared(true));
    run, st := SupervisorThen(run, st, S.ForkedChild);
    assert st.s.history == [S.Forked];
  }

  lemma GetsAttached(member: bool) returns (run: Run)
    ensures Accepts(run, Waiting(Attached(member)))
  {
    run := GetsForked();
    var st;
    run, st := SupervisorThen(run, Waiting(FORKED), S.AttachedChild(member));
    assert st.s.history == [S.Forked, S.Attached(member)];
  }

  lemma GetsAnnounced(member: bool) returns (run: Run)
    ensures Accepts(run, Announced(member))
  {
    run := GetsAttached(member);
    var st;
    run, st := SupervisorThen(run, Waiting(Attached(member)), S.ReleasedChild);
    run, st := SupervisorThen(run, st, S.ReadySent);
    assert st.control == [Whole(Ready)];
    assert st.s.history == [S.Forked, S.Attached(member), S.Released, S.SentReady];
  }

  lemma GetsUnderway(member: bool) returns (run: Run)
    ensures Accepts(run, Underway(member))
  {
    run := GetsAnnounced(member);
    var st;
    run, st := RunnerThen(run, Announced(member), R.GotReady);
    assert st.control == [];
    run, st := ChildThen(run, st, GateOpens);
    run, st := ChildThen(run, st, ForksB);
  }

  /** Both loops are at work and nothing is on the control socket. */
  predicate Watched(st: System) {
    st.s.phase.Watching? && st.control == [] && st.r.phase.Looping? && st.r.reaps == 0
  }

  /** B is executing and has written nothing, and everybody waits for it. */
  predicate Quiet(st: System) {
    && Watched(st) && st.a.WaitingForB? && st.b.Executing?
    && st.s.forwarded.None? && st.status == [] && st.output == st.r.stdout == [] && !st.r.stdoutEof
  }

  lemma GetsExecuting(member: bool) returns (run: Run, st: System)
    ensures Accepts(run, st) && Quiet(st) && st == Underway(member).(b := Executing)
  {
    run := GetsUnderway(member);
    run, st := ChildThen(run, Underway(member), BExecutes);
  }

  /** What the end of a run leaves as it is. */
  predicate Same(st: System, st': System) {
    && st'.b == st.b && st'.output == st.output && st'.setupFailed == st.setupFailed && st'.mirrored == st.mirrored
    && st'.groupKilled == st.groupKilled && st'.s.terminateCalls == st.s.terminateCalls
    && st'.s.failureRead == st.s.failureRead && st'.s.forwarded == st.s.forwarded && st'.status == st.status
  }

  /** What will be reported of an A that has ended. */
  function Final(st: System): int
    requires st.a.Ended?
  {
    if st.s.forwarded.Some? then st.s.forwarded.value else st.a.raw
  }

  /** The supervisor reaps A, removes the cgroup or gives it up, and reports. */
  lemma Reports(run: Run, st: System, removed: bool) returns (run': Run, st': System)
    requires Accepts(run, st) && Watched(st) && st.a.Ended? && |st.s.history| == 4
    requires removed ==> st.s.hasPath && !AliveB(st.b)
    ensures Accepts(run', st') && Extends(run, run') && Same(st, st') && st'.r == st.r && !st'.s.hasPath
    ensures st'.control == [Whole(Terminated(Final(st)))] && st'.s.phase.Exited?
    ensures |st'.s.history| == 7 && st'.s.history[5] == S.Cleared(removed)
  {
    var a, b;
    a, st' := ReapsChild(run, st);
    b, st' := ClearsGroup(a, st', removed);
    ExtendsOn(run, a, b);
    run', st' := SupervisorThen(b, st', S.TerminatedSent(Final(st)));
    ExtendsOn(run, b, run');
  }

  lemma ReapsChild(run: Run, st: System) returns (run': Run, st': System)
    requires Accepts(run, st) && st.s.phase.Watching? && st.a.Ended?
    ensures Accepts(run', st') && Extends(run, run')
    ensures st' == st.(a := Gone(st.a.raw), s := st.s.(phase := S.CleaningDone, raw := st.a.raw, history := st.s.history + [S.Reaped(st.a.raw)]))
  {
    run', st' := SupervisorThen(run, st, S.ChildReaped(st.a.raw));
  }

  lemma ClearsGroup(run: Run, st: System, removed: bool) returns (run': Run, st': System)
    requires Accepts(run, st) && st.s.phase.CleaningDone? && (removed ==> st.s.hasPath && !AliveB(st.b))
    ensures Accepts(run', st') && Extends(run, run')
    ensures st' == st.(s := st.s.(phase := S.ReportingDone, hasPath := false, history := st.s.history + [S.Cleared(removed)]))
  {
    run', st' := SupervisorThen(run, st, S.GroupRemoved(removed));
  }

  /** From there the run returns what was reported. */
  lemma Returns(run: Run, st: System, removed: bool) returns (run': Run, st': System)
    requires Accepts(run, st) && Watched(st) && st.a.Ended? && |st.s.history| == 4
    requires removed ==> st.s.hasPath && !AliveB(st.b)
    ensures Accepts(run', st') && Extends(run, run') && Same(st, st') && !st'.s.hasPath
    ensures |st'.s.history| == 7 && st'.s.history[5] == S.Cleared(removed)
    ensures st'.r.phase == R.Returned(R.OkResult(st.r, Final(st)))
  {
    var mid, next, told;
    mid, st' := Reports(run, st, removed);
    next, told := RunnerThen(mid, st', R.GotTerminated(Final(st)));
    ExtendsOn(run, mid, next);
    run', st' := Concludes(next, told);
    ExtendsOn(run, next, run');
  }

  lemma Concludes(run: Run, st: System) returns (run': Run, st': System)
    requires Accepts(run, st) && st.r.phase.TerminatedRead? && st.r.reaps == 0 && st.r.reported.Some? && st.s.phase.Exited?
    ensures Accepts(run', st') && Extends(run, run') && Same(st, st') && st'.s == st.s
    ensures st'.r.phase == R.Returned(R.OkResult(st.r, st.r.reported.value))
  {
    var mid;
    mid, st' := RunnerThen(run, st, R.ReapedSupervisor);
    run', st' := RunnerThen(mid, st', R.ReturnedOk);
    ExtendsOn(run, mid, run');
  }

  /** B is over: A learns of it, forwards it, and ends as B did. */
  lemma ChildEnded(run: Run, st: System) returns (run': Run, st': System)
    requires Accepts(run, st) && st.a.WaitingForB? && st.b.Over? && Valid(st.b.ws) && !st.struck
    ensures Accepts(run', st') && Extends(run, run')
    ensures st' == st.(a := Ended(Mirror(st.b.ws, false)), mirrored := true, status := st.status + [Forward(st.b.ws)])
  {
    var mid, next;
    mid, st' := ChildThen(run, st, AWaits);
    next, st' := ChildThen(mid, st', AForwards(Complete));
    ExtendsOn(run, mid, next);
    run', st' := ChildThen(next, st', AMirrors(false));
    ExtendsOn(run, next, run');
  }

  /**
   * Terminated is handled before the pending output is read: a clean Completed, without the
   * output, although the status was forwarded and read and the cgroup was removed.
   */
  lemma OutputCanBeLost() returns (run: Run, st: System)
    ensures Accepts(run, st) && ReturnedOk(st)
    ensures st.r.phase.result.status == Completed && st.r.phase.result.exitCode == 0
    ensures st.output == [104, 105] && st.r.phase.result.stdout == []
    ensures st.s.forwarded == Some(0) && |st.s.history| == 7 && st.s.history[5] == S.Cleared(true)
  {
    run, st := GetsExecuting(true);
    run, st := ChildThen(run, st, BWrites([104, 105]));
    run, st := ChildThen(run, st, BEnds(0));
    run, st := ChildEnded(run, st);
    run, st := SupervisorThen(run, st, S.StatusForwarded(0));
    run, st := Returns(run, st, true);
  }

  /**
   * B reports a setup failure on the status pipe, but the supervisor reaps A first: the run is
   * Completed with exit code 1, like a submission that returned 1, and the record is never read.
   */
  lemma SetupFailureCanLookCompleted() returns (run: Run, st: System)
    ensures Accepts(run, st) && ReturnedOk(st) && st.setupFailed && !st.s.failureRead && st.status == [RawFailure, Forward(256)]
    ensures st.r.phase.result.status == Completed && st.r.phase.result.exitCode == 1
    ensures |st.s.history| == 7 && st.s.history[5] == S.Cleared(true)
  {
    run, st := GetsBroken();
    run, st := ChildEnded(run, st);
    run, st := Returns(run, st, true);
  }

  /** B's setup failed and the record is in the pipe. */
  lemma GetsBroken() returns (run: Run, st: System)
    ensures Accepts(run, st) && Watched(st) && st.s == Underway(true).s && st.a.WaitingForB? && !st.struck
    ensures st.b == Over(256) && st.setupFailed && st.status == [RawFailure] && !st.r.wallExceeded
  {
    run := GetsUnderway(true);
    run, st := ChildThen(run, Underway(true), BSetupFails(false, Complete));
  }

  /** Trouble in the loop, such as a poll that fails: a failure whose state is still Created. */
  lemma ResultCanBeUnfinished() returns (run: Run, st: System)
    ensures Accepts(run, st) && st.r.phase.Returned? && !IsFinished(st.r.phase.result.state)
  {
    run := GetsUnderway(true);
    run, st := RunnerThen(run, Underway(true), R.Trouble);
    run, st := RunnerThen(run, st, R.ReturnedFailed(RunnerFailure));
  }

  // ---------------------------------------------------------------------------------------
  // A submission that survives the run
  // ---------------------------------------------------------------------------------------

  /** A run that is not a failure returned, and B is alive. */
  ghost predicate Survives(run: Run, st: System, removed: bool, mirrored: bool, forwarded: bool) {
    && Accepts(run, st) && ReturnedOk(st) && AliveB(st.b)
    && |st.s.history| == 7 && st.s.history[5] == S.Cleared(removed)
    && st.mirrored == mirrored && st.s.forwarded.Some? == forwarded
  }

  /**
   * Child A is killed from outside, as when memory runs out, and the removal of the cgroup is
   * denied: the run returns Signaled while the submission is still executing.
   */
  lemma SubmissionCanSurvive() returns (run: Run, st: System)
    ensures Survives(run, st, false, false, false)
    ensures st.r.phase.result.status == ExecutionStatus.Signaled && st.b.Executing?
  {
    run, st := GetsExecuting(true);
    run, st := ChildThen(run, st, KillA(true, SIGKILL));
    run, st := Returns(run, st, false);
  }

  /**
   * The submission can survive exactly when the cgroup was not removed, A did not get to end as
   * B did, and no status of B was forwarded.
   */
  lemma SurvivalCondition(removed: bool, mirrored: bool, forwarded: bool)
    ensures (exists run, st :: Survives(run, st, removed, mirrored, forwarded)) <==> !removed && !mirrored && !forwarded
  {
    if !removed && !mirrored && !forwarded {
      var run, st := SubmissionCanSurvive();
    } else {
      forall run, st ensures !Survives(run, st, removed, mirrored, forwarded) {
        if Survives(run, st, removed, mirrored, forwarded) { CompletionLeavesNothing(run, st); }
      }
    }
  }

  /** Whenever the submission survives, the run can go on so that the returned output is short. */
  lemma SurvivorCanWrite(run: Run, st: System) returns (run': Run, st': System)
    requires Accepts(run, st) && ReturnedOk(st) && AliveB(st.b)
    ensures Accepts(run', st') && Extends(run, run') && st'.r == st.r
    ensures st.r.phase.result.stdout < st'.output
  {
    OutputIsPrefix(run, st);
    var mid;
    mid, st' := Executes(run, st);
    run', st' := ChildThen(mid, st', BWrites([104]));
    ExtendsOn(run, mid, run');
  }

  lemma Executes(run: Run, st: System) returns (run': Run, st': System)
    requires Accepts(run, st) && AliveB(st.b)
    ensures Accepts(run', st') && Extends(run, run') && st' == st.(b := Executing)
  {
    if st.b.Preparing? {
      run', st' := ChildThen(run, st, BExecutes);
    } else {
      run', st' := run, st;
    }
  }

  // ---------------------------------------------------------------------------------------
  // A submission that outlives its deadline
  // ---------------------------------------------------------------------------------------

  /** A run past its deadline returned, without a signal, after Terminate was handled in this way. */
  ghost predicate Outlives(run: Run, st: System, handling: Option<Kill>, running: bool) {
    && Accepts(run, st) && ReturnedOk(st)
    && st.r.phase.result.wallTimeLimitExceeded && !st.r.phase.result.terminatedBySignal
    && Handling(run, handling, running)
  }

  /** Terminate is on its way to the supervisor for the first time. */
  predicate Late(st: System) {
    st.commands == 1 && !st.s.terminationRequested && st.r.wallExceeded && !st.struck && !st.groupKilled && st.s.terminateCalls == 0
  }

  lemma GetsLate(member: bool) returns (run: Run, st: System)
    ensures Accepts(run, st) && Quiet(st) && Late(st) && st.s.hasPath == member && |st.s.history| == 4
    ensures run.actions != [] && run.actions[|run.actions| - 1] == RunnerDoes(R.DeadlineSent)
  {
    run, st := GetsExecuting(member);
    run, st := RunnerThen(run, st, R.DeadlineSent);
  }

  /** The supervisor handles it. */
  lemma Handles(run: Run, st: System, kill: Kill) returns (run': Run, st': System)
    requires Accepts(run, st) && Watched(st) && Late(st) && (kill.NoGroup? <==> !st.s.hasPath) && !kill.KillFailed?
    ensures Accepts(run', st') && Extends(run, run') && run'.actions == run.actions + [SupervisorDoes(S.TerminateHandled(kill))]
    ensures Watched(st') && st'.a == st.a && st'.b == st.b && st'.r == st.r && st'.output == st.output && st'.status == st.status
    ensures st'.s.forwarded == st.s.forwarded && st'.s.history == st.s.history && st'.s.terminateCalls == 1
    ensures st'.struck == st'.groupKilled == kill.GroupKilled?
  {
    run', st' := SupervisorThen(run, st, S.TerminateHandled(kill));
  }

  /** B writes a byte, which is read. */
  lemma Writes(run: Run, st: System) returns (run': Run, st': System)
    requires Accepts(run, st) && Quiet(st)
    ensures Accepts(run', st') && Extends(run, run') && |run'.actions| > |run.actions|
    ensures st' == st.(output := [104], r := st.r.(stdout := [104]))
  {
    var a;
    a, st' := ChildThen(run, st, BWrites([104]));
    run', st' := RunnerThen(a, st', R.GotOutput([104]));
    ExtendsOn(run, a, run');
  }

  /** B exits with 0, and A as well. */
  lemma Ends(run: Run, st: System) returns (run': Run, st': System)
    requires Accepts(run, st) && st.a.WaitingForB? && st.b.Executing? && !st.struck
    ensures Accepts(run', st') && Extends(run, run')
    ensures st' == st.(a := Ended(0), b := Over(0), mirrored := true, status := st.status + [Forward(0)])
  {
    var a;
    a, st' := ChildThen(run, st, BEnds(0));
    run', st' := ChildEnded(a, st');
    ExtendsOn(run, a, run');
  }

  /**
   * The kill at the deadline is denied, or there is no cgroup, which sandbox.terminate reports as
   * success: the submission goes on, writes, exits with 0, and the result is TimedOut with exit
   * code 0 and that output. Step i handles the Terminate that the step before it has sent.
   */
  lemma DeadlineCanBeOutlived(kill: Kill) returns (run: Run, st: System, i: nat)
    requires kill.Tolerated? || kill.NoGroup?
    ensures Outlives(run, st, Some(kill), true)
    ensures st.r.phase.result.status == ExecutionStatus.TimedOut && st.r.phase.result.exitCode == 0 && st.r.phase.result.stdout == [104]
    ensures 0 < i < |run.actions| - 1 && run.actions[i - 1] == RunnerDoes(R.DeadlineSent) && TerminateAt(run, i, kill)
    ensures run.states[i + 1].output == [] && run.states[i + 1].b.Executing?
    ensures !st.groupKilled && st.s.terminateCalls == 1
  {
    var handled, at;
    handled, at, i := GetsHandled(kill);
    run, st := GoesOn(handled, at);
    Carried(handled, run, i);
    Carried(handled, run, i - 1);
    assert TerminateAt(run, i, kill);
  }

  /** Terminate was sent and handled, and nothing was killed. */
  lemma GetsHandled(kill: Kill) returns (run: Run, st: System, i: nat)
    requires kill.Tolerated? || kill.NoGroup?
    ensures Accepts(run, st) && Quiet(st) && !st.struck && !st.groupKilled && |st.s.history| == 4
    ensures st.s.terminateCalls == 1 && st.r.wallExceeded
    ensures 0 < i && |run.actions| == i + 1 && run.states[i + 1] == st && Unended(run.states[i])
    ensures run.actions[i - 1] == RunnerDoes(R.DeadlineSent) && run.actions[i] == SupervisorDoes(S.TerminateHandled(kill))
  {
    var late, at := GetsLate(kill.Tolerated?);
    i := |late.actions|;
    run, st := Handles(late, at, kill);
  }

  /** The submission answers, ends, and the run returns it. */
  lemma GoesOn(run: Run, st: System) returns (run': Run, st': System)
    requires Accepts(run, st) && Quiet(st) && !st.struck && |st.s.history| == 4
    ensures Accepts(run', st') && Extends(run, run') && |run'.actions| > |run.actions|
    ensures st'.r.phase == R.Returned(R.OkResult(st.r.(stdout := [104]), 0))
    ensures st'.groupKilled == st.groupKilled && st'.s.terminateCalls == st.s.terminateCalls
  {
    var written, ended;
    written, st' := Writes(run, st);
    ended, st' := Ends(written, st');
    ExtendsOn(run, written, ended);
    run', st' := Returns(ended, st', false);
    ExtendsOn(run, ended, run');
  }

  /** What a longer run has in common with a shorter one. */
  lemma Carried(run: Run, run': Run, i: nat)
    requires Extends(run, run') && i < |run.actions| < |run.states|
    ensures run'.actions[..i + 1] == run.actions[..i + 1] && run'.states[..i + 2] == run.states[..i + 2]
    ensures run'.actions[i] == run.actions[i] && run'.states[i] == run.states[i] && run'.states[i + 1] == run.states[i + 1]
  {
  }

  /** Whatever the kill does, it may come too late. */
  lemma KillCanComeLate(kill: Kill) returns (run: Run, st: System)
    requires !kill.KillFailed?
    ensures Outlives(run, st, Some(kill), false) && st.r.phase.result.exitCode == 0
  {
    var ended, at := EndsLate(!kill.NoGroup?);
    var i := |ended.actions|;
    run, st := KillsTheDead(ended, at, kill);
    assert run.actions[i] == run.actions[..i + 1][i] && run.states[i] == run.states[..i + 1][i];
    assert TerminateAt(run, i, kill) && !Unended(run.states[i]);
  }

  /**
   * Terminate is sent at the deadline, but the supervisor, which already has reaped A or is about
   * to, never reads it: the run is TimedOut with exit code 0, and the cgroup was removed.
   */
  lemma TerminateCanBeUnread() returns (run: Run, st: System)
    ensures Outlives(run, st, None, true) && Outlives(run, st, None, false)
    ensures st.r.phase.result.status == ExecutionStatus.TimedOut && st.r.phase.result.exitCode == 0
    ensures |st.s.history| == 7 && st.s.history[1] == S.Attached(true) && st.s.history[5] == S.Cleared(true)
  {
    var ended, at := EndsLate(true);
    run, st := Returns(ended, at, true);
    UncalledUnhandled(run, st);
    CompletionLeavesNothing(run, st);
  }

  /** The deadline has passed and the submission ends before anyone acts on it. */
  lemma EndsLate(member: bool) returns (run: Run, st: System)
    ensures Accepts(run, st) && Watched(st) && Late(st) && st.s.hasPath == member
    ensures st.a == Ended(0) && st.b == Over(0) && st.s.forwarded.None? && |st.s.history| == 4
  {
    run, st := GetsLate(member);
    run, st := Ends(run, st);
  }

  lemma KillsTheDead(run: Run, st: System, kill: Kill) returns (run': Run, st': System)
    requires Accepts(run, st) && Watched(st) && Late(st) && (kill.NoGroup? <==> !st.s.hasPath) && !kill.KillFailed?
    requires st.a == Ended(0) && st.s.forwarded.None? && |st.s.history| == 4
    ensures Accepts(run', st') && st'.r.phase == R.Returned(R.OkResult(st.r, 0))
    ensures |run'.actions| > |run.actions| && run'.actions[..|run.actions| + 1] == run.actions + [SupervisorDoes(S.TerminateHandled(kill))]
    ensures run'.states[..|run.actions| + 1] == run.states
  {
    var handled;
    handled, st' := Handles(run, st, kill);
    run', st' := Returns(handled, st', false);
    Carried(handled, run', |run.actions|);
  }

  /**
   * A run past its deadline can return without a signal exactly when Terminate was not handled,
   * or the kill did not fail and was not written while neither A nor B had ended.
   */
  lemma OutlivingCondition(handling: Option<Kill>, running: bool)
    ensures (exists run, st :: Outlives(run, st, handling, running)) <==> WayOut(handling, running)
  {
    if !WayOut(handling, running) {
      forall run, st ensures !Outlives(run, st, handling, running) {
        if Outlives(run, st, handling, running) { OutlivedHadWayOut(run, st); }
      }
    } else if handling.None? {
      var run, st := TerminateCanBeUnread();
    } else if running {
      var run, st, _ := DeadlineCanBeOutlived(handling.value);
    } else {
      var run, st := KillCanComeLate(handling.value);
    }
  }
}
