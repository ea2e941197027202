/**
 * The supervisor half of ProcessRunner::run and the parent half of createExecutionProcess, as the
 * order in which it may act on its child, the cgroup and the control socket. Supervisor.dfy
 * shows that the code keeps to this order; RunSystem.dfy composes it with the other processes.
 */
module SupervisorProtocol {
  import opened Results
  import opened SandboxCgroup

  datatype Phase =
    | Preparing | Spawning | Attaching | Releasing | Aborting(reaped: bool)
    | Announcing | Watching
    | ReapingFailed | CleaningFailed | ReportingFailed   // a setup failure was read from the status pipe
    | CleaningDone | ReportingDone                       // the submission ended
    | GivingUp(terminated: bool) | Leaving               // cleanup_supervisor_failure
    | Exited

  /**
   * What the supervisor has irrevocably done, oldest first. The path is cleared because rmdir
   * removed the cgroup, or because there was none (any more) that this process could manage.
   */
  datatype Mark =
    | Forked | Attached(member: bool) | Released | SentReady
    | Reaped(raw: int) | Cleared(removed: bool) | SentFailed | SentTerminated(waitStatus: int)

  datatype View = View(
    phase: Phase,
    hasPath: bool,
    forwarded: Option<int>,
    raw: int,
    terminationRequested: bool,
    terminateCalls: nat,
    stuck: bool,
    failureRead: bool,
    reported: bool,
    history: seq<Mark>)

  const START := View(Preparing, false, None, 0, false, 0, false, false, false, [])

  /** has_forwarded_status ? forwarded_child_status : status */
  function FinalStatus(v: View): int {
    if v.forwarded.Some? then v.forwarded.value else v.raw
  }

  datatype Event =
    | Prepared(grouped: bool)
    | PrepareFailed(sent: bool, grouped: bool)
    | SpawnFailed(cleaned: bool)
    | ForkedChild
    | AttachedChild(member: bool)
    | AttachFailed
    | ReleasedChild
    | ReleaseFailed
    | AbortDone(cleaned: bool)
    | ReadySent
    | ReadyLost
    | TerminateHandled(kill: Kill)
    | TerminateRepeated
    | StatusForwarded(waitStatus: int)
    | StatusFailure
    | StatusEof
    | Fault
    | ChildReaped(raw: int)
    | GroupRemoved(removed: bool)
    | GroupStuck
    | TerminatedSent(waitStatus: int)
    | TerminatedLost
    | FailureSent
    | FailureLost
    | LastTerminate(kill: Kill)
    | Exit

  predicate Enabled(v: View, e: Event) {
    match e
    case Prepared(_) => v.phase.Preparing?
    case PrepareFailed(_, _) => v.phase.Preparing?
    case SpawnFailed(cleaned) => v.phase.Spawning? && (!v.hasPath ==> cleaned)
    case ForkedChild => v.phase.Spawning?
    case AttachedChild(member) => v.phase.Attaching? && (member ==> v.hasPath)
    case AttachFailed => v.phase.Attaching?
    case ReleasedChild => v.phase.Releasing?
    case ReleaseFailed => v.phase.Releasing?
    case AbortDone(cleaned) => v.phase.Aborting? && (!v.hasPath ==> cleaned)
    case ReadySent => v.phase.Announcing?
    case ReadyLost => v.phase.Announcing?
    case TerminateHandled(kill) => v.phase.Watching? && !v.terminationRequested && (kill.NoGroup? <==> !v.hasPath)
    case TerminateRepeated => v.phase.Watching? && v.terminationRequested
    case StatusForwarded(_) => v.phase.Watching?
    case StatusFailure => v.phase.Watching?
    case StatusEof => v.phase.Watching?
    case Fault => v.phase.Watching? || v.phase.ReapingFailed?
    case ChildReaped(_) => Reapable(v)
    case GroupRemoved(removed) => (v.phase.CleaningDone? || v.phase.CleaningFailed?) && (removed ==> v.hasPath)
    case GroupStuck => (v.phase.CleaningDone? || v.phase.CleaningFailed?) && v.hasPath
    case TerminatedSent(ws) => v.phase.ReportingDone? && ws == FinalStatus(v)
    case TerminatedLost => v.phase.ReportingDone?
    case FailureSent => v.phase.ReportingFailed?
    case FailureLost => v.phase.ReportingFailed?
    case LastTerminate(kill) => v.phase.GivingUp? && !v.phase.terminated && (kill.NoGroup? <==> !v.hasPath)
    case Exit => v.phase.Leaving? || (v.phase.GivingUp? && v.phase.terminated)
  }

  function PhaseAfter(v: View, e: Event): Phase {
    match e
    case Prepared(_) => Spawning
    case ForkedChild => Attaching
    case AttachedChild(_) => Releasing
    case AttachFailed => Aborting(false)
    case ReleasedChild => Announcing
    case ReleaseFailed => Aborting(false)
    case ReadySent => Watching
    case ReadyLost => GivingUp(false)
    case TerminateHandled(kill) => if kill.KillFailed? then GivingUp(true) else v.phase
    case StatusFailure => ReapingFailed
    case Fault => GivingUp(v.terminationRequested)
    case ChildReaped(_) =>
      if v.phase.Watching? then CleaningDone
      else if v.phase.ReapingFailed? then CleaningFailed
      else if v.phase.GivingUp? then Leaving
      else Aborting(true)
    case GroupRemoved(_) => if v.phase.CleaningDone? then ReportingDone else ReportingFailed
    case LastTerminate(_) => GivingUp(true)
    case _ => if e.TerminateRepeated? || e.StatusForwarded? || e.StatusEof? then v.phase else Exited
  }

  function PathAfter(v: View, e: Event): bool {
    match e
    case Prepared(grouped) => grouped
    case PrepareFailed(_, grouped) => grouped
    case AttachedChild(member) => member
    case SpawnFailed(cleaned) => v.hasPath && !cleaned
    case AbortDone(cleaned) => v.hasPath && !cleaned
    case TerminateHandled(kill) => v.hasPath && !kill.Tolerated?
    case LastTerminate(kill) => v.hasPath && !kill.Tolerated?
    case _ => v.hasPath && !e.GroupRemoved?
  }

  /** The mark this event leaves, if any. */
  function MarkOf(e: Event): Option<Mark> {
    match e
    case PrepareFailed(sent, _) => if sent then Some(SentFailed) else None
    case ForkedChild => Some(Forked)
    case AttachedChild(member) => Some(Attached(member))
    case ReleasedChild => Some(Released)
    case ReadySent => Some(SentReady)
    case ChildReaped(raw) => Some(Reaped(raw))
    case GroupRemoved(removed) => Some(Cleared(removed))
    case TerminatedSent(ws) => Some(SentTerminated(ws))
    case _ => if e.FailureSent? then Some(SentFailed) else None
  }

  function Next(v: View, e: Event): View
    requires Enabled(v, e)
  {
    View(
      PhaseAfter(v, e),
      PathAfter(v, e),
      if e.StatusForwarded? then Some(e.waitStatus) else v.forwarded,
      if e.ChildReaped? then e.raw else v.raw,
      v.terminationRequested || (e.TerminateHandled? && !e.kill.KillFailed?),
      if e.TerminateHandled? || e.LastTerminate? then v.terminateCalls + 1 else v.terminateCalls,
      v.stuck || e.GroupStuck?,
      v.failureRead || e.StatusFailure?,
      v.reported || e.TerminatedSent?,
      if MarkOf(e).Some? then v.history + [MarkOf(e).value] else v.history)
  }

  /** The child can be waited for. */
  predicate Reapable(v: View) {
    || v.phase.Watching? || v.phase.ReapingFailed?
    || (v.phase.Aborting? && !v.phase.reaped) || (v.phase.GivingUp? && v.phase.terminated)
  }

  function AfterReap(v: View, raw: int): View {
    v.(phase := PhaseAfter(v, ChildReaped(raw)), raw := raw, history := v.history + [Reaped(raw)])
  }

  lemma ReapNext(v: View, raw: int)
    requires Reapable(v)
    ensures Enabled(v, ChildReaped(raw)) && Next(v, ChildReaped(raw)) == AfterReap(v, raw)
  {
  }

  predicate Lawful(h: seq<Mark>) {
    || h == []
    || (|h| == 1 && h[0].SentFailed?)
    || (&& h[0].Forked? && |h| <= 7
        && (|h| >= 2 ==> h[1].Attached? || (h[1].Reaped? && |h| == 2))
        && (|h| >= 3 ==> h[2].Released? || (h[2].Reaped? && |h| == 3))
        && (|h| >= 4 ==> h[3].SentReady? || (h[3].Reaped? && |h| == 4))
        && (|h| >= 5 ==> h[4].Reaped?)
        && (|h| >= 6 ==> h[5].Cleared?)
        && (|h| >= 7 ==> h[6].SentTerminated? || h[6].SentFailed?))
  }

  predicate Unreaped(h: seq<Mark>) {
    h != [] && Lawful(h) && |h| <= 4 && !h[|h| - 1].Reaped? && !h[0].SentFailed?
  }

  predicate Quiet(v: View) {
    v.terminateCalls == 0 && !v.terminationRequested && !v.failureRead
  }

  predicate Inv(v: View) {
    var h := v.history;
    && Lawful(h)
    && v.terminateCalls <= 1
    && (|h| == 7 ==> v.phase.Exited? && !v.hasPath)
    && (v.stuck ==> v.phase.Exited? && v.hasPath)
    && (v.reported <==> |h| == 7 && h[6].SentTerminated?)
    && (v.reported ==> h[6] == SentTerminated(FinalStatus(v)) && h[4] == Reaped(v.raw))
    && (v.reported ==> !v.stuck && !v.failureRead)
    && (|h| == 7 && h[6].SentFailed? ==> v.failureRead)
    && (|h| >= 2 && h[1] == Attached(false) ==> !v.hasPath)
    && (|h| >= 6 && h[5] == Cleared(true) ==> h[1] == Attached(true))
    && match v.phase
       case Preparing => v == START
       case Spawning => h == [] && Quiet(v)
       case Attaching => h == [Forked] && Quiet(v)
       case Releasing => |h| == 2 && h[1] == Attached(v.hasPath) && Quiet(v)
       case Aborting(reaped) => 1 <= |h| <= 3 && h[0].Forked? && !h[|h| - 1].Released? && (h[|h| - 1].Reaped? <==> reaped) && (!reaped ==> |h| <= 2) && Quiet(v)
       case Announcing => |h| == 3 && h[2].Released? && Quiet(v)
       case Watching => |h| == 4 && h[3].SentReady? && !v.failureRead && v.terminateCalls == (if v.terminationRequested then 1 else 0)
       case ReapingFailed => v.failureRead && |h| == 4 && h[3].SentReady? && v.terminateCalls == (if v.terminationRequested then 1 else 0)
       case CleaningFailed => v.failureRead && |h| == 5 && h[4] == Reaped(v.raw)
       case ReportingFailed => v.failureRead && |h| == 6 && h[4] == Reaped(v.raw) && !v.hasPath
       case CleaningDone => |h| == 5 && !v.failureRead && h[4] == Reaped(v.raw)
       case ReportingDone => |h| == 6 && !v.failureRead && h[4] == Reaped(v.raw) && !v.hasPath
       case GivingUp(terminated) => |h| >= 3 && Unreaped(h) && (!terminated ==> v.terminateCalls == 0)
       case Leaving => |h| == 4 || |h| == 5
       case Exited => true
  }

  predicate Early(p: Phase) {
    p.Preparing? || p.Spawning? || p.Attaching? || p.Releasing? || p.Aborting? || p.Announcing?
  }

  lemma EarlyStepKeepsInv(v: View, e: Event)
    requires Inv(v) && Enabled(v, e) && Early(v.phase)
    ensures Inv(Next(v, e))
  {
  }

  lemma WatchingStepKeepsInv(v: View, e: Event)
    requires Inv(v) && Enabled(v, e) && (v.phase.Watching? || v.phase.ReapingFailed?)
    ensures Inv(Next(v, e))
  {
  }

  lemma LateStepKeepsInv(v: View, e: Event)
    requires Inv(v) && Enabled(v, e) && !Early(v.phase) && !v.phase.Watching? && !v.phase.ReapingFailed?
    ensures Inv(Next(v, e))
  {
  }

  lemma StepKeepsInv(v: View, e: Event)
    requires Inv(v) && Enabled(v, e)
    ensures Inv(Next(v, e))
  {
    if Early(v.phase) {
      EarlyStepKeepsInv(v, e);
    } else if v.phase.Watching? || v.phase.ReapingFailed? {
      WatchingStepKeepsInv(v, e);
    } else {
      LateStepKeepsInv(v, e);
    }
  }

  /** A run: the events, and the views before, between and after them. */
  datatype Run = Run(events: seq<Event>, views: seq<View>)

  predicate IsStep(v: View, e: Event, v': View) {
    Enabled(v, e) && v' == Next(v, e)
  }

  predicate StepAt(r: Run, i: nat)
    requires i < |r.events| < |r.views|
  {
    IsStep(r.views[i], r.events[i], r.views[i + 1])
  }

  ghost predicate Accepts(r: Run, v: View) {
    && |r.views| == |r.events| + 1 && r.views[0] == START && r.views[|r.events|] == v
    && forall i: nat :: i < |r.events| ==> StepAt(r, i)
  }

  /** Without its last event, a run is a run. */
  lemma Before(r: Run, v: View) returns (before: Run, u: View)
    requires Accepts(r, v) && r.events != []
    ensures var n := |r.events| - 1;
            before == Run(r.events[..n], r.views[..n + 1]) && u == r.views[n] && Accepts(before, u) && IsStep(u, r.events[n], v)
  {
    var n := |r.events| - 1;
    before, u := Run(r.events[..n], r.views[..n + 1]), r.views[n];
    assert StepAt(r, n);
    forall i: nat | i < n ensures StepAt(before, i) {
      assert StepAt(r, i);
    }
  }

  const EMPTY := Run([], [START])

  function Record(r: Run, e: Event, v: View): Run {
    Run(r.events + [e], r.views + [v])
  }

  lemma AcceptsStep(r: Run, v: View, e: Event)
    requires Accepts(r, v) && Enabled(v, e)
    ensures Accepts(Record(r, e, Next(v, e)), Next(v, e))
  {
    var r' := Record(r, e, Next(v, e));
    forall i: nat | i < |r'.events| ensures StepAt(r', i) {
      if i < |r.events| { assert StepAt(r, i); }
    }
  }

  lemma {:induction false} AcceptedInv(r: Run, v: View)
    requires Accepts(r, v)
    ensures Inv(v)
    decreases |r.events|
  {
    if r.events != [] {
      var before, u := Before(r, v);
      AcceptedInv(before, u);
      StepKeepsInv(u, r.events[|r.events| - 1]);
    }
  }

  predicate IsMessage(m: Mark) {
    m.SentReady? || m.SentFailed? || m.SentTerminated?
  }

  function Messages(h: seq<Mark>): seq<Mark> {
    if h == [] then []
    else if IsMessage(h[|h| - 1]) then Messages(h[..|h| - 1]) + [h[|h| - 1]]
    else Messages(h[..|h| - 1])
  }

  /** What a lawful history says on the control socket, position by position. */
  lemma MessagesOfLawful(h: seq<Mark>)
    requires Lawful(h)
    ensures Messages(h) ==
            if h == [] then []
            else if h[0].SentFailed? then [SentFailed]
            else if |h| < 4 || h[3].Reaped? then []
            else if |h| < 7 then [SentReady]
            else [SentReady, h[6]]
  {
    if h == [] || h[0].SentFailed? {
      if h != [] { assert h[..0] == []; }
    } else if |h| == 1 {
      assert h[..0] == [];
    } else {
      MessagesOfLawful(h[..|h| - 1]);
    }
  }

  predicate MessageShape(h: seq<Mark>) {
    var ms := Messages(h);
    || ms == [] || ms == [SentFailed] || ms == [SentReady]
    || (|ms| == 2 && ms[0] == SentReady && (ms[1] == SentFailed || ms[1].SentTerminated?))
  }

  /** A message after Ready comes after the reap, and that before the cleanup, of the submission. */
  predicate LastMessageLate(h: seq<Mark>) {
    |Messages(h)| == 2 ==> |h| == 7 && h[4].Reaped? && h[5].Cleared? && h[6] == Messages(h)[1]
  }

  /** Ready comes after the child was attached and then released. */
  predicate ReadyAfterGate(h: seq<Mark>) {
    SentReady in h ==> |h| >= 4 && h[0].Forked? && h[1].Attached? && h[2].Released? && h[3].SentReady?
  }

  lemma LawfulDiscipline(h: seq<Mark>)
    requires Lawful(h)
    ensures MessageShape(h) && LastMessageLate(h)
  {
    MessagesOfLawful(h);
  }

  lemma LawfulGate(h: seq<Mark>)
    requires Lawful(h)
    ensures ReadyAfterGate(h)
  {
    if SentReady in h {
      var i :| 0 <= i < |h| && h[i] == SentReady;
      assert i == 3;
    }
  }

  /**
   * In every run the supervisor's messages are nothing, [SetupFailed], [Ready],
   * [Ready, SetupFailed] or [Ready, Terminated]; one after Ready is sent only once the submission
   * is reaped and the cgroup path is cleared; sandbox.terminate is called at most once.
   */
  lemma SupervisorDiscipline(r: Run, v: View)
    requires Accepts(r, v)
    ensures MessageShape(v.history) && LastMessageLate(v.history) && ReadyAfterGate(v.history)
    ensures |Messages(v.history)| == 2 ==> !v.hasPath
    ensures v.terminateCalls <= 1
  {
    AcceptedInv(r, v);
    LawfulDiscipline(v.history);
    LawfulGate(v.history);
  }

  /**
   * Which of the two last messages is sent: SetupFailed exactly when a failure record was read
   * from the status pipe before the child was found to have ended, and Terminated otherwise.
   */
  lemma LastMessageDecided(r: Run, v: View)
    requires Accepts(r, v) && |Messages(v.history)| == 2
    ensures Messages(v.history)[1] == SentFailed <==> v.failureRead
    ensures Messages(v.history)[1] == SentTerminated(FinalStatus(v)) <==> !v.failureRead
  {
    AcceptedInv(r, v);
    MessagesOfLawful(v.history);
  }

  /**
   * A child that was not attached or not released never gets a sync byte: its history has no
   * Released, and ends with its reap if the wait for it succeeded.
   */
  lemma AbortedUnreleased(r: Run, v: View)
    requires Accepts(r, v) && v.phase.Aborting?
    ensures Released !in v.history && Messages(v.history) == [] && v.history != []
    ensures v.phase.reaped <==> v.history[|v.history| - 1].Reaped?
  {
    AcceptedInv(r, v);
    MessagesOfLawful(v.history);
  }
}
