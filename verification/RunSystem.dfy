/**
 * One execution: the runner, the supervisor, child A (which the supervisor forks) and child B
 * (which A forks and which becomes the submission), stepping in any order and connected by the
 * control socket, the sync pipe, the status pipe, stdout and stderr. Runner and supervisor move as
 * RunnerProtocol and SupervisorProtocol allow; the system starts right after the runner's fork.
 *
 * Frames and records are whole or torn, as Wire and StatusPipe show, and so is a frame that child
 * A writes on the control socket itself; frames of two writers do not interleave.
 */
module RunSystem {
  import opened Bytes
  import opened Results
  import opened WaitStatuses
  import opened SandboxCgroup
  import R = RunnerProtocol
  import S = SupervisorProtocol

  datatype ChildA =
    | NoA | AtGate | SettingUp | WaitingForB | HasStatus(ws: int) | Forwarded(ws: int)
    | Ended(raw: int) | Gone(raw: int)   // a zombie, and a reaped one

  datatype ChildB = NoB | Preparing | Executing | Over(ws: int)

  datatype Message = Ready | SetupFailed | Terminated(ws: int)
  datatype Item = Whole(message: Message) | TornFrame
  datatype Record = Forward(ws: int) | RawFailure | FramedFailure | TornFrameRecord | TornRecord
  datatype Report = Unsent | Partial | Complete

  /** Why child A ended, if not by its own code. */
  datatype Cause = Natural | ByOutside | ByGroup | BySupervisor

  /**
   * `gate`: the sync byte was written. `commands`: Terminates on their way to the supervisor.
   * `output`, `errors`: all that was ever written to stdout and to stderr. The rest is history:
   * whether A passed the gate, somebody went to kill the cgroup, the supervisor's kill of it was
   * written, a setup step failed, A itself wrote to the control socket, A ended after and as B did.
   */
  datatype System = System(
    r: R.View, s: S.View, a: ChildA, b: ChildB,
    gate: bool, status: seq<Record>, control: seq<Item>, commands: nat, output: seq<Byte>, errors: seq<Byte>,
    passed: bool, groupKilled: bool, struck: bool, setupFailed: bool, aSpoke: bool, mirrored: bool, cause: Cause)

  const INITIAL := System(
    R.START.(phase := R.AwaitingReady, forked := true), S.START, NoA, NoB,
    false, [], [], 0, [], [], false, false, false, false, false, false, Natural)

  datatype Action =
    | RunnerDoes(re: R.Event)
    | SupervisorDoes(se: S.Event)
    | SupervisorKillsChild
    | SupervisorDies
    | GateOpens | GateFails
    | SetupFails(onControl: bool, report: Report)
    | ForksB
    | BSetupFails(framed: bool, report: Report)
    | BExecutes | BWrites(data: seq<Byte>) | BComplains(data: seq<Byte>) | BEnds(ws: int)
    | AWaits | AWaitFails | AForwards(report: Report) | AMirrors(core: bool)
    | KillA(outside: bool, raw: int) | KillB(outside: bool, raw: int)

  predicate AliveA(a: ChildA) {
    a.AtGate? || a.SettingUp? || a.WaitingForB? || a.HasStatus? || a.Forwarded?
  }

  predicate AliveB(b: ChildB) { b.Preparing? || b.Executing? }

  predicate Head<T(==)>(q: seq<T>, x: T) { q != [] && q[0] == x }

  /** Nobody holds the writing ends of stdout and stderr any more; the runner itself closed its own at Ready. */
  predicate NoWriters(st: System) {
    st.s.phase.Exited? && !AliveA(st.a) && !AliveB(st.b)
  }

  /** What the rest of the system must offer for the runner to make this step. */
  predicate RunnerCan(st: System, e: R.Event) {
    match e
    case NotForked => false
    case Forked => false
    case GotReady => Head(st.control, Whole(Ready))
    case GotEarlyFailure => Head(st.control, Whole(SetupFailed))
    case GotFailure => Head(st.control, Whole(SetupFailed))
    case GotTerminated(ws) => Head(st.control, Whole(Terminated(ws)))
    case GotOutput(data) => st.r.stdout + data <= st.output
    case OutputEof => st.r.stdout == st.output && NoWriters(st)
    case GotErrors(data) => st.r.stderr + data <= st.errors
    case ErrorsEof => st.r.stderr == st.errors && NoWriters(st)
    case ReapedSupervisor => st.s.phase.Exited?
    case _ => true
  }

  predicate Reads(e: R.Event) {
    e.GotReady? || e.GotEarlyFailure? || e.GotFailure? || e.GotTerminated?
  }

  function RunnerStep(st: System, e: R.Event): System
    requires R.Enabled(st.r, e) && RunnerCan(st, e)
  {
    st.(r := R.Next(st.r, e),
        s := if e.KilledSupervisor? then Died(st.s) else st.s,
        control := if Reads(e) then st.control[1..] else st.control,
        commands := if e.DeadlineSent? || e.CleanupTerminate? then st.commands + 1 else st.commands,
        groupKilled := st.groupKilled || e.KilledGroup?)
  }

  function Died(s: S.View): S.View { s.(phase := S.Exited) }

  /** A frame torn behind its header reads as a failure too (StatusPipe.TornFailureMisread); other torn records never do. */
  predicate ReadsAsFailure(record: Record) {
    record.RawFailure? || record.FramedFailure? || record.TornFrameRecord?
  }

  predicate SupervisorCan(st: System, e: S.Event) {
    match e
    case TerminateHandled(_) => st.commands > 0
    case TerminateRepeated => st.commands > 0
    case StatusForwarded(ws) => Head(st.status, Forward(ws))
    case StatusFailure => st.status != [] && ReadsAsFailure(st.status[0])
    case StatusEof => st.status == []
    case ChildReaped(raw) => st.a == Ended(raw)
    case GroupRemoved(removed) => removed ==> !AliveB(st.b)   // rmdir of a populated cgroup fails
    case _ => true
  }

  /** What this step puts on the control socket, if anything. */
  function Says(e: S.Event): Option<Item> {
    match e
    case PrepareFailed(sent, _) => Some(if sent then Whole(SetupFailed) else TornFrame)
    case ReadySent => Some(Whole(Ready))
    case TerminatedSent(ws) => Some(Whole(Terminated(ws)))
    case FailureSent => Some(Whole(SetupFailed))
    case _ => if e.ReadyLost? || e.TerminatedLost? || e.FailureLost? then Some(TornFrame) else None
  }

  predicate KillsGroup(e: S.Event) {
    (e.TerminateHandled? || e.LastTerminate?) && e.kill.GroupKilled?
  }

  function SupervisorStep(st: System, e: S.Event): System
    requires S.Enabled(st.s, e) && SupervisorCan(st, e)
  {
    st.(s := S.Next(st.s, e),
        a := if e.ForkedChild? then AtGate else if e.ChildReaped? then Gone(e.raw) else st.a,
        gate := st.gate || e.ReleasedChild?,
        status := if e.StatusForwarded? || e.StatusFailure? then st.status[1..] else st.status,
        control := if Says(e).Some? then st.control + [Says(e).value] else st.control,
        commands := if e.TerminateHandled? || e.TerminateRepeated? then st.commands - 1 else st.commands,
        groupKilled := st.groupKilled || KillsGroup(e),
        struck := st.struck || KillsGroup(e))
  }

  function Reported(q: seq<Record>, record: Record, report: Report): seq<Record> {
    match report
    case Unsent => q
    case Partial => q + [if record.FramedFailure? then TornFrameRecord else TornRecord]
    case Complete => q + [record]
  }

  /** Anyone outside may send any signal; the cgroup's death is a SIGKILL. */
  predicate Kills(st: System, outside: bool, raw: int) {
    if outside then Valid(raw) && IfSignaled(raw) else st.groupKilled && raw == SIGKILL
  }

  /**
   * A and B are members of the cgroup whenever the supervisor can kill it. Once that kill is
   * written each of them has a SIGKILL coming: it may yet finish a read or a write, but it no
   * longer exits, forks or goes on to a next stage by itself.
   */
  predicate Enabled(st: System, act: Action) {
    match act
    case RunnerDoes(e) => R.Enabled(st.r, e) && RunnerCan(st, e)
    case SupervisorDoes(e) => S.Enabled(st.s, e) && SupervisorCan(st, e)
    case SupervisorKillsChild => AliveA(st.a) && (st.s.phase.Aborting? || (st.s.phase.GivingUp? && st.s.phase.terminated))
    case SupervisorDies => !st.s.phase.Exited?
    case GateOpens => st.a.AtGate? && st.gate && !st.struck
    case GateFails => st.a.AtGate? && !st.struck
    case SetupFails(_, _) => st.a.SettingUp? && !st.struck
    case ForksB => st.a.SettingUp? && !st.struck
    case BSetupFails(_, _) => st.b.Preparing? && !st.struck
    case BExecutes => st.b.Preparing?
    case BWrites(_) => st.b.Executing?
    case BComplains(_) => st.b.Executing?
    case BEnds(ws) => st.b.Executing? && Valid(ws) && !st.struck
    case AWaits => st.a.WaitingForB? && st.b.Over?
    case AWaitFails => st.a.WaitingForB? && !st.struck
    case AForwards(_) => st.a.HasStatus?
    case AMirrors(_) => st.a.Forwarded? && Valid(st.a.ws) && !st.struck
    case KillA(outside, raw) => AliveA(st.a) && Kills(st, outside, raw)
    case KillB(outside, raw) => AliveB(st.b) && Kills(st, outside, raw)
  }

  predicate ByChildren(act: Action) {
    !act.RunnerDoes? && !act.SupervisorDoes?
  }

  function AfterA(st: System, act: Action): ChildA
    requires Enabled(st, act) && ByChildren(act)
  {
    match act
    case SupervisorKillsChild => Ended(SIGKILL)
    case GateOpens => SettingUp
    case GateFails => Ended(OfExit(EXIT_FAILURE))
    case SetupFails(_, _) => Ended(OfExit(EXIT_FAILURE))
    case ForksB => WaitingForB
    case AWaits => HasStatus(st.b.ws)
    case AWaitFails => Ended(OfExit(EXIT_FAILURE))
    case AForwards(_) => Forwarded(st.a.ws)
    case AMirrors(core) => Ended(Mirror(st.a.ws, core))
    case KillA(_, raw) => Ended(raw)
    case _ => st.a
  }

  function AfterB(st: System, act: Action): ChildB {
    match act
    case ForksB => Preparing
    case BSetupFails(_, _) => Over(OfExit(EXIT_FAILURE))
    case BExecutes => Executing
    case BEnds(ws) => Over(ws)
    case KillB(_, raw) => Over(raw)
    case _ => st.b
  }

  function AfterStatus(st: System, act: Action): seq<Record>
    requires Enabled(st, act)
  {
    match act
    case SetupFails(onControl, report) => if onControl then st.status else Reported(st.status, FramedFailure, report)
    case BSetupFails(framed, report) => Reported(st.status, if framed then FramedFailure else RawFailure, report)
    case AForwards(report) => Reported(st.status, Forward(st.a.ws), report)
    case _ => st.status
  }

  /** What child A puts on the control socket itself, if anything. */
  function Speaks(act: Action): Option<Item> {
    if !act.SetupFails? || !act.onControl || act.report.Unsent? then None
    else Some(if act.report.Partial? then TornFrame else Whole(SetupFailed))
  }

  function AfterCause(st: System, act: Action): Cause {
    if act.SupervisorKillsChild? then BySupervisor
    else if act.KillA? then if act.outside then ByOutside else ByGroup
    else st.cause
  }

  /** The steps of everyone but the runner's and the supervisor's own code. */
  function ChildrenStep(st: System, act: Action): System
    requires Enabled(st, act) && ByChildren(act)
  {
    System(
      st.r,
      if act.SupervisorDies? then Died(st.s) else st.s,
      AfterA(st, act), AfterB(st, act),
      st.gate, AfterStatus(st, act),
      if Speaks(act).Some? then st.control + [Speaks(act).value] else st.control,
      st.commands,
      if act.BWrites? then st.output + act.data else st.output,
      if act.BComplains? then st.errors + act.data else st.errors,
      st.passed || act.GateOpens?,
      st.groupKilled, st.struck,
      st.setupFailed || act.SetupFails? || act.BSetupFails?,
      st.aSpoke || (act.SetupFails? && act.onControl),
      st.mirrored || act.AMirrors?,
      AfterCause(st, act))
  }

  function Next(st: System, act: Action): System
    requires Enabled(st, act)
  {
    match act
    case RunnerDoes(e) => RunnerStep(st, e)
    case SupervisorDoes(e) => SupervisorStep(st, e)
    case _ => ChildrenStep(st, act)
  }

  // ---------------------------------------------------------------------------------------
  // Runs
  // ---------------------------------------------------------------------------------------

  datatype Run = Run(actions: seq<Action>, states: seq<System>)

  predicate IsStep(st: System, act: Action, st': System) {
    Enabled(st, act) && st' == Next(st, act)
  }

  predicate StepAt(run: Run, i: nat)
    requires i < |run.actions| < |run.states|
  {
    IsStep(run.states[i], run.actions[i], run.states[i + 1])
  }

  /** A run of the whole system that ends in this state. */
  ghost predicate Accepts(run: Run, st: System) {
    && |run.states| == |run.actions| + 1 && run.states[0] == INITIAL && run.states[|run.actions|] == st
    && forall i: nat :: i < |run.actions| ==> StepAt(run, i)
  }

  /** Up to any of its states, a run is a run. */
  lemma Before(run: Run, st: System, n: nat) returns (before: Run)
    requires Accepts(run, st) && n <= |run.actions|
    ensures before == Run(run.actions[..n], run.states[..n + 1]) && Accepts(before, run.states[n])
  {
    before := Run(run.actions[..n], run.states[..n + 1]);
    forall i: nat | i < n ensures StepAt(before, i) {
      assert StepAt(run, i);
    }
  }

  // ---------------------------------------------------------------------------------------
  // Invariants
  // ---------------------------------------------------------------------------------------

  predicate EndedA(a: ChildA) { a.Ended? || a.Gone? }

  /** Terminated is on the socket, or was read, only if the supervisor sent it, and unchanged. */
  predicate Delivered(st: System) {
    && (forall i :: 0 <= i < |st.control| && st.control[i].Whole? && st.control[i].message.Terminated? ==>
          st.s.reported && st.control[i].message.ws == S.FinalStatus(st.s))
    && (st.r.reported.Some? ==> st.s.reported && st.r.reported.value == S.FinalStatus(st.s))
    && (st.r.reaps > 0 ==> st.s.phase.Exited?)
  }

  /** In a lawful history: the child was reaped. */
  predicate HasReap(h: seq<S.Mark>) {
    |h| >= 5 || (|h| >= 2 && h[|h| - 1].Reaped?)
  }

  /** The supervisor's record of its child is right. */
  predicate Tracked(st: System) {
    var h := st.s.history;
    && (st.a.NoA? <==> h == [] || h[0].SentFailed?)
    && (st.a.Gone? ==> st.a.raw == st.s.raw)
    && (st.a.Gone? <==> HasReap(h))
  }

  /** Nobody is past the gate unless the child was attached and then released. */
  predicate Gated(st: System) {
    var h := st.s.history;
    && (st.gate ==> |h| >= 3 && h[1].Attached? && h[2].Released?)
    && (st.passed ==> st.gate) && (!st.passed ==> st.output == st.errors == [])
    && (st.a.SettingUp? || st.a.WaitingForB? || st.a.HasStatus? || st.a.Forwarded? || !st.b.NoB? || st.setupFailed ==> st.passed)
  }

  /** Every status on its way up is B's own. */
  predicate Truthful(st: System) {
    && (st.a.HasStatus? || st.a.Forwarded? ==> st.b == Over(st.a.ws))
    && (st.b.Over? ==> Valid(st.b.ws))
    && (forall i :: 0 <= i < |st.status| && st.status[i].Forward? ==> st.b == Over(st.status[i].ws))
    && (st.s.forwarded.Some? ==> st.b == Over(st.s.forwarded.value))
    && (st.mirrored ==> EndedA(st.a) && st.b.Over? && Decode(st.a.raw) == Decode(st.b.ws))
    && (st.a.NoA? || st.a.AtGate? || st.a.SettingUp? ==> st.b.NoB?)
  }

  predicate SupervisorFailed(s: S.View) {
    !s.reported && (s.phase.Aborting? || s.phase.GivingUp? || s.phase.Leaving? || s.phase.Exited?)
  }

  predicate RunnerFailed(r: R.View) {
    r.phase.Cleanup? || r.phase.EarlyCleanup? || (r.phase.Returned? && !R.IsOk(r.phase.result.status))
  }

  /** The cgroup is only ever killed at the deadline, or on the way to a failure. */
  predicate KillsJustified(st: System) {
    && (st.commands > 0 || st.s.terminationRequested ==> st.r.terminationRequested)
    && (st.groupKilled ==> st.r.wallExceeded || RunnerFailed(st.r) || SupervisorFailed(st.s))
    && (st.cause.BySupervisor? ==> SupervisorFailed(st.s))
    && (st.cause.ByGroup? ==> st.groupKilled)
    && (!st.cause.Natural? ==> EndedA(st.a) && (st.a.raw == SIGKILL || st.cause.ByOutside?))
  }

  /** A failed setup ends in exit code 1, whoever reports it. */
  predicate SetupEnds(st: System) {
    && (EndedA(st.a) && st.cause.Natural? && (st.setupFailed || !st.mirrored) ==> st.a.raw == OfExit(EXIT_FAILURE))
    && (st.setupFailed ==> (st.b.NoB? && EndedA(st.a)) || st.b == Over(OfExit(EXIT_FAILURE)))
  }

  /** What was captured is a prefix of what was written, and all of it once the end was seen. */
  predicate Captured(st: System) {
    && st.r.stdout <= st.output && st.r.stderr <= st.errors
    && (st.r.stdoutEof ==> st.r.stdout == st.output && NoWriters(st))
    && (st.r.stderrEof ==> st.r.stderr == st.errors && NoWriters(st))
  }

  /** Once rmdir removed the cgroup, the submission is over. */
  predicate Emptied(st: System) {
    |st.s.history| >= 6 && st.s.history[5] == S.Cleared(true) ==> !AliveB(st.b)
  }

  /** Ready is on the socket, or was read, only if the supervisor sent it. */
  predicate Announced(st: System) {
    var h := st.s.history;
    && (st.r.ready ==> |h| >= 4 && h[3].SentReady?)
    && (forall i :: 0 <= i < |st.control| && st.control[i] == Whole(Ready) ==> |h| >= 4 && h[3].SentReady?)
  }

  /** Who is behind a SetupFailed: child A, a failure record, or a supervisor that never got a child. */
  predicate Blamed(st: System) {
    && (forall i :: 0 <= i < |st.control| && st.control[i] == Whole(SetupFailed) ==>
          st.aSpoke || st.s.failureRead || st.s.history == [S.SentFailed])
    && (st.r.refused ==> st.aSpoke || st.s.failureRead)
  }

  /** Nobody reports a setup failure that did not happen. */
  predicate Genuine(st: System) {
    && (st.aSpoke || st.s.failureRead ==> st.setupFailed)
    && (forall i :: 0 <= i < |st.status| && ReadsAsFailure(st.status[i]) ==> st.setupFailed)
  }

  predicate Inv(st: System) {
    && R.Inv(st.r) && S.Inv(st.s)
    && Delivered(st) && Tracked(st) && Gated(st) && Truthful(st) && KillsJustified(st) && SetupEnds(st) && Captured(st)
    && Emptied(st) && Announced(st) && Blamed(st) && Genuine(st)
  }

  /** Consequences of the views' own invariants, named so that each proof sees only what it needs. */
  predicate Childless(st: System) { st.s.phase.Spawning? ==> st.a.NoA? }
  predicate Final(st: System) { st.s.reported ==> st.s.phase.Exited? }
  predicate ReadyDue(st: System) { st.s.phase.Announcing? ==> |st.s.history| == 3 }
  predicate BlameDue(st: System) {
    && (st.s.phase.ReportingFailed? ==> st.s.failureRead) && (st.s.phase.Preparing? ==> st.s.history == [])
    && (st.s.history == [S.SentFailed] ==> st.s.phase.Exited?)
  }
  predicate TrackDue(st: System) {
    var h, p := st.s.history, st.s.phase;
    && (p.Preparing? || p.Spawning? ==> h == [])
    && (p.Attaching? ==> |h| == 1 && !h[0].SentFailed?)
    && (p.Releasing? ==> |h| == 2 && !h[1].Reaped? && !h[0].SentFailed?)
    && (p.Announcing? ==> |h| == 3 && !h[2].Reaped? && !h[0].SentFailed?)
    && (p.CleaningFailed? || p.ReportingFailed? || p.CleaningDone? || p.ReportingDone? ==> |h| >= 5 && !h[0].SentFailed?)
  }
  predicate Requested(st: System) { st.r.terminationRequested ==> st.r.wallExceeded || RunnerFailed(st.r) }

  lemma SupervisorFacts(st: System)
    requires S.Inv(st.s) && Tracked(st)
    ensures Childless(st) && Final(st) && ReadyDue(st) && BlameDue(st) && TrackDue(st)
  {
  }

  lemma RunnerFacts(st: System)
    requires R.Inv(st.r)
    ensures Requested(st)
  {
  }

  lemma DiedKeepsInv(s: S.View)
    requires S.Inv(s)
    ensures S.Inv(Died(s))
  {
  }

  lemma RunnerKeepDelivered(st: System, e: R.Event)
    requires Final(st) && Delivered(st)
    requires R.Enabled(st.r, e) && RunnerCan(st, e)
    ensures Delivered(RunnerStep(st, e))
  {
  }

  lemma RunnerKeepTracked(st: System, e: R.Event)
    requires Tracked(st)
    requires R.Enabled(st.r, e) && RunnerCan(st, e)
    ensures Tracked(RunnerStep(st, e))
  {
  }

  lemma RunnerKeepGated(st: System, e: R.Event)
    requires Gated(st)
    requires R.Enabled(st.r, e) && RunnerCan(st, e)
    ensures Gated(RunnerStep(st, e))
  {
  }

  lemma RunnerKeepTruthful(st: System, e: R.Event)
    requires Truthful(st)
    requires R.Enabled(st.r, e) && RunnerCan(st, e)
    ensures Truthful(RunnerStep(st, e))
  {
  }

  /** What a step of the runner can do to the things that justify kills. */
  predicate RunnerEffects(st: System, st': System) {
    && st'.a == st.a && st'.cause == st.cause && (st'.s == st.s || st'.s == Died(st.s))
    && (st'.commands > st.commands ==> st'.r.terminationRequested)
    && (st.groupKilled ==> st'.groupKilled) && (st'.groupKilled ==> st.groupKilled || RunnerFailed(st'.r))
    && (st.r.terminationRequested ==> st'.r.terminationRequested)
    && (st.r.wallExceeded ==> st'.r.wallExceeded)
    && (RunnerFailed(st.r) ==> RunnerFailed(st'.r))
  }

  lemma RunnerHasEffects(st: System, e: R.Event)
    requires R.Enabled(st.r, e) && RunnerCan(st, e)
    ensures RunnerEffects(st, RunnerStep(st, e))
  {
  }

  lemma EffectsKeepKills(st: System, st': System)
    requires RunnerEffects(st, st') && KillsJustified(st)
    ensures KillsJustified(st')
  {
  }

  lemma RunnerKeepKills(st: System, e: R.Event)
    requires R.Enabled(st.r, e) && RunnerCan(st, e) && KillsJustified(st)
    ensures KillsJustified(RunnerStep(st, e))
  {
    RunnerHasEffects(st, e);
    EffectsKeepKills(st, RunnerStep(st, e));
  }

  lemma RunnerKeepSetupEnds(st: System, e: R.Event)
    requires SetupEnds(st)
    requires R.Enabled(st.r, e) && RunnerCan(st, e)
    ensures SetupEnds(RunnerStep(st, e))
  {
  }

  lemma RunnerKeepCaptured(st: System, e: R.Event)
    requires Captured(st)
    requires R.Enabled(st.r, e) && RunnerCan(st, e)
    ensures Captured(RunnerStep(st, e))
  {
  }

  lemma RunnerKeepEmptied(st: System, e: R.Event)
    requires Emptied(st)
    requires R.Enabled(st.r, e) && RunnerCan(st, e)
    ensures Emptied(RunnerStep(st, e))
  {
  }

  lemma RunnerKeepAnnounced(st: System, e: R.Event)
    requires Announced(st)
    requires R.Enabled(st.r, e) && RunnerCan(st, e)
    ensures Announced(RunnerStep(st, e))
  {
  }

  lemma RunnerKeepBlamed(st: System, e: R.Event)
    requires R.Inv(st.r) && Announced(st) && Blamed(st)
    requires R.Enabled(st.r, e) && RunnerCan(st, e)
    ensures Blamed(RunnerStep(st, e))
  {
  }

  lemma RunnerKeepGenuine(st: System, e: R.Event)
    requires Genuine(st)
    requires R.Enabled(st.r, e) && RunnerCan(st, e)
    ensures Genuine(RunnerStep(st, e))
  {
  }

  lemma RunnerKeepInv(st: System, e: R.Event)
    requires Inv(st)
    requires R.Enabled(st.r, e) && RunnerCan(st, e)
    ensures Inv(RunnerStep(st, e))
  {
    R.StepKeepsInv(st.r, e);
    DiedKeepsInv(st.s);
    SupervisorFacts(st);
    RunnerKeepDelivered(st, e);
    RunnerKeepTracked(st, e);
    RunnerKeepGated(st, e);
    RunnerKeepTruthful(st, e);
    RunnerKeepKills(st, e);
    RunnerKeepSetupEnds(st, e);
    RunnerKeepCaptured(st, e);
    RunnerKeepEmptied(st, e);
    RunnerKeepAnnounced(st, e);
    RunnerKeepBlamed(st, e);
    RunnerKeepGenuine(st, e);
  }

  lemma SupervisorKeepDelivered(st: System, e: S.Event)
    requires Final(st) && Delivered(st)
    requires S.Enabled(st.s, e) && SupervisorCan(st, e)
    ensures Delivered(SupervisorStep(st, e))
  {
  }

  lemma ReapKeepTracked(st: System, raw: int)
    requires S.Inv(st.s) && Tracked(st)
    requires S.Enabled(st.s, S.ChildReaped(raw)) && SupervisorCan(st, S.ChildReaped(raw))
    ensures Tracked(SupervisorStep(st, S.ChildReaped(raw)))
  {
  }

  lemma OtherKeepTracked(st: System, e: S.Event)
    requires TrackDue(st) && Tracked(st) && !e.ChildReaped?
    requires S.Enabled(st.s, e) && SupervisorCan(st, e)
    ensures Tracked(SupervisorStep(st, e))
  {
  }

  lemma SupervisorKeepTracked(st: System, e: S.Event)
    requires S.Inv(st.s) && TrackDue(st) && Tracked(st)
    requires S.Enabled(st.s, e) && SupervisorCan(st, e)
    ensures Tracked(SupervisorStep(st, e))
  {
    if e.ChildReaped? { ReapKeepTracked(st, e.raw); } else { OtherKeepTracked(st, e); }
  }

  lemma SupervisorKeepGated(st: System, e: S.Event)
    requires S.Inv(st.s) && Gated(st)
    requires S.Enabled(st.s, e) && SupervisorCan(st, e)
    ensures Gated(SupervisorStep(st, e))
  {
  }

  lemma SupervisorKeepTruthful(st: System, e: S.Event)
    requires Childless(st) && Truthful(st)
    requires S.Enabled(st.s, e) && SupervisorCan(st, e)
    ensures Truthful(SupervisorStep(st, e))
  {
    assert forall i :: 0 <= i < |st.status| - 1 ==> st.status[1..][i] == st.status[i + 1];
  }

  /** What a step of the supervisor can do to the things that justify kills. */
  predicate SupervisorEffects(st: System, st': System) {
    && st'.r == st.r && st'.cause == st.cause && (EndedA(st.a) ==> EndedA(st'.a) && st'.a.raw == st.a.raw)
    && st'.commands <= st.commands && (st'.s.terminationRequested ==> st.s.terminationRequested || st.commands > 0)
    && (st.groupKilled ==> st'.groupKilled) && (st'.groupKilled ==> st.groupKilled || st.commands > 0 || SupervisorFailed(st'.s))
    && (SupervisorFailed(st.s) ==> SupervisorFailed(st'.s))
  }

  lemma SupervisorHasEffects(st: System, e: S.Event)
    requires Childless(st) && Final(st) && S.Enabled(st.s, e) && SupervisorCan(st, e)
    ensures SupervisorEffects(st, SupervisorStep(st, e))
  {
  }

  lemma SupervisorEffectsKeepKills(st: System, st': System)
    requires SupervisorEffects(st, st') && Requested(st) && KillsJustified(st)
    ensures KillsJustified(st')
  {
  }

  lemma SupervisorKeepKills(st: System, e: S.Event)
    requires Childless(st) && Requested(st) && Final(st) && KillsJustified(st)
    requires S.Enabled(st.s, e) && SupervisorCan(st, e)
    ensures KillsJustified(SupervisorStep(st, e))
  {
    SupervisorHasEffects(st, e);
    SupervisorEffectsKeepKills(st, SupervisorStep(st, e));
  }

  lemma SupervisorKeepSetupEnds(st: System, e: S.Event)
    requires Childless(st) && KillsJustified(st) && SetupEnds(st)
    requires S.Enabled(st.s, e) && SupervisorCan(st, e)
    ensures SetupEnds(SupervisorStep(st, e))
  {
  }

  lemma SupervisorKeepCaptured(st: System, e: S.Event)
    requires Captured(st)
    requires S.Enabled(st.s, e) && SupervisorCan(st, e)
    ensures Captured(SupervisorStep(st, e))
  {
  }

  lemma SupervisorKeepEmptied(st: System, e: S.Event)
    requires S.Inv(st.s) && Emptied(st)
    requires S.Enabled(st.s, e) && SupervisorCan(st, e)
    ensures Emptied(SupervisorStep(st, e))
  {
  }

  lemma SupervisorKeepAnnounced(st: System, e: S.Event)
    requires ReadyDue(st) && Announced(st)
    requires S.Enabled(st.s, e) && SupervisorCan(st, e)
    ensures Announced(SupervisorStep(st, e))
  {
  }

  lemma SupervisorKeepBlamed(st: System, e: S.Event)
    requires BlameDue(st) && Blamed(st)
    requires S.Enabled(st.s, e) && SupervisorCan(st, e)
    ensures Blamed(SupervisorStep(st, e))
  {
  }

  lemma SupervisorKeepGenuine(st: System, e: S.Event)
    requires Genuine(st)
    requires S.Enabled(st.s, e) && SupervisorCan(st, e)
    ensures Genuine(SupervisorStep(st, e))
  {
  }

  lemma SupervisorKeepInv(st: System, e: S.Event)
    requires Inv(st)
    requires S.Enabled(st.s, e) && SupervisorCan(st, e)
    ensures Inv(SupervisorStep(st, e))
  {
    S.StepKeepsInv(st.s, e);
    SupervisorFacts(st);
    RunnerFacts(st);
    SupervisorKeepDelivered(st, e);
    SupervisorKeepTracked(st, e);
    SupervisorKeepGated(st, e);
    SupervisorKeepTruthful(st, e);
    SupervisorKeepKills(st, e);
    SupervisorKeepSetupEnds(st, e);
    SupervisorKeepCaptured(st, e);
    SupervisorKeepEmptied(st, e);
    SupervisorKeepAnnounced(st, e);
    SupervisorKeepBlamed(st, e);
    SupervisorKeepGenuine(st, e);
  }

  lemma ChildrenKeepDelivered(st: System, act: Action)
    requires Final(st) && Delivered(st)
    requires Enabled(st, act) && ByChildren(act)
    ensures Delivered(ChildrenStep(st, act))
  {
  }

  lemma ChildrenKeepTracked(st: System, act: Action)
    requires Tracked(st)
    requires Enabled(st, act) && ByChildren(act)
    ensures Tracked(ChildrenStep(st, act))
  {
  }

  lemma ChildrenKeepGated(st: System, act: Action)
    requires Gated(st)
    requires Enabled(st, act) && ByChildren(act)
    ensures Gated(ChildrenStep(st, act))
  {
  }

  lemma ChildrenKeepTruthful(st: System, act: Action)
    requires Truthful(st)
    requires Enabled(st, act) && ByChildren(act)
    ensures Truthful(ChildrenStep(st, act))
  {
    if act.AMirrors? { MirrorFaithful(st.a.ws, act.core); }
  }

  lemma ChildrenKeepKills(st: System, act: Action)
    requires Final(st) && KillsJustified(st)
    requires Enabled(st, act) && ByChildren(act)
    ensures KillsJustified(ChildrenStep(st, act))
  {
  }

  lemma ChildrenKeepSetupEnds(st: System, act: Action)
    requires Truthful(st) && KillsJustified(st) && SetupEnds(st)
    requires Enabled(st, act) && ByChildren(act)
    ensures SetupEnds(ChildrenStep(st, act))
  {
    assert Mirror(OfExit(EXIT_FAILURE), false) == Mirror(OfExit(EXIT_FAILURE), true) == OfExit(EXIT_FAILURE);
  }

  lemma ChildrenKeepCaptured(st: System, act: Action)
    requires Truthful(st) && Captured(st)
    requires Enabled(st, act) && ByChildren(act)
    ensures Captured(ChildrenStep(st, act))
  {
  }

  lemma ChildrenKeepEmptied(st: System, act: Action)
    requires S.Inv(st.s) && Tracked(st) && Emptied(st)
    requires Enabled(st, act) && ByChildren(act)
    ensures Emptied(ChildrenStep(st, act))
  {
  }

  lemma ChildrenKeepAnnounced(st: System, act: Action)
    requires Announced(st)
    requires Enabled(st, act) && ByChildren(act)
    ensures Announced(ChildrenStep(st, act))
  {
  }

  lemma ChildrenKeepBlamed(st: System, act: Action)
    requires Blamed(st)
    requires Enabled(st, act) && ByChildren(act)
    ensures Blamed(ChildrenStep(st, act))
  {
  }

  lemma ChildrenKeepGenuine(st: System, act: Action)
    requires Genuine(st)
    requires Enabled(st, act) && ByChildren(act)
    ensures Genuine(ChildrenStep(st, act))
  {
  }

  lemma ChildrenKeepViews(st: System, act: Action)
    requires Enabled(st, act) && ByChildren(act)
    ensures ChildrenStep(st, act).r == st.r && (ChildrenStep(st, act).s == st.s || ChildrenStep(st, act).s == Died(st.s))
  {
  }

  lemma ChildrenKeepInv(st: System, act: Action)
    requires Inv(st)
    requires Enabled(st, act) && ByChildren(act)
    ensures Inv(ChildrenStep(st, act))
  {
    ChildrenKeepViews(st, act);
    DiedKeepsInv(st.s);
    SupervisorFacts(st);
    ChildrenKeepDelivered(st, act);
    ChildrenKeepTracked(st, act);
    ChildrenKeepGated(st, act);
    ChildrenKeepTruthful(st, act);
    ChildrenKeepKills(st, act);
    ChildrenKeepSetupEnds(st, act);
    ChildrenKeepCaptured(st, act);
    ChildrenKeepEmptied(st, act);
    ChildrenKeepAnnounced(st, act);
    ChildrenKeepBlamed(st, act);
    ChildrenKeepGenuine(st, act);
  }

  lemma StepKeepsInv(st: System, act: Action)
    requires Inv(st) && Enabled(st, act)
    ensures Inv(Next(st, act))
  {
    if act.RunnerDoes? {
      assert Next(st, act) == RunnerStep(st, act.re);
      RunnerKeepInv(st, act.re);
    } else if act.SupervisorDoes? {
      assert Next(st, act) == SupervisorStep(st, act.se);
      SupervisorKeepInv(st, act.se);
    } else {
      assert Next(st, act) == ChildrenStep(st, act);
      ChildrenKeepInv(st, act);
    }
  }

  /** The invariant holds in every state of every run. */
  lemma {:induction false} RunKeepsInv(run: Run, st: System)
    requires Accepts(run, st)
    ensures Inv(st)
    decreases |run.actions|
  {
    var n := |run.actions| - 1;
    if n >= 0 {
      assert StepAt(run, n);
      var before := Before(run, st, n);
      RunKeepsInv(before, run.states[n]);
      StepKeepsInv(run.states[n], run.actions[n]);
    }
  }

  // ---------------------------------------------------------------------------------------
  // What holds of every run
  // ---------------------------------------------------------------------------------------

  predicate ReturnedOk(st: System) {
    st.r.phase.Returned? && R.IsOk(st.r.phase.result.status)
  }

  /**
   * If run returns Completed, TimedOut or Signaled, then the supervisor attached, released and
   * announced its child, later reaped it, then cleared the cgroup path, and only then sent Terminated;
   * it has exited, the runner has reaped it, and no failed cgroup cleanup is behind the result,
   * which says exactly what Terminated said.
   */
  lemma CompletionIsSafe(run: Run, st: System)
    requires Accepts(run, st) && ReturnedOk(st)
    ensures var h := st.s.history;
            && |h| == 7 && h[0] == S.Forked && h[1].Attached? && h[2] == S.Released && h[3] == S.SentReady
            && h[4] == S.Reaped(st.s.raw) && h[5].Cleared? && h[6] == S.SentTerminated(S.FinalStatus(st.s))
    ensures st.a == Gone(st.s.raw) && !st.s.hasPath && !st.s.stuck
    ensures st.s.phase.Exited? && st.r.reaps == 1
    ensures st.r.phase.result == R.OkResult(st.r, S.FinalStatus(st.s))
  {
    RunKeepsInv(run, st);
  }

  /**
   * Nothing of the submission survives such a return, and nobody will write any more, if rmdir
   * removed the cgroup, if A ended as B did, if B's status was forwarded, or if A never passed
   * the gate. RunExamples.SurvivalCondition shows that nothing less will do.
   */
  lemma CompletionLeavesNothing(run: Run, st: System)
    requires Accepts(run, st) && ReturnedOk(st)
    ensures |st.s.history| == 7 && st.s.history[5].Cleared? && st.s.history[1].Attached?
    ensures st.s.history[5].removed ==> st.s.history[1].member
    ensures st.s.history[5].removed || st.mirrored || st.s.forwarded.Some? || !st.passed ==> NoWriters(st)
  {
    RunKeepsInv(run, st);
    CompletionIsSafe(run, st);
  }

  function EndingOf(r: ExecutionResult): Ending {
    if r.terminatedBySignal then Killed(r.signalNumber) else Exited(r.exitCode)
  }

  /**
   * If child A got to end as child B had ended, or its forwarded status got through, the result
   * carries B's exit code or B's signal, whether the supervisor read the status or only reaped A.
   */
  lemma StatusIsFaithful(run: Run, st: System)
    requires Accepts(run, st) && ReturnedOk(st) && (st.mirrored || st.s.forwarded.Some?)
    ensures st.b.Over? && EndingOf(st.r.phase.result) == Decode(st.b.ws)
  {
    RunKeepsInv(run, st);
    CompletionIsSafe(run, st);
    assert Decode(S.FinalStatus(st.s)) == Decode(st.b.ws);
  }

  /**
   * No step past the gate, by A or B, without an attach that succeeded and then a release: A is
   * a member of the cgroup, or there is no cgroup path any more. A child that is not past the
   * gate has no child B, wrote nothing, and waits or has ended. After a failed attach or release
   * it never gets past the gate, and its reap is on record exactly when it is gone.
   */
  lemma GateHolds(run: Run, st: System)
    requires Accepts(run, st)
    ensures var h := st.s.history;
            st.passed ==> |h| >= 3 && h[1].Attached? && h[2] == S.Released && (h[1].member || !st.s.hasPath)
    ensures !st.passed ==> st.b.NoB? && st.output == st.errors == [] && (st.a.NoA? || st.a.AtGate? || EndedA(st.a))
    ensures S.Released !in st.s.history ==> !st.gate && !st.passed
    ensures st.s.phase.Aborting? ==> !st.gate && !st.passed && (st.s.phase.reaped <==> st.a.Gone?)
    ensures |st.s.history| >= 2 && st.s.history[|st.s.history| - 1].Reaped? ==> st.a.Gone?
  {
    RunKeepsInv(run, st);
  }

  /** Captured output is an in-order prefix of what was written, and all of it once end of file was read. */
  lemma OutputIsPrefix(run: Run, st: System)
    requires Accepts(run, st)
    ensures st.r.stdout <= st.output && (st.r.stdoutEof ==> st.r.stdout == st.output)
    ensures st.r.stderr <= st.errors && (st.r.stderrEof ==> st.r.stderr == st.errors)
    ensures st.r.phase.Returned? ==> st.r.phase.result.stdout <= st.output && st.r.phase.result.stderr <= st.errors
  {
    RunKeepsInv(run, st);
  }

  /**
   * A run whose sandbox setup failed, if nobody outside killed child A, never returns as if the
   * submission had exited with 0: either it is a failure, or it carries exit code 1, or it was
   * killed at the deadline.
   */
  lemma FailedSetupIsVisible(run: Run, st: System)
    requires Accepts(run, st) && st.r.phase.Returned? && st.setupFailed && !st.cause.ByOutside?
    ensures var r := st.r.phase.result;
            || (!R.IsOk(r.status) && !r.terminatedBySignal && r.exitCode == 1)
            || (R.IsOk(r.status) && EndingOf(r) == Exited(EXIT_FAILURE))
            || (R.IsOk(r.status) && EndingOf(r) == Killed(SIGKILL) && r.wallTimeLimitExceeded)
  {
    RunKeepsInv(run, st);
    if ReturnedOk(st) {
      CompletionIsSafe(run, st);
      assert S.FinalStatus(st.s) == OfExit(EXIT_FAILURE) || (S.FinalStatus(st.s) == SIGKILL && st.r.wallExceeded);
    }
  }

  /** A has not ended, and B, if there is one, has not either. */
  predicate Unended(st: System) { AliveA(st.a) && !st.b.Over? }

  /** At this step the supervisor's kill of the cgroup is written. */
  predicate StrikesAt(run: Run, i: nat) {
    i < |run.actions| < |run.states| && run.actions[i].SupervisorDoes? && KillsGroup(run.actions[i].se)
  }

  /** Whoever ends from here on ends by a signal, and nobody had ended before. */
  predicate Doomed(st: System) {
    && st.struck && st.groupKilled
    && (st.b.Over? ==> IfSignaled(st.b.ws)) && (EndedA(st.a) ==> IfSignaled(st.a.raw))
  }

  lemma DoomedStep(st: System, act: Action)
    requires Doomed(st) && Enabled(st, act)
    ensures Doomed(Next(st, act))
  {
    if ByChildren(act) {
      assert Next(st, act) == ChildrenStep(st, act);
    } else if act.RunnerDoes? {
      assert Next(st, act) == RunnerStep(st, act.re);
    } else {
      assert Next(st, act) == SupervisorStep(st, act.se);
    }
  }

  lemma StrikeDooms(st: System, e: S.Event)
    requires S.Enabled(st.s, e) && SupervisorCan(st, e) && KillsGroup(e) && Unended(st)
    ensures Doomed(SupervisorStep(st, e))
  {
  }

  lemma {:induction false} StaysDoomed(run: Run, st: System, i: nat)
    requires Accepts(run, st) && StrikesAt(run, i) && Unended(run.states[i])
    ensures Doomed(st)
    decreases |run.actions|
  {
    var n := |run.actions| - 1;
    assert StepAt(run, n);
    if i == n {
      assert st == SupervisorStep(run.states[n], run.actions[n].se);
      StrikeDooms(run.states[n], run.actions[n].se);
    } else {
      var before := Before(run, st, n);
      StaysDoomed(before, run.states[n], i);
      DoomedStep(run.states[n], run.actions[n]);
    }
  }

  /**
   * A kill that is written while the submission is running decides: if the run then returns
   * Completed, TimedOut or Signaled at all, it is TimedOut, and ended by a signal.
   */
  lemma WrittenKillDecides(run: Run, st: System, i: nat)
    requires Accepts(run, st) && ReturnedOk(st) && StrikesAt(run, i) && Unended(run.states[i])
    ensures st.r.phase.result.status == ExecutionStatus.TimedOut && st.r.phase.result.terminatedBySignal
    ensures st.r.phase.result.wallTimeLimitExceeded
  {
    StaysDoomed(run, st, i);
    RunKeepsInv(run, st);
    CompletionIsSafe(run, st);
    assert IfSignaled(S.FinalStatus(st.s));
  }

  lemma FailedStep(st: System, act: Action)
    requires Childless(st) && Final(st) && SupervisorFailed(st.s) && Enabled(st, act)
    ensures SupervisorFailed(Next(st, act).s)
  {
    if ByChildren(act) {
      assert Next(st, act) == ChildrenStep(st, act);
    } else if act.RunnerDoes? {
      assert Next(st, act) == RunnerStep(st, act.re);
    } else {
      assert Next(st, act) == SupervisorStep(st, act.se);
      SupervisorHasEffects(st, act.se);
    }
  }

  lemma {:induction false} StaysFailed(run: Run, st: System, i: nat)
    requires Accepts(run, st) && i <= |run.actions| && SupervisorFailed(run.states[i].s)
    ensures SupervisorFailed(st.s)
    decreases |run.actions|
  {
    var n := |run.actions| - 1;
    if i <= n {
      assert StepAt(run, n);
      var before := Before(run, st, n);
      StaysFailed(before, run.states[n], i);
      RunKeepsInv(before, run.states[n]);
      SupervisorFacts(run.states[n]);
      FailedStep(run.states[n], run.actions[n]);
    }
  }

  /** A kill that fails other than by denial ends in a failure. */
  lemma FailedKillFails(run: Run, st: System, i: nat)
    requires Accepts(run, st) && i < |run.actions| && run.actions[i] == SupervisorDoes(S.TerminateHandled(KillFailed))
    ensures !ReturnedOk(st)
  {
    assert StepAt(run, i);
    var before := Before(run, st, i);
    RunKeepsInv(before, run.states[i]);
    assert run.states[i + 1] == SupervisorStep(run.states[i], S.TerminateHandled(KillFailed));
    StaysFailed(run, st, i + 1);
    RunKeepsInv(run, st);
  }

  predicate TerminateAt(run: Run, i: nat, kill: Kill)
    requires i < |run.actions|
  {
    run.actions[i] == SupervisorDoes(S.TerminateHandled(kill))
  }

  /**
   * What became of a Terminate sent at the deadline: the supervisor never handled one, or it
   * handled one with this outcome while neither A nor B had ended (`running`), or one had.
   */
  ghost predicate Handling(run: Run, handling: Option<Kill>, running: bool) {
    match handling
    case None => forall i: nat, kill :: i < |run.actions| ==> !TerminateAt(run, i, kill)
    case Some(kill) => exists i: nat :: i < |run.actions| < |run.states| && TerminateAt(run, i, kill) && Unended(run.states[i]) == running
  }

  /** The submission may still end by itself: no kill was written while it was running, and none failed. */
  predicate WayOut(handling: Option<Kill>, running: bool) {
    handling.None? || (!handling.value.KillFailed? && !(handling.value.GroupKilled? && running))
  }

  /** Every run that is not a failure and did not end by a signal had a way out. */
  lemma OutlivedHadWayOut(run: Run, st: System)
    requires Accepts(run, st) && ReturnedOk(st) && !st.r.phase.result.terminatedBySignal
    ensures exists handling, running :: Handling(run, handling, running)
    ensures forall handling, running :: Handling(run, handling, running) ==> WayOut(handling, running)
  {
    if i: nat, kill :| i < |run.actions| && TerminateAt(run, i, kill) {
      assert Handling(run, Some(kill), Unended(run.states[i]));
    } else {
      assert Handling(run, None, true);
    }
    forall handling, running | Handling(run, handling, running) ensures WayOut(handling, running) {
      if handling.Some? && !WayOut(handling, running) {
        var i: nat :| i < |run.actions| < |run.states| && TerminateAt(run, i, handling.value) && Unended(run.states[i]) == running;
        if handling.value.KillFailed? { FailedKillFails(run, st, i); } else { WrittenKillDecides(run, st, i); }
      }
    }
  }

  /** terminateCalls counts the handled Terminates, so a run that ends with none has handled none. */
  lemma {:induction false} UncalledUnhandled(run: Run, st: System)
    requires Accepts(run, st) && st.s.terminateCalls == 0
    ensures Handling(run, None, true) && Handling(run, None, false)
    decreases |run.actions|
  {
    var n := |run.actions| - 1;
    if n >= 0 {
      assert StepAt(run, n);
      CallsGrow(run.states[n], run.actions[n]);
      var before := Before(run, st, n);
      UncalledUnhandled(before, run.states[n]);
      forall i: nat, kill | i < |run.actions| ensures !TerminateAt(run, i, kill) {
        if i < n { assert TerminateAt(run, i, kill) <==> TerminateAt(before, i, kill); }
      }
    }
  }

  lemma CallsGrow(st: System, act: Action)
    requires Enabled(st, act)
    ensures Next(st, act).s.terminateCalls >= st.s.terminateCalls
    ensures act.SupervisorDoes? && act.se.TerminateHandled? ==> Next(st, act).s.terminateCalls > 0
  {
    if ByChildren(act) {
      assert Next(st, act) == ChildrenStep(st, act);
    } else if act.RunnerDoes? {
      assert Next(st, act) == RunnerStep(st, act.re);
    } else {
      assert Next(st, act) == SupervisorStep(st, act.se);
    }
  }

  /** Seen from the runner, every run of the system is a run of its protocol. */
  lemma {:induction false} RunnerProjects(run: Run, st: System) returns (r: R.Run)
    requires Accepts(run, st)
    ensures R.Accepts(r, st.r) && st.r.forked
    decreases |run.actions|
  {
    var n := |run.actions| - 1;
    if n < 0 {
      R.AcceptsStep(R.EMPTY, R.START, R.Forked);
      r := R.Record(R.EMPTY, R.Forked, INITIAL.r);
    } else {
      assert StepAt(run, n);
      var before := Before(run, st, n);
      r := RunnerProjects(before, run.states[n]);
      var act := run.actions[n];
      if act.RunnerDoes? {
        R.AcceptsStep(r, run.states[n].r, act.re);
        r := R.Record(r, act.re, st.r);
      }
    }
  }

  /** The runner has read the last message of the other side. */
  predicate Told(st: System) {
    st.r.reported.Some? || st.r.refused
  }

  /**
   * Which report of a failed setup wins. A run that was told of a failure had one. If the
   * supervisor read a failure record, the run is returned as a failure; and as long as child A
   * does not write to the control socket itself, only then: otherwise it is Completed, TimedOut
   * or Signaled, unless the wait for the supervisor failed.
   */
  lemma FailureReportedExactly(run: Run, st: System)
    requires Accepts(run, st) && st.r.phase.Returned?
    ensures st.r.refused || st.s.failureRead ==> st.setupFailed && !R.IsOk(st.r.phase.result.status)
    ensures Told(st) && !st.aSpoke ==> (st.r.refused <==> st.s.failureRead)
    ensures Told(st) && !st.aSpoke ==> (R.IsOk(st.r.phase.result.status) <==> !st.s.failureRead && st.r.reaps == 1)
  {
    RunKeepsInv(run, st);
  }

  /** The state in which Terminated was handled, if it was. */
  ghost predicate HandledAt(run: Run, i: nat) {
    && i < |run.actions| < |run.states|
    && run.actions[i].RunnerDoes? && run.actions[i].re.GotTerminated?
  }

  /**
   * Handling Terminated freezes both captured streams. If the submission is over by then, they
   * are complete exactly when nothing was unread at that moment. It is over if A's status or its
   * forwarded record is B's, and if rmdir removed the cgroup.
   */
  lemma OutputFrozenAtTerminated(run: Run, st: System) returns (i: nat)
    requires Accepts(run, st) && ReturnedOk(st)
    ensures HandledAt(run, i)
    ensures var at, result := run.states[i], st.r.phase.result;
            && result.stdout == at.r.stdout && result.stderr == at.r.stderr
            && (!AliveB(at.b) ==> (result.stdout == st.output <==> at.r.stdout == at.output))
            && (!AliveB(at.b) ==> (result.stderr == st.errors <==> at.r.stderr == at.errors))
            && (st.mirrored || st.s.forwarded.Some? || (|st.s.history| > 5 && st.s.history[5] == S.Cleared(true)) ==> !AliveB(at.b))
  {
    RunKeepsInv(run, st);
    i := FreezePoint(run, st);
    SettledSince(run, st, i);
    SettledStreams(run.states[i], st);
  }

  /** Nothing that matters has changed since Terminated was handled. */
  lemma SettledSince(run: Run, st: System, i: nat)
    requires Accepts(run, st) && HandledAt(run, i)
    ensures Settles(run.states[i], st) && Truthful(run.states[i]) && Emptied(run.states[i]) && Captured(run.states[i])
  {
    var before := Before(run, st, i);
    assert StepAt(run, i);
    RunKeepsInv(before, run.states[i]);
    ReportedMeansGone(run.states[i]);
    StaysSettled(run, st, i);
  }

  lemma SettledStreams(at: System, st: System)
    requires Settles(at, st) && Truthful(at) && Emptied(at) && Captured(at)
    ensures !AliveB(at.b) ==> st.output == at.output && st.errors == at.errors
    ensures st.mirrored || st.s.forwarded.Some? || (|st.s.history| > 5 && st.s.history[5] == S.Cleared(true)) ==> !AliveB(at.b)
  {
  }

  /** Terminated was sent: A is gone for good. */
  lemma ReportedMeansGone(st: System)
    requires S.Inv(st.s) && Tracked(st) && st.s.reported
    ensures st.a.Gone? && |st.s.history| == 7
  {
  }

  /** From then on nothing changes that matters, and a submission that is over writes no more. */
  predicate Settles(st: System, st': System) {
    && st'.s.reported && st'.a == st.a && st'.mirrored == st.mirrored
    && st'.s.forwarded == st.s.forwarded && st'.s.history == st.s.history
    && (!AliveB(st.b) ==> st'.b == st.b && st'.output == st.output && st'.errors == st.errors)
  }

  lemma SettledStep(st: System, act: Action)
    requires S.Inv(st.s) && st.s.reported && st.a.Gone? && Enabled(st, act)
    ensures Settles(st, Next(st, act))
  {
    if ByChildren(act) {
      assert Next(st, act) == ChildrenStep(st, act);
    } else if act.RunnerDoes? {
      assert Next(st, act) == RunnerStep(st, act.re);
    } else {
      assert false;
    }
  }

  lemma {:induction false} StaysSettled(run: Run, st: System, i: nat)
    requires Accepts(run, st) && i <= |run.actions|
    requires run.states[i].s.reported && run.states[i].a.Gone?
    ensures Settles(run.states[i], st)
    decreases |run.actions|
  {
    var n := |run.actions| - 1;
    if i <= n {
      assert StepAt(run, n);
      var before := Before(run, st, n);
      StaysSettled(before, run.states[n], i);
      RunKeepsInv(before, run.states[n]);
      SettledStep(run.states[n], run.actions[n]);
    }
  }

  lemma {:induction false} FreezePoint(run: Run, st: System) returns (i: nat)
    requires Accepts(run, st) && st.r.reported.Some?
    ensures HandledAt(run, i) && st.r.stdout == run.states[i].r.stdout && st.r.stderr == run.states[i].r.stderr
    decreases |run.actions|
  {
    var n := |run.actions| - 1;
    if n < 0 { assert false; }
    assert StepAt(run, n);
    if run.actions[n].RunnerDoes? && run.actions[n].re.GotTerminated? {
      i := n;
    } else {
      var before := Before(run, st, n);
      RunKeepsInv(before, run.states[n]);
      FrozenStep(run.states[n], run.actions[n]);
      i := FreezePoint(before, run.states[n]);
    }
  }

  lemma FrozenStep(st: System, act: Action)
    requires R.Inv(st.r) && Enabled(st, act) && !(act.RunnerDoes? && act.re.GotTerminated?) && Next(st, act).r.reported.Some?
    ensures st.r.reported.Some? && Next(st, act).r.stdout == st.r.stdout && Next(st, act).r.stderr == st.r.stderr
  {
    if act.RunnerDoes? {
      assert Next(st, act) == RunnerStep(st, act.re);
      R.FrozenNext(st.r, act.re);
    } else if act.SupervisorDoes? {
      assert Next(st, act) == SupervisorStep(st, act.se);
    } else {
      assert Next(st, act) == ChildrenStep(st, act);
      ChildrenKeepViews(st, act);
    }
  }
}
