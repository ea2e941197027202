/**
 * The runner process: ProcessRunner::run in src/runner/process_runner.cpp as the parent executes
 * it. Whatever the kernel replies, it keeps to RunnerProtocol, closes each descriptor as stated
 * here, feeds and reads its pipes in order, and observes the deadline.
 */
module Runner {
  import opened Bytes
  import opened Results
  import opened Wire
  import opened Kernel
  import opened WaitStatuses
  import opened Deadlines
  import opened RunnerTurns
  import P = RunnerProtocol
  import G = SandboxCgroup

  /** How often each end of the three pipes and the socket pair was opened, or closed, by the runner. */
  datatype Ends = Ends(
    stdinRead: nat, stdinWrite: nat, stdoutRead: nat, stdoutWrite: nat,
    stderrRead: nat, stderrWrite: nat, control: nat, controlPeer: nat)

  const NONE := Ends(0, 0, 0, 0, 0, 0, 0, 0)
  const ALL := Ends(1, 1, 1, 1, 1, 1, 1, 1)

  const U64_LIMIT := 0x1_0000_0000_0000_0000
  const MAX_STRING := 0x7FFF_FFFF_FFFF_FFFF
  const READY_SIZE := 16
  const FAILED_SIZE := 8
  const TERMINATED_SIZE := 152
  const WAIT_MS := 1000
  const POLL_MS := 10

  datatype Pair = ControlPair | StdinPair | StdoutPair | StderrPair

  /** Both ends of a pair are counted. */
  function Both(e: Ends, p: Pair): Ends {
    match p
    case ControlPair => e.(control := e.control + 1, controlPeer := e.controlPeer + 1)
    case StdinPair => e.(stdinRead := e.stdinRead + 1, stdinWrite := e.stdinWrite + 1)
    case StdoutPair => e.(stdoutRead := e.stdoutRead + 1, stdoutWrite := e.stdoutWrite + 1)
    case StderrPair => e.(stderrRead := e.stderrRead + 1, stderrWrite := e.stderrWrite + 1)
  }

  function WithPipes(e: Ends, stdin: bool, stdout: bool, stderr: bool): Ends {
    Ends(e.stdinRead + Flag(stdin), e.stdinWrite + Flag(stdin), e.stdoutRead + Flag(stdout), e.stdoutWrite + Flag(stdout),
         e.stderrRead + Flag(stderr), e.stderrWrite + Flag(stderr), e.control, e.controlPeer)
  }

  /** The ends that these answers opened: socket pair, stdin, stdout and stderr are the second to fifth calls. */
  function Opened(replies: seq<Reply>): Ends {
    var control, stdin := Flag(Granted(replies, 2)), Flag(Granted(replies, 3));
    var stdout, stderr := Flag(Granted(replies, 4)), Flag(Granted(replies, 5));
    Ends(stdin, stdin, stdout, stdout, stderr, stderr, control, control)
  }

  function Flag(b: bool): nat { if b then 1 else 0 }

  /** finalize_status. */
  function FinalizeStatus(r: ExecutionResult, ws: int): (f: ExecutionResult)
    ensures f.wallTimeLimitExceeded == r.wallTimeLimitExceeded
  {
    if IfExited(ws) then r.(exitCode := ExitStatus(ws))
    else if IfSignaled(ws) then r.(terminatedBySignal := true, signalNumber := TermSignal(ws))
    else r
  }

  /** The answers that count as a killed cgroup: the kill was written, or the cgroup is missing or forbidden. */
  predicate KillAnswered(replies: seq<Reply>) {
    var fd, written := First(replies), First(Settle(Rest(replies)));
    if Erred(fd) then Denied(fd.errno) || fd.errno == ENOENT
    else written.value == 1 || (Erred(written) && Denied(written.errno))
  }

  /** cgroup.events was readable and says "populated 0". */
  ghost predicate SaysEmpty(replies: seq<Reply>) {
    var fd, text := First(replies), First(Settle(Rest(replies)));
    !Erred(fd) && !Erred(text) && SaysPopulated0(Buffered(text))
  }

  /** At most 255 bytes of cgroup.events are looked at. */
  function Buffered(r: Reply): seq<Byte> {
    if |r.data| <= 255 then r.data else r.data[..255]
  }

  const POPULATED: seq<Byte> := [112, 111, 112, 117, 108, 97, 116, 101, 100, 32]   // "populated "

  predicate OccursAt(text: seq<Byte>, i: nat) {
    i + |POPULATED| <= |text| && text[i..i + |POPULATED|] == POPULATED
  }

  /** Behind the first "populated " there is a '0'. */
  ghost predicate SaysPopulated0(text: seq<Byte>) {
    exists i: nat :: OccursAt(text, i) && (forall j: nat :: j < i ==> !OccursAt(text, j)) && i + 10 < |text| && text[i + 10] == 48
  }

  /** strstr: the first occurrence, or None. */
  method FindPopulated(text: seq<Byte>) returns (found: Option<nat>)
    ensures found.Some? ==> OccursAt(text, found.value) && forall j: nat :: j < found.value ==> !OccursAt(text, j)
    ensures found.None? ==> forall j: nat :: !OccursAt(text, j)
  {
    var i: nat := 0;
    while i + |POPULATED| <= |text|
      invariant forall j: nat :: j < i ==> !OccursAt(text, j)
    {
      if text[i..i + |POPULATED|] == POPULATED {
        assert OccursAt(text, i);
        return Some(i);
      }
      i := i + 1;
    }
    return None;
  }

  /** The file's first line is "populated 0" or "populated 1"; what follows does not matter. */
  lemma FirstLineDecides(digit: Byte, rest: seq<Byte>)
    ensures SaysPopulated0(POPULATED + [digit] + rest) <==> digit == 48
  {
    var text := POPULATED + [digit] + rest;
    assert text[0..10] == POPULATED && text[10] == digit;
    assert OccursAt(text, 0);
  }

  /** An interruption apart, both processes take the same answers for a killed and for a removed cgroup. */
  lemma ToleranceAgrees(path: Option<string>, replies: seq<Reply>)
    requires path.Some? && Settle(Rest(replies)) == Rest(replies)
    ensures KillAnswered(replies) <==> G.KillOk(path, replies)
    ensures !Erred(First(replies)) ==> (RemovalAnswered(replies) <==> G.Removed(First(Rest(replies))))
  {
  }

  /** The answers that count as removed: gone already, rmdir succeeded, or it was forbidden. */
  predicate RemovalAnswered(replies: seq<Reply>) {
    var access, rmdir := First(replies), First(Rest(replies));
    Erred(access) || !Erred(rmdir) || Denied(rmdir.errno) || rmdir.errno == ENOENT
  }

  /** A whole message that fits was received. */
  predicate Received(replies: seq<Reply>) {
    var header, payload := First(replies), First(Rest(replies));
    !Erred(header) && header.header.size <= READY_SIZE && (header.header.size > 0 ==> !Erred(payload))
  }

  /** Moved by -1 the 64-bit offset wraps around at 0, and never looks like the end of the input. */
  lemma OffsetWraps(offset: int, written: int, size: int)
    requires 0 <= offset < size <= MAX_STRING && -1 <= written <= size - offset
    ensures written >= 0 ==> (offset + written) % U64_LIMIT == offset + written
    ensures written == -1 ==> (offset + written) % U64_LIMIT != size
  {
  }

  /** What a cleanup has tried, and with what outcome. */
  datatype Step =
    | Leave(ok: bool)     // the supervisor left by itself and is reaped
    | Kill(ok: bool)      // the cgroup is killed, or cannot be
    | Look(ok: bool)      // the cgroup is empty
    | Reap(ok: bool)      // the supervisor is killed and reaped
    | Remove(ok: bool)    // the cgroup is removed, or cannot be

  datatype Outcome = Outcome(left: bool, killed: bool, empty: bool, reaped: bool, removed: bool)

  predicate Removable(o: Outcome) { o.killed && o.empty && (o.left || o.reaped) }

  /** The kill, and the look only after a successful one. */
  function SeeSteps(killed: bool, empty: bool): seq<Step> {
    if killed then [Kill(true), Look(empty)] else [Kill(false)]
  }

  /** Then the supervisor, unless it has left by itself. */
  function ReapSteps(killed: bool, empty: bool, left: bool, reaped: bool): seq<Step> {
    if left then SeeSteps(killed, empty) else SeeSteps(killed, empty) + [Reap(reaped)]
  }

  /** Everything that cleanup_after_failure tries, in order: each step that the outcome of the steps before it allows. */
  function Steps(o: Outcome): seq<Step> {
    var tried := [Leave(o.left)] + ReapSteps(o.killed, o.empty, o.left, o.reaped);
    if Removable(o) then tried + [Remove(o.removed)] else tried
  }

  /** The same for cleanup_before_ready, which waits only once and removes the cgroup even if that failed. */
  function EarlySteps(o: Outcome): seq<Step> {
    [Reap(o.reaped)] + RemoveSteps(o.killed, o.empty, o.removed)
  }

  function RemoveSteps(killed: bool, empty: bool, removed: bool): seq<Step> {
    if killed && empty then SeeSteps(killed, empty) + [Remove(removed)] else SeeSteps(killed, empty)
  }

  ghost predicate Orderly(done: seq<Step>) { exists o :: done == Steps(o) }

  /** The last step was a successful removal. */
  predicate Contained(done: seq<Step>) { done != [] && done[|done| - 1] == Remove(true) }

  /** A removal is the last step, and comes after a successful kill, then a look that found the cgroup empty, and a reap. */
  lemma RemovalIsLast(o: Outcome, i: nat)
    requires i < |Steps(o)| && Steps(o)[i].Remove?
    ensures i == |Steps(o)| - 1
    ensures exists k, l :: 0 <= k < l < i && Steps(o)[k] == Kill(true) && Steps(o)[l] == Look(true)
    ensures Leave(true) in Steps(o)[..i] || Reap(true) in Steps(o)[..i]
  {
    assert Steps(o)[1] == Kill(o.killed);
    if o.killed { assert Steps(o)[2] == Look(o.empty); }
    assert Steps(o)[..i][0] == Leave(o.left);
    if Removable(o) && !o.left { assert Steps(o)[..i][3] == Reap(o.reaped); }
  }

  lemma ContainedExactly(o: Outcome)
    ensures Contained(Steps(o)) <==> Removable(o) && o.removed
    ensures Contained(EarlySteps(o)) <==> o.killed && o.empty && o.removed
  {
  }

  /**
   * Which failure a run returns by the call that failed: a lost Terminate leaves RunnerFailure,
   * other calls ask whether containment succeeded; for the control socket see ControlStatus.
   */
  predicate FailureStatus(e: Entry, status: ExecutionStatus, done: seq<Step>) {
    match e
    case Asked(_, _) => status == RunnerFailure
    case Told(_) => status == RunnerFailure || status == SandboxFailure
    case _ => status == if Contained(done) then RunnerFailure else SandboxFailure
  }

  /** A bad header, or a supervisor that cannot be reaped, is the runner's failure, a setup failure the sandbox's. */
  function ControlStatus(m: Control, done: seq<Step>): ExecutionStatus {
    match m
    case BadPayload => if Contained(done) then RunnerFailure else SandboxFailure
    case SetupFailure => SandboxFailure
    case _ => RunnerFailure
  }

  /** What the runner makes of the control socket after Ready. */
  datatype Control = BadHeader | BadPayload | SetupFailure | Ended(waitStatus: int)

  /** The only messages it accepts are a setup failure and an end, each with its exact size. */
  function Interpret(replies: seq<Reply>): Control {
    var header, payload := First(replies), First(Rest(replies));
    var failed := header.header == Header(Code(SetupFailed), FAILED_SIZE);
    var ended := header.header == Header(Code(Terminated), TERMINATED_SIZE);
    if Erred(header) || !(failed || ended) then BadHeader
    else if Erred(payload) || |payload.data| != header.header.size then BadPayload
    else if failed then SetupFailure
    else Ended(DecodeTerminated(payload.data))
  }

  /** The two replies bring this message. */
  predicate Brings(replies: seq<Reply>, m: Wire.Message) {
    var header, payload := First(replies), First(Rest(replies));
    !Erred(header) && header.header.code == m.code && header.header.size == |m.payload| && !Erred(payload) && payload.data == m.payload
  }

  /** Exactly the messages whose payload fits are received: 16 bytes is what Ready carries. */
  lemma ReadyUnderstood(replies: seq<Reply>, m: Wire.Message)
    requires Brings(replies, m) && m.payload != []
    ensures Received(replies) <==> |m.payload| <= 16
  {
  }

  /** What the supervisor reports is what the runner makes of it, and nothing else is taken for an end. */
  lemma ReportUnderstood(replies: seq<Reply>, ws: I32)
    ensures Interpret(replies) == Ended(ws) <==>
            exists rest :: |rest| == 148 && Brings(replies, Wire.Message(Code(Terminated), TerminatedPayload(ws, rest)))
    ensures Interpret(replies).SetupFailure? <==> exists p: seq<Byte> :: |p| == 8 && Brings(replies, Wire.Message(Code(SetupFailed), p))
  {
    var payload := First(Rest(replies)).data;
    if Interpret(replies) == Ended(ws) {
      TerminatedSplit(payload);
      assert Brings(replies, Wire.Message(Code(Terminated), TerminatedPayload(ws, payload[4..])));
    }
    if rest :| |rest| == 148 && Brings(replies, Wire.Message(Code(Terminated), TerminatedPayload(ws, rest))) {
      TerminatedRoundTrip(ws, rest);
    }
    if Interpret(replies).SetupFailure? {
      assert Brings(replies, Wire.Message(Code(SetupFailed), payload));
    }
  }

  class Runner {
    const k: Script
    const supervisor: int
    const input: seq<Byte>
    const deadline: int

    ghost var opens: Ends
    ghost var closes: Ends
    var stdinOpen: bool
    var stdoutOpen: bool
    var stderrOpen: bool
    var controlOpen: bool
    var terminationRequested: bool
    var reaped: bool
    var finished: bool
    var inputOffset: int
    ghost var fed: seq<Byte>
    var out: seq<Byte>
    var err: seq<Byte>
    var status: int
    var result: ExecutionResult
    const start: int
    ghost var heads: seq<Head>
    ghost var sleeps: nat
    ghost var done: seq<Step>
    ghost var log: Log
    ghost var at: State

    ghost var view: P.View
    ghost var trace: P.Run

    ghost predicate Kept()
      reads `view, `trace
    {
      supervisor > 0 && |input| <= MAX_STRING && P.Accepts(trace, view)
    }

    constructor (k: Script, supervisor: int, input: seq<Byte>, start: int, wallLimitMs: nat)
      requires supervisor > 0 && |input| <= MAX_STRING
      ensures Kept() && view == P.START && Fresh()
      ensures this.k == k && this.input == input && deadline == start + wallLimitMs * NS_PER_MS
    {
      this.k, this.supervisor, this.input, this.start := k, supervisor, input, start;
      deadline := start + wallLimitMs * NS_PER_MS;
      opens, closes := NONE, NONE;
      stdinOpen, stdoutOpen, stderrOpen, controlOpen := true, true, true, true;
      terminationRequested, reaped, finished := false, false, false;
      inputOffset, fed, out, err, status := 0, [], [], [], 0;
      result := P.FailedResult(RunnerFailure, Created, false);
      heads, sleeps, done := [], 0, [];
      log, at := Empty(Setup(|input|, start + wallLimitMs * NS_PER_MS)), Start(Setup(|input|, start + wallLimitMs * NS_PER_MS));
      view, trace := P.START, P.EMPTY;
    }

    /** Nothing has happened that the loop would see. */
    ghost predicate Unused()
      reads this
    {
      && log == Empty(Plan()) && at == Start(Plan()) && heads == [] && sleeps == 0 && done == [] && fed == out == err == [] && inputOffset == 0
      && stdinOpen && stdoutOpen && stderrOpen && controlOpen && !terminationRequested && !reaped && !finished
    }

    ghost predicate Fresh()
      reads this
    {
      Unused() && opens == closes == NONE && result == P.FailedResult(RunnerFailure, Created, false)
    }

    ghost function Plan(): Setup { Setup(|input|, deadline) }

    /** The log of the loop's calls is in order so far, and this is where it leads. */
    ghost predicate Noted()
      reads `log, `at
    {
      Follows(Plan(), log, at)
    }

    ghost method Note(e: Entry)
      requires Noted() && Fits(Plan(), at, e)
      modifies this`log, this`at
      ensures Noted() && log == Extended(old(log), e, at) && at == RunnerTurns.Step(Plan(), old(at), e)
    {
      FollowsNext(Plan(), log, at, e);
      at := RunnerTurns.Step(Plan(), at, e);
      log := Extended(log, e, at);
    }

    ghost method Emit(e: P.Event)
      requires P.Accepts(trace, view) && P.Enabled(view, e)
      modifies this`view, this`trace
      ensures P.Accepts(trace, view) && view == P.Next(old(view), e)
    {
      P.AcceptsStep(trace, view, e);
      view := P.Next(view, e);
      trace := P.Record(trace, e, view);
    }

    /** socketpair or pipe. */
    method Open(p: Pair, ghost all: seq<Reply>, ghost n: nat) returns (ok: bool)
      requires k.replies == Drop(all, n)
      modifies this`opens, k
      ensures (ok <==> !Erred(At(all, n))) && k.replies == Drop(all, n + 1)
      ensures opens == if ok then Both(old(opens), p) else old(opens)
    {
      var r := k.CallNth(all, n);
      ok := !Erred(r);
      if ok { opens := Both(opens, p); }
    }

    method Close(p: Pair)
      modifies this`closes
      ensures closes == Both(old(closes), p)
    {
      closes := Both(closes, p);
    }

    /** SIGPIPE is ignored; then the socket pair, three pipes, fork. A failure closes exactly what was opened. */
    method Acquire() returns (forked: bool)
      requires closes == NONE && opens == NONE
      modifies this`closes, this`opens, k
      ensures forked <==> Granted(old(k.replies), 6)
      ensures opens == Opened(old(k.replies))
      ensures closes == if forked then NONE else opens
    {
      var guard := k.CallNth(old(k.replies), 0);
      if Erred(guard) { return false; }
      var ok := Open(ControlPair, old(k.replies), 1);
      if !ok { return false; }
      forked := OpenPipes(old(k.replies));
      if !forked { Close(ControlPair); }
    }

    /** The three pipes and the fork; a failure closes the pipes that were opened. */
    method OpenPipes(ghost all: seq<Reply>) returns (forked: bool)
      requires k.replies == Drop(all, 2) && Granted(all, 2)
      modifies this`closes, this`opens, k
      ensures forked <==> Granted(all, 6)
      ensures opens == WithPipes(old(opens), Granted(all, 3), Granted(all, 4), Granted(all, 5))
      ensures closes == if forked then old(closes) else WithPipes(old(closes), Granted(all, 3), Granted(all, 4), Granted(all, 5))
    {
      GrantedNext(all, 2);
      GrantedNext(all, 3);
      GrantedNext(all, 4);
      GrantedNext(all, 5);
      var ok := Open(StdinPair, all, 2);
      if !ok { return false; }
      ok := Open(StdoutPair, all, 3);
      if !ok {
        Close(StdinPair);
        return false;
      }
      ok := Open(StderrPair, all, 4);
      if !ok {
        Close(StdinPair);
        Close(StdoutPair);
        return false;
      }
      var fork := k.CallNth(all, 5);
      if Erred(fork) {
        Close(StdinPair);
        Close(StdoutPair);
        Close(StderrPair);
        return false;
      }
      return true;
    }

    /** The runner reports SandboxFailure or RunnerFailure and has closed these ends. */
    ghost predicate Left(closed: Ends)
      reads `view, `trace, `result, `closes
    {
      Kept() && view.phase == P.Returned(result) && closes == closed
    }

    method Launch() returns (forked: bool)
      requires Kept() && view == P.START && Fresh()
      modifies this`closes, this`opens, this`result, this`view, this`trace, k
      ensures opens == Opened(old(k.replies)) && (forked <==> Granted(old(k.replies), 6))
      ensures forked ==> Kept() && opens == ALL && closes == NONE.(controlPeer := 1)
      ensures forked ==> view == P.START.(phase := P.AwaitingReady, forked := true) && result == old(result)
      ensures !forked ==> Left(opens) && !view.forked && !view.ready && !result.wallTimeLimitExceeded
    {
      forked := Acquire();
      if forked {
        closes := closes.(controlPeer := closes.controlPeer + 1);
        Emit(P.Forked);
      } else {
        result := P.FailedResult(RunnerFailure, ExecutionState.RunnerFailed, false);
        Emit(P.NotForked);
      }
    }

    // -------------------------------------------------------------------------------------
    // The execution cgroup, seen from outside
    // -------------------------------------------------------------------------------------

    /** kill_execution_cgroup: a missing or forbidden cgroup counts as killed. */
    method KillGroup() returns (ok: bool)
      requires Kept() && (view.phase.Cleanup? || view.phase.EarlyCleanup?)
      modifies this`view, this`trace, this`done, k
      ensures Kept() && view == old(view)
      ensures ok <==> KillAnswered(old(k.replies))
      ensures done == old(done) + [Kill(ok)]
    {
      var fd := k.Call();
      if Erred(fd) {
        ok := Denied(fd.errno) || fd.errno == ENOENT;
      } else {
        var written := k.Retry();
        Emit(P.KilledGroup);
        ok := (Erred(written) && Denied(written.errno)) || written.value == 1;
      }
      done := done + [Kill(ok)];
    }

    /** is_execution_cgroup_empty: "populated 0" was read; any failure to read counts as populated. */
    method GroupEmpty() returns (empty: bool)
      modifies k
      ensures empty <==> SaysEmpty(old(k.replies))
    {
      var fd := k.Call();
      if Erred(fd) { return false; }
      var r := k.Retry();
      if Erred(r) { return false; }
      var text := Buffered(r);
      var found := FindPopulated(text);
      return found.Some? && found.value + |POPULATED| < |text| && text[found.value + |POPULATED|] == 48;
    }

    /** cleanup_execution_cgroup. */
    method RemoveGroup() returns (ok: bool)
      modifies this`done, k
      ensures ok <==> RemovalAnswered(old(k.replies))
      ensures done == old(done) + [Remove(ok)]
    {
      var access := k.Call();
      ok := true;
      if !Erred(access) {
        var rmdir := k.Call();
        ok := !Erred(rmdir) || Denied(rmdir.errno) || rmdir.errno == ENOENT;
      }
      done := done + [Remove(ok)];
    }

    /**
     * Looks until the cgroup is empty, sleeping 10 ms after each look that finds it populated, up
     * to 100 times, and then looks once more. It stops early only if a look, at `early`, said so.
     */
    method AwaitEmpty() returns (empty: bool, ghost last: seq<Reply>, ghost early: seq<Reply>)
      modifies this`sleeps, this`done, k
      ensures empty <==> SaysEmpty(last)
      ensures SaysEmpty(early) || sleeps == old(sleeps) + 100
      ensures done == old(done) + [Look(empty)]
      ensures old(sleeps) <= sleeps <= old(sleeps) + 100
    {
      var elapsed := 0;
      early := [];
      while elapsed < WAIT_MS
        invariant 0 <= elapsed <= WAIT_MS
        invariant elapsed == 10 * (sleeps - old(sleeps)) && done == old(done)
      {
        early := k.replies;
        var now := GroupEmpty();
        if now { break; }
        sleeps := sleeps + 1;
        elapsed := elapsed + POLL_MS;
      }
      last := k.replies;
      empty := GroupEmpty();
      done := done + [Look(empty)];
    }

    /** The kill, and only after a successful one the look whether the cgroup is empty. */
    method KillAndSee() returns (killed: bool, empty: bool)
      requires Kept() && (view.phase.Cleanup? || view.phase.EarlyCleanup?)
      modifies this`view, this`trace, this`sleeps, this`done, k
      ensures Kept() && view == old(view)
      ensures old(sleeps) <= sleeps <= old(sleeps) + 100
      ensures killed <==> KillAnswered(old(k.replies))
      ensures done == old(done) + SeeSteps(killed, empty)
    {
      empty := false;
      killed := KillGroup();
      if killed {
        ghost var last, early;
        empty, last, early := AwaitEmpty();
      }
    }

    /** A blocking wait for the supervisor. */
    method WaitSupervisor() returns (ok: bool)
      requires Kept() && P.Enabled(view, P.ReapedSupervisor)
      modifies this`view, this`trace, k
      ensures Kept() && view == if ok then P.AfterReap(old(view)) else old(view)
      ensures ok <==> !Erred(First(Settle(old(k.replies))))
      ensures |k.replies| <= |old(k.replies)|
    {
      var waited, _ := k.Wait(supervisor, false);
      ok := waited == supervisor;
      if ok {
        Emit(P.ReapedSupervisor);
        P.ReapNext(old(view));
      }
    }

    /** kill(SIGKILL) and a blocking wait. */
    method KillAndReap() returns (ok: bool)
      requires Kept() && (view.phase.Cleanup? || view.phase.EarlyCleanup?) && view.reaps == 0
      modifies this`view, this`trace, this`done, k
      ensures Kept() && (view == if ok then P.AfterReap(old(view)) else old(view)) && done == old(done) + [Reap(ok)]
      ensures ok <==> !Erred(First(Settle(Rest(old(k.replies)))))
    {
      var _ := k.Call();
      Emit(P.KilledSupervisor);
      ok := WaitSupervisor();
      done := done + [Reap(ok)];
    }

    // -------------------------------------------------------------------------------------
    // Before Ready
    // -------------------------------------------------------------------------------------

    ghost predicate Awaiting()
      reads `view, `trace, `closes, `result
    {
      && Kept() && view == P.START.(phase := P.AwaitingReady, forked := true)
      && closes == NONE.(controlPeer := 1)
      && result == P.FailedResult(RunnerFailure, Created, false)
    }

    /** The three child-side ends that no return before Ready closes. */
    static const LEAKED := ALL.(stdinRead := 0, stdoutWrite := 0, stderrWrite := 0)

    method CloseParentSide()
      modifies this`closes
      ensures closes == old(closes).(control := old(closes).control + 1, stdinWrite := old(closes).stdinWrite + 1,
                                     stdoutRead := old(closes).stdoutRead + 1, stderrRead := old(closes).stderrRead + 1)
    {
      closes := closes.(control := closes.control + 1);
      CloseParentPipes();
    }

    method CloseParentPipes()
      modifies this`closes
      ensures closes == old(closes).(stdinWrite := old(closes).stdinWrite + 1, stdoutRead := old(closes).stdoutRead + 1, stderrRead := old(closes).stderrRead + 1)
    {
      closes := closes.(stdinWrite := closes.stdinWrite + 1);
      closes := closes.(stdoutRead := closes.stdoutRead + 1);
      closes := closes.(stderrRead := closes.stderrRead + 1);
    }

    /** cleanup_before_ready; each of its returns closes the same four ends. */
    method CleanupBeforeReady() returns (ok: bool)
      requires Kept() && view.phase.EarlyCleanup? && view.reaps == 0 && closes == NONE.(controlPeer := 1) && done == []
      modifies this`view, this`trace, this`closes, this`sleeps, this`done, k
      ensures Kept() && view == old(view).(reaps := view.reaps) && closes == LEAKED
      ensures (exists o :: done == EarlySteps(o) && view.reaps == Flag(o.reaped)) && (ok <==> Contained(done))
      ensures old(sleeps) <= sleeps <= old(sleeps) + 100
    {
      ghost var o;
      ok, o := ContainEarly();
      ContainedExactly(o);
      CloseParentSide();
    }

    /** Its containment: the cgroup is removed only after the kill and then an empty cgroup, but even if the wait failed. */
    method ContainEarly() returns (ok: bool, ghost o: Outcome)
      requires Kept() && view.phase.EarlyCleanup? && view.reaps == 0 && done == []
      modifies this`view, this`trace, this`sleeps, this`done, k
      ensures Kept() && view == if o.reaped then P.AfterReap(old(view)) else old(view)
      ensures done == EarlySteps(o) && (ok <==> o.killed && o.empty && o.removed)
      ensures old(sleeps) <= sleeps <= old(sleeps) + 100
    {
      var reaped := KillAndReap();
      assert done == [Reap(reaped)];
      var killed, empty, removed := KillSeeRemove();
      ok := killed && empty && removed;
      o := Outcome(false, killed, empty, reaped, removed);
    }

    method KillSeeRemove() returns (killed: bool, empty: bool, removed: bool)
      requires Kept() && view.phase.EarlyCleanup?
      modifies this`view, this`trace, this`sleeps, this`done, k
      ensures Kept() && view == old(view)
      ensures done == old(done) + RemoveSteps(killed, empty, removed)
      ensures old(sleeps) <= sleeps <= old(sleeps) + 100
    {
      killed, empty := KillAndSee();
      removed := false;
      if killed && empty { removed := RemoveGroup(); }
    }

    /** receive_message for Ready. */
    method AwaitReady() returns (ready: bool)
      requires Awaiting() && done == []
      modifies this`view, this`trace, this`closes, this`sleeps, this`result, this`done, k
      ensures ready <==> Received(old(k.replies)) && First(old(k.replies)).header.code == Code(Ready)
      ensures !ready ==> result.status == if Received(old(k.replies)) && First(old(k.replies)).header.code != Code(SetupFailed) then RunnerFailure else SandboxFailure
      ensures ready ==> Kept() && view == P.START.(phase := P.Looping, forked := true, ready := true)
      ensures ready ==> closes == NONE.(controlPeer := 1) && result == old(result) && sleeps == old(sleeps) && done == []
      ensures !ready ==> Left(LEAKED) && view.forked && !view.ready && !result.wallTimeLimitExceeded
      ensures old(sleeps) <= sleeps <= old(sleeps) + 100
    {
      var message := k.Call();
      var ok := !Erred(message) && message.header.size <= READY_SIZE;
      if ok && message.header.size > 0 {
        var payload := k.Call();
        ok := !Erred(payload);
      }
      if !ok {
        FailEarly(SandboxFailure, ExecutionState.SandboxFailed);
        return false;
      }
      if message.header.code == Code(SetupFailed) {
        AcceptEarlyFailure();
        return false;
      }
      if message.header.code != Code(Ready) {
        FailEarly(RunnerFailure, ExecutionState.RunnerFailed);
        return false;
      }
      Emit(P.GotReady);
      return true;
    }

    method AcceptEarlyFailure()
      requires Awaiting()
      modifies this`view, this`trace, this`closes, this`result, k
      ensures Left(LEAKED) && view.forked && !view.ready && !result.wallTimeLimitExceeded && result.status == SandboxFailure
      ensures view.reaps == Flag(!Erred(First(Settle(old(k.replies)))))
    {
      Emit(P.GotEarlyFailure);
      closes := closes.(control := closes.control + 1);
      var _ := WaitSupervisor();
      CloseParentPipes();
      ReturnFailed(SandboxFailure, ExecutionState.SandboxFailed);
    }

    method FailEarly(status: ExecutionStatus, state: ExecutionState)
      requires Awaiting() && done == []
      requires (status == SandboxFailure && state == ExecutionState.SandboxFailed) || (status == RunnerFailure && state == ExecutionState.RunnerFailed)
      modifies this`view, this`trace, this`closes, this`sleeps, this`result, this`done, k
      ensures Left(LEAKED) && view.forked && !view.ready && !result.wallTimeLimitExceeded && result.status == status
      ensures old(sleeps) <= sleeps <= old(sleeps) + 100
    {
      Emit(P.EarlyTrouble);
      var _ := CleanupBeforeReady();
      ReturnFailed(status, state);
    }

    // -------------------------------------------------------------------------------------
    // After Ready
    // -------------------------------------------------------------------------------------

    /** Each end is closed once if its flag is down, and not at all if it is up. */
    ghost predicate Books()
      reads `closes, `stdinOpen, `stdoutOpen, `stderrOpen, `controlOpen
    {
      closes == Ends(1, Flag(!stdinOpen), Flag(!stdoutOpen), 1, Flag(!stderrOpen), 1, Flag(!controlOpen), 1)
    }

    /** What was fed is a prefix of the input, and the offset is its length while stdin is open. */
    ghost predicate Feeding()
      reads `fed, `stdinOpen, `inputOffset
    {
      fed <= input && (stdinOpen ==> inputOffset == |fed| < |input|)
    }

    /** The loop head while the submission runs. */
    ghost predicate Live()
      reads `view, `trace, `closes, `stdinOpen, `stdoutOpen, `stderrOpen, `controlOpen, `fed, `inputOffset, `finished, `reaped, `terminationRequested, `out, `err, `result
    {
      && Kept() && Books() && Feeding()
      && !finished && controlOpen && !reaped
      && view.phase.Looping? && view.ready && view.forked && view.reaps == 0
      && view.terminationRequested == view.wallExceeded == terminationRequested
      && view.stdout == out && (stdoutOpen ==> !view.stdoutEof)
      && view.stderr == err && (stderrOpen ==> !view.stderrEof)
      && result == P.FailedResult(RunnerFailure, Created, terminationRequested)
    }

    /** The log says that these ends are open, and that this much was fed and captured. */
    ghost predicate Agrees(stdin: bool, stdout: bool, stderr: bool, fed: nat, out: seq<Byte>, err: seq<Byte>)
      reads `log, `at, `terminationRequested
    {
      && Noted() && !at.stopped && !at.over && at.asked == terminationRequested
      && at.stdin == stdin && at.stdout == stdout && at.stderr == stderr
      && at.fed == fed && at.out == out && at.err == err
    }

    /** The variables agree with the log. */
    ghost predicate InStep()
      reads `log, `at, `stdinOpen, `stdoutOpen, `stderrOpen, `terminationRequested, `fed, `out, `err
    {
      Agrees(stdinOpen, stdoutOpen, stderrOpen, |fed|, out, err)
    }

    /** This item is the next to be served. */
    ghost predicate Logging(item: Item)
      reads `log, `at
    {
      Noted() && !at.stopped && !at.over && at.pending != [] && at.pending[0] == item
    }

    /** The last call in the log failed; `keep`: it was the Terminate at the deadline, after which the status is left as it is. */
    ghost predicate Halted(keep: bool)
      reads `log, `at, `fed
    {
      && Noted() && at.stopped && at.fed == |fed|
      && log.entries != [] && log.entries[|log.entries| - 1].Asked? == keep && !log.entries[|log.entries| - 1].Told?
    }

    /** The status fits the call that failed. */
    ghost predicate Fair()
      reads `log, `result, `done
    {
      log.entries != [] && FailureStatus(log.entries[|log.entries| - 1], result.status, done)
    }

    /** The loop was left with a failure, because a call in the log failed. */
    ghost predicate Dropped()
      reads `view, `trace, `result, `closes, `fed, `log, `at, `done
    {
      && Fair() && Gone()
      && Noted() && at.stopped && at.fed == |fed|
    }

    /** The loop head once Terminated was handled: everything is closed and the supervisor is reaped. */
    ghost predicate Over()
      reads `view, `trace, `closes, `stdinOpen, `stdoutOpen, `stderrOpen, `controlOpen, `fed, `finished, `reaped, `out, `err, `result, `status
    {
      && Kept() && Books() && fed <= input
      && finished && !controlOpen && reaped && !stdinOpen && !stdoutOpen && !stderrOpen
      && view.phase.Settled? && view.ready && view.forked && view.reported == Some(status)
      && view.stdout == out && view.stderr == err
      && result == FinalizeStatus(P.FailedResult(RunnerFailure, Created, view.wallExceeded), status)
    }

    /** Between a failure in the loop and the end of the cleanup. */
    ghost predicate Failing()
      reads `view, `trace, `fed, `result
    {
      && Kept() && fed <= input
      && view.phase.Cleanup? && view.ready && view.forked && view.reaps <= 1
      && result == P.FailedResult(RunnerFailure, Created, view.wallExceeded)
    }

    /** A look whether the supervisor has left by itself. */
    method PollSupervisor() returns (waited: int)
      requires Kept() && view.phase.Cleanup? && view.reaps == 0
      modifies this`view, this`trace, k
      ensures Kept() && (view == if waited == supervisor then P.AfterReap(old(view)) else old(view))
      ensures waited != supervisor ==> trace == old(trace)
      ensures waited == -1 <==> Erred(First(Settle(old(k.replies))))
      ensures waited == 0 <==> First(Settle(old(k.replies))).value == 0
    {
      var status;
      waited, status := k.Wait(supervisor, true);
      if waited == supervisor {
        Emit(P.ReapedSupervisor);
        P.ReapNext(old(view));
      }
    }

    /** Waits up to 100 times 10 ms for the supervisor to leave by itself; it stops early only if a wait, at `last`, failed. */
    method AwaitSupervisor() returns (gone: bool, ghost last: seq<Reply>)
      requires Kept() && view.phase.Cleanup? && view.reaps == 0
      modifies this`view, this`trace, this`sleeps, this`done, k
      ensures Kept() && (view == if gone then P.AfterReap(old(view)) else old(view)) && done == old(done) + [Leave(gone)]
      ensures gone || Erred(First(Settle(last))) || sleeps == old(sleeps) + 100
      ensures old(sleeps) <= sleeps <= old(sleeps) + 100
    {
      var elapsed := 0;
      last := [];
      while elapsed < WAIT_MS
        invariant 0 <= elapsed <= WAIT_MS
        invariant elapsed == 10 * (sleeps - old(sleeps))
        invariant view == old(view) && trace == old(trace) && done == old(done)
      {
        last := k.replies;
        var waited := PollSupervisor();
        if waited == supervisor {
          done := done + [Leave(true)];
          return true, last;
        }
        if waited == -1 { break; }
        sleeps := sleeps + 1;
        elapsed := elapsed + POLL_MS;
      }
      done := done + [Leave(false)];
      return false, last;
    }

    /** Terminate, if the channel takes it; a broken channel is closed. */
    method AskToTerminate()
      requires Failing() && Books()
      modifies this`view, this`trace, this`terminationRequested, this`closes, this`controlOpen, k
      ensures Failing() && Books() && view.reaps == old(view.reaps) && view.wallExceeded == old(view.wallExceeded)
      ensures controlOpen <==> old(controlOpen) && !Erred(First(old(k.replies)))
      ensures controlOpen ==> terminationRequested && view.terminationRequested
    {
      if controlOpen {
        var sent := k.Call();
        if !Erred(sent) {
          terminationRequested := true;
          Emit(P.CleanupTerminate);
        } else {
          closes := closes.(control := closes.control + 1);
          controlOpen := false;
        }
      }
    }

    /**
     * The containment part of cleanup_after_failure: every step that it should try is tried, and
     * success means that the last of them, the removal, was reached and done or tolerated.
     */
    method Contain() returns (ok: bool)
      requires Failing() && view.reaps == 0 && done == []
      modifies this`view, this`trace, this`sleeps, this`done, k
      ensures Failing() && view.wallExceeded == old(view.wallExceeded)
      ensures old(sleeps) <= sleeps <= old(sleeps) + 200
      ensures Orderly(done) && (ok <==> Contained(done)) && (ok ==> view.reaps == 1)
    {
      ghost var o;
      ok, o := TrySteps();
      ContainedExactly(o);
    }

    method TrySteps() returns (ok: bool, ghost o: Outcome)
      requires Failing() && view.reaps == 0 && done == []
      modifies this`view, this`trace, this`sleeps, this`done, k
      ensures Failing() && view.wallExceeded == old(view.wallExceeded) && view.reaps == Flag(o.left || o.reaped)
      ensures old(sleeps) <= sleeps <= old(sleeps) + 200
      ensures done == Steps(o) && (ok <==> Removable(o) && o.removed)
    {
      var left, _ := AwaitSupervisor();
      assert done == [Leave(left)];
      var killed, empty, reaped := KillThenReap(left);
      ok := killed && empty && (left || reaped);
      o := Outcome(left, killed, empty, reaped, false);
      if ok {
        ok := RemoveGroup();
        o := o.(removed := ok);
      }
    }

    method KillThenReap(left: bool) returns (killed: bool, empty: bool, reaped: bool)
      requires Failing() && view.reaps == Flag(left)
      modifies this`view, this`trace, this`sleeps, this`done, k
      ensures Failing() && view.wallExceeded == old(view.wallExceeded) && view.reaps == Flag(left || reaped)
      ensures old(sleeps) <= sleeps <= old(sleeps) + 100
      ensures done == old(done) + ReapSteps(killed, empty, left, reaped)
    {
      killed, empty := KillAndSee();
      reaped := false;
      if !left { reaped := KillAndReap(); }
    }

    /** cleanup_after_failure: stops feeding, contains, and closes whatever is still open. */
    method CleanupAfterFailure() returns (ok: bool)
      requires Failing() && Books() && view.reaps == 0 && done == []
      modifies this`view, this`trace, this`sleeps, this`done, this`closes, this`stdinOpen, this`stdoutOpen, this`stderrOpen,
               this`controlOpen, this`terminationRequested, k
      ensures Failing() && closes == ALL && view.wallExceeded == old(view.wallExceeded)
      ensures old(sleeps) <= sleeps <= old(sleeps) + 200
      ensures Orderly(done) && (ok <==> Contained(done)) && (ok ==> view.reaps == 1)
    {
      if stdinOpen {
        closes := closes.(stdinWrite := closes.stdinWrite + 1);
        stdinOpen := false;
      }
      AskToTerminate();
      ok := Contain();
      CloseRest();
    }

    method CloseRest()
      requires Books() && !stdinOpen
      modifies this`closes, this`stdoutOpen, this`stderrOpen, this`controlOpen
      ensures closes == ALL
    {
      if stdoutOpen {
        closes := closes.(stdoutRead := closes.stdoutRead + 1);
        stdoutOpen := false;
      }
      if stderrOpen {
        closes := closes.(stderrRead := closes.stderrRead + 1);
        stderrOpen := false;
      }
      if controlOpen {
        closes := closes.(control := closes.control + 1);
        controlOpen := false;
      }
    }

    /** A failure inside the loop: cleanup, and then a failure status with the state left at Created. */
    method Fail(keepStatus: bool)
      requires Live() && done == []
      modifies this`view, this`trace, this`sleeps, this`done, this`closes, this`stdinOpen, this`stdoutOpen,
               this`stderrOpen, this`controlOpen, this`terminationRequested, this`result, k
      ensures Left(ALL) && view.ready && view.forked && fed <= input
      ensures result.state == Created && result.wallTimeLimitExceeded == old(result.wallTimeLimitExceeded)
      ensures old(sleeps) <= sleeps <= old(sleeps) + 200
      ensures Orderly(done) && result.status == if keepStatus || Contained(done) then RunnerFailure else SandboxFailure
    {
      EnterCleanup();
      var ok := CleanupAfterFailure();
      if !keepStatus && !ok {
        result := result.(status := SandboxFailure);
      }
      Emit(P.ReturnedFailed(result.status));
    }

    method EnterCleanup()
      requires Live()
      modifies this`view, this`trace
      ensures Failing() && Books() && view.reaps == 0 && view.wallExceeded == result.wallTimeLimitExceeded
    {
      Emit(P.Trouble);
    }

    /** The same, for a loop whose log says that a call failed. */
    method Abandon(keepStatus: bool)
      requires Live() && done == [] && Halted(keepStatus)
      modifies this`view, this`trace, this`sleeps, this`done, this`closes, this`stdinOpen, this`stdoutOpen,
               this`stderrOpen, this`controlOpen, this`terminationRequested, this`result, k
      ensures Dropped() && result.wallTimeLimitExceeded == old(result.wallTimeLimitExceeded)
      ensures old(sleeps) <= sleeps <= old(sleeps) + 200
    {
      Fail(keepStatus);
    }

    method ClosePipes()
      requires Books()
      modifies this`closes, this`stdinOpen, this`stdoutOpen, this`stderrOpen
      ensures Books() && !stdinOpen && !stdoutOpen && !stderrOpen
    {
      if stdinOpen {
        closes := closes.(stdinWrite := closes.stdinWrite + 1);
        stdinOpen := false;
      }
      if stdoutOpen {
        closes := closes.(stdoutRead := closes.stdoutRead + 1);
        stdoutOpen := false;
      }
      if stderrOpen {
        closes := closes.(stderrRead := closes.stderrRead + 1);
        stderrOpen := false;
      }
    }

    /** finish_supervisor_terminal: close the channel, then wait for the supervisor. */
    method FinishSupervisorTerminal() returns (ok: bool)
      requires Kept() && Books() && controlOpen && view.reaps == 0 && (view.phase.TerminatedRead? || view.phase.FailureRead?)
      modifies this`view, this`trace, this`closes, this`controlOpen, this`reaped, k
      ensures Kept() && Books() && !controlOpen && (ok ==> reaped)
      ensures view == if ok then P.AfterReap(old(view)) else old(view)
      ensures ok <==> !Erred(First(Settle(old(k.replies))))
      ensures |k.replies| <= |old(k.replies)|
    {
      if controlOpen {
        closes := closes.(control := closes.control + 1);
        controlOpen := false;
      }
      ok := WaitSupervisor();
      if ok { reaped := true; }
    }

    /** The supervisor's last message was read; nothing was done about it yet. */
    ghost predicate Told()
      reads `view, `trace, `closes, `stdinOpen, `stdoutOpen, `stderrOpen, `controlOpen, `fed, `out, `err, `result
    {
      && Kept() && Books() && fed <= input && controlOpen
      && view.ready && view.forked && view.reaps == 0 && view.stdout == out && view.stderr == err
      && result == P.FailedResult(RunnerFailure, Created, view.wallExceeded)
    }

    method NoteFailure()
      requires Live()
      modifies this`view, this`trace
      ensures Told() && view.phase.FailureRead?
    {
      Emit(P.GotFailure);
    }

    method AcceptFailure()
      requires Told() && view.phase.FailureRead?
      modifies this`view, this`trace, this`closes, this`stdinOpen, this`stdoutOpen, this`stderrOpen, this`controlOpen,
               this`reaped, this`result, k
      ensures Left(ALL) && view.ready && view.forked && fed <= input && result.status == SandboxFailure
      ensures view.reaps == Flag(!Erred(First(Settle(old(k.replies)))))
      ensures result.wallTimeLimitExceeded == old(result.wallTimeLimitExceeded)
    {
      var _ := FinishSupervisorTerminal();
      ClosePipes();
      ReturnFailed(SandboxFailure, Created);
    }

    method NoteTerminated(waitStatus: int)
      requires Live()
      modifies this`view, this`trace, this`finished, this`status
      ensures Told() && view.phase.TerminatedRead? && view.reported == Some(status)
      ensures finished && status == waitStatus
    {
      Emit(P.GotTerminated(waitStatus));
      status := waitStatus;
      finished := true;
    }

    /** Terminated: reap, take over the status, then drop whatever is still unread. */
    method AcceptTerminated() returns (returned: bool)
      requires Told() && view.phase.TerminatedRead? && view.reported == Some(status) && finished
      modifies this`view, this`trace, this`closes, this`stdinOpen, this`stdoutOpen, this`stderrOpen, this`controlOpen,
               this`reaped, this`result, k
      ensures returned ==> Gone()
      ensures !returned ==> Over() && |k.replies| <= |old(k.replies)|
      ensures returned <==> Erred(First(Settle(old(k.replies))))
      ensures result.wallTimeLimitExceeded == old(result.wallTimeLimitExceeded)
      ensures returned ==> result.status == RunnerFailure
    {
      var ok := FinishSupervisorTerminal();
      if !ok {
        ClosePipes();
        ReturnFailed(RunnerFailure, ExecutionState.RunnerFailed);
        return true;
      }
      TakeOver();
      return false;
    }

    method TakeOver()
      requires Kept() && Books() && fed <= input && finished && !controlOpen && reaped
      requires view.phase.Settled? && view.ready && view.forked && view.reported == Some(status) && view.stdout == out && view.stderr == err
      requires result == P.FailedResult(RunnerFailure, Created, view.wallExceeded)
      modifies this`closes, this`stdinOpen, this`stdoutOpen, this`stderrOpen, this`result
      ensures Over() && result.wallTimeLimitExceeded == old(result.wallTimeLimitExceeded)
    {
      ClosePipes();
      result := FinalizeStatus(result, status);
    }

    /** A return with a failure. */
    method ReturnFailed(status: ExecutionStatus, state: ExecutionState)
      requires Kept() && P.Enabled(view, P.ReturnedFailed(status)) && state == P.FailedState(view.phase, status)
      requires result == P.FailedResult(RunnerFailure, Created, view.wallExceeded)
      modifies this`view, this`trace, this`result
      ensures Left(closes) && view.ready == old(view.ready) && view.forked == old(view.forked) && view.reaps == old(view.reaps) && result.status == status
      ensures result.wallTimeLimitExceeded == old(result.wallTimeLimitExceeded)
    {
      result := result.(state := state, status := status);
      Emit(P.ReturnedFailed(status));
    }

    ghost method NoteTold(ended: bool)
      requires Logging(Item.Message)
      modifies this`log, this`at
      ensures Noted() && at.fed == old(at.fed) && at.out == old(at.out) && at.err == old(at.err) && at.over == ended && at.stopped == !ended
      ensures log.entries != [] && log.entries[|log.entries| - 1].Told?
    {
      Note(RunnerTurns.Told(ended));
    }

    /** A message on the control socket. */
    method HandleControl() returns (returned: bool)
      requires Live() && done == [] && InStep() && at.pending == [Item.Message]
      modifies this`log, this`at, this`view, this`trace, this`sleeps, this`done, this`closes, this`stdinOpen, this`stdoutOpen,
               this`stderrOpen, this`controlOpen, this`terminationRequested, this`reaped, this`finished, this`status, this`result, k
      ensures returned ==> Dropped()
      ensures !returned ==> Over() && TakenOver() && sleeps == old(sleeps) && done == old(done)
      ensures !returned <==> Interpret(old(k.replies)).Ended? && !Erred(First(Settle(Rest(Rest(old(k.replies))))))
      ensures !returned ==> Interpret(old(k.replies)) == Ended(status)
      ensures result.wallTimeLimitExceeded == old(result.wallTimeLimitExceeded)
      ensures old(sleeps) <= sleeps <= old(sleeps) + 200
      ensures !returned ==> |k.replies| <= |old(k.replies)|
      ensures returned ==> result.status == ControlStatus(Interpret(old(k.replies)), done)
    {
      returned := DecideControl();
      NoteTold(!returned);
    }

    method DecideControl() returns (returned: bool)
      requires Live() && done == []
      modifies this`view, this`trace, this`sleeps, this`done, this`closes, this`stdinOpen, this`stdoutOpen,
               this`stderrOpen, this`controlOpen, this`terminationRequested, this`reaped, this`finished, this`status, this`result, k
      ensures returned ==> Gone() && result.status == ControlStatus(Interpret(old(k.replies)), done)
      ensures !returned ==> Over() && sleeps == old(sleeps) && done == old(done) && |k.replies| <= |old(k.replies)|
      ensures !returned <==> Interpret(old(k.replies)).Ended? && !Erred(First(Settle(Rest(Rest(old(k.replies))))))
      ensures !returned ==> Interpret(old(k.replies)) == Ended(status)
      ensures result.wallTimeLimitExceeded == old(result.wallTimeLimitExceeded)
      ensures old(sleeps) <= sleeps <= old(sleeps) + 200
    {
      var m := ReceiveControl();
      returned := Dispatch(m);
    }

    /** The runner has returned a failure from the loop. */
    ghost predicate Gone()
      reads `view, `trace, `result, `closes, `fed
    {
      Left(ALL) && view.ready && view.forked && fed <= input && !P.IsOk(result.status)
    }

    method Dispatch(m: Control) returns (returned: bool)
      requires Live() && done == []
      modifies this`view, this`trace, this`sleeps, this`done, this`closes, this`stdinOpen, this`stdoutOpen,
               this`stderrOpen, this`controlOpen, this`terminationRequested, this`reaped, this`finished, this`status, this`result, k
      ensures returned ==> Gone() && result.status == ControlStatus(m, done)
      ensures !returned ==> Over() && m == Ended(status) && sleeps == old(sleeps) && done == old(done) && |k.replies| <= |old(k.replies)|
      ensures !returned <==> m.Ended? && !Erred(First(Settle(old(k.replies))))
      ensures result.wallTimeLimitExceeded == old(result.wallTimeLimitExceeded)
      ensures old(sleeps) <= sleeps <= old(sleeps) + 200
    {
      if m.Ended? {
        returned := EndOnControl(m.waitStatus);
      } else {
        FailOnControl(m);
        returned := true;
      }
    }

    method EndOnControl(waitStatus: int) returns (returned: bool)
      requires Live()
      modifies this`view, this`trace, this`closes, this`stdinOpen, this`stdoutOpen, this`stderrOpen, this`controlOpen,
               this`reaped, this`finished, this`status, this`result, k
      ensures returned ==> Gone()
      ensures !returned ==> Over() && status == waitStatus && |k.replies| <= |old(k.replies)|
      ensures returned <==> Erred(First(Settle(old(k.replies))))
      ensures result.wallTimeLimitExceeded == old(result.wallTimeLimitExceeded)
      ensures returned ==> result.status == RunnerFailure
    {
      NoteTerminated(waitStatus);
      returned := AcceptTerminated();
    }

    method FailOnControl(m: Control)
      requires Live() && done == [] && !m.Ended?
      modifies this`view, this`trace, this`sleeps, this`done, this`closes, this`stdinOpen, this`stdoutOpen,
               this`stderrOpen, this`controlOpen, this`terminationRequested, this`reaped, this`result, k
      ensures Left(ALL) && view.ready && view.forked && fed <= input
      ensures result.status == if m.BadHeader? || (m.BadPayload? && Contained(done)) then RunnerFailure else SandboxFailure
      ensures result.wallTimeLimitExceeded == old(result.wallTimeLimitExceeded)
      ensures old(sleeps) <= sleeps <= old(sleeps) + 200
    {
      if m.SetupFailure? {
        NoteFailure();
        AcceptFailure();
      } else {
        Fail(m.BadHeader?);
      }
    }

    /** A header of an expected type and size, then its payload. */
    method ReceiveControl() returns (m: Control)
      modifies k
      ensures m == Interpret(old(k.replies)) && (m.Ended? ==> k.replies == Rest(Rest(old(k.replies))))
      ensures |k.replies| <= |old(k.replies)|
    {
      var r := k.Call();
      if Erred(r) { return BadHeader; }
      if r.header.code == Code(SetupFailed) {
        if r.header.size != FAILED_SIZE { return BadHeader; }
        var payload := k.Call();
        return if Erred(payload) || |payload.data| != FAILED_SIZE then BadPayload else SetupFailure;
      } else if r.header.code == Code(Terminated) {
        if r.header.size != TERMINATED_SIZE { return BadHeader; }
        var payload := k.Call();
        return if Erred(payload) || |payload.data| != TERMINATED_SIZE then BadPayload else Ended(DecodeTerminated(payload.data));
      }
      return BadHeader;
    }

    /**
     * Input. The offset is 64 bits wide: after EPIPE it is moved by -1, which wraps around at 0,
     * and never makes it look as if all input had been written.
     */
    method FeedStdin(ev: Events, ghost rest: seq<Item>) returns (returned: bool)
      requires Live() && done == [] && InStep() && at.pending == InputWanted(at, ev) + rest
      modifies this`log, this`at, this`view, this`trace, this`sleeps, this`done, this`closes, this`stdinOpen, this`stdoutOpen,
               this`stderrOpen, this`controlOpen, this`terminationRequested, this`result, this`inputOffset, this`fed, k
      ensures returned ==> Dropped()
      ensures !returned ==> Live() && InStep() && at.pending == rest && sleeps == old(sleeps) && done == old(done)
      ensures !returned ==> stdoutOpen == old(stdoutOpen) && stderrOpen == old(stderrOpen)
      ensures result.wallTimeLimitExceeded == old(result.wallTimeLimitExceeded)
      ensures old(fed) <= fed
      ensures old(sleeps) <= sleeps <= old(sleeps) + 200
      ensures !returned ==> |k.replies| <= |old(k.replies)|
    {
      returned := ServeStdin(ev, rest);
      if returned { Abandon(false); }
    }

    method ServeStdin(ev: Events, ghost rest: seq<Item>) returns (broken: bool)
      requires Live() && InStep() && at.pending == InputWanted(at, ev) + rest
      modifies this`log, this`at, this`closes, this`stdinOpen, this`inputOffset, this`fed, k
      ensures Live() && old(fed) <= fed && |k.replies| <= |old(k.replies)|
      ensures if broken then Halted(false) else InStep() && at.pending == rest
    {
      broken := false;
      if stdinOpen && ev.stdinHup {
        Hang();
      } else if stdinOpen && ev.stdinReady {
        broken := WriteChunk();
      }
    }

    method Hang()
      requires Live() && InStep() && stdinOpen && Logging(Hangup)
      modifies this`log, this`at, this`closes, this`stdinOpen
      ensures Live() && InStep() && !stdinOpen && at.pending == old(at.pending)[1..]
    {
      Note(HungUp);
      closes := closes.(stdinWrite := closes.stdinWrite + 1);
      stdinOpen := false;
    }

    /** One write of at most 4096 bytes; `broken` if it failed other than by EPIPE. */
    method WriteChunk() returns (broken: bool)
      requires Books() && Feeding() && stdinOpen && |input| <= MAX_STRING && InStep() && Logging(Input)
      modifies this`log, this`at, this`closes, this`stdinOpen, this`inputOffset, this`fed, k
      ensures Books() && Feeding() && old(fed) <= fed && |k.replies| <= |old(k.replies)|
      ensures if broken then Halted(false) else InStep() && at.pending == old(at.pending)[1..]
      ensures var r := First(Settle(old(k.replies)));
              && (broken <==> Erred(r) && r.errno != EPIPE) && (stdinOpen <==> broken || (!Erred(r) && fed != input))
              && |fed| == |old(fed)| + (if Erred(r) then 0 else Taken(r, ChunkSize(|input| - |old(fed)|)))
    {
      var r := k.Retry();
      Note(Fed(r));
      broken := Advance(r);
    }

    /** What follows from the reply to the write. */
    method Advance(r: Reply) returns (broken: bool)
      requires Books() && Feeding() && stdinOpen && |input| <= MAX_STRING
      modifies this`closes, this`stdinOpen, this`inputOffset, this`fed
      ensures Books() && Feeding() && old(fed) <= fed
      ensures (broken <==> Erred(r) && r.errno != EPIPE) && (stdinOpen <==> broken || (!Erred(r) && fed != input))
      ensures |fed| == |old(fed)| + (if Erred(r) then 0 else Taken(r, ChunkSize(|input| - |old(fed)|)))
    {
      var remaining := |input| - inputOffset;
      var chunk := if remaining < IO_BUFFER_SIZE then remaining else IO_BUFFER_SIZE;
      var written := if Erred(r) then -1 else Taken(r, chunk);
      if written == -1 {
        if r.errno == EPIPE {
          closes := closes.(stdinWrite := closes.stdinWrite + 1);
          stdinOpen := false;
        } else {
          return true;
        }
      } else {
        fed := fed + input[inputOffset..inputOffset + written];
        assert fed == input[..inputOffset + written];
      }
      OffsetWraps(inputOffset, written, |input|);
      inputOffset := (inputOffset + written) % U64_LIMIT;
      if inputOffset == |input| {
        closes := closes.(stdinWrite := closes.stdinWrite + 1);
        stdinOpen := false;
      }
      return false;
    }

    /** read into a 4096-byte buffer: an error, end of file, or some bytes. */
    method ReadChunk() returns (ok: bool, data: seq<Byte>)
      modifies k
      ensures var r := First(Settle(old(k.replies)));
              (ok <==> !Erred(r)) && data == if ok then Chunk(r) else []
      ensures |k.replies| <= |old(k.replies)|
    {
      var r := k.Retry();
      if Erred(r) { return false, []; }
      data := if |r.data| <= IO_BUFFER_SIZE then r.data else r.data[..IO_BUFFER_SIZE];
      if r.value == 0 { data := []; }
      ok := true;
    }

    /** What a read from stdout brought; nothing means end of file. */
    method TakeOutput(data: seq<Byte>)
      requires Live() && stdoutOpen && Agrees(stdinOpen, data != [], stderrOpen, |fed|, out + data, err)
      modifies this`view, this`trace, this`closes, this`stdoutOpen, this`out
      ensures Live() && InStep() && out == old(out) + data && (stdoutOpen <==> data != [])
    {
      if data == [] {
        closes := closes.(stdoutRead := closes.stdoutRead + 1);
        stdoutOpen := false;
        Emit(P.OutputEof);
      } else {
        out := out + data;
        Emit(P.GotOutput(data));
      }
    }

    method FetchStdout() returns (ok: bool, data: seq<Byte>)
      requires InStep() && stdoutOpen && Logging(Output)
      modifies this`log, this`at, k
      ensures var r := First(Settle(old(k.replies)));
              (ok <==> !Erred(r)) && data == if ok then Chunk(r) else []
      ensures if ok then Agrees(stdinOpen, data != [], stderrOpen, |fed|, out + data, err) && at.pending == old(at.pending)[1..] else Halted(false)
      ensures |k.replies| <= |old(k.replies)|
    {
      ghost var r := First(Settle(k.replies));
      ok, data := ReadChunk();
      Note(ReadOut(r));
    }

    method ReadStdout(ev: Events, ghost rest: seq<Item>) returns (returned: bool)
      requires Live() && done == [] && InStep() && at.pending == OutputWanted(at, ev) + rest
      modifies this`log, this`at, this`view, this`trace, this`sleeps, this`done, this`closes, this`stdinOpen, this`stdoutOpen,
               this`stderrOpen, this`controlOpen, this`terminationRequested, this`result, this`out, k
      ensures returned ==> Dropped()
      ensures !returned ==> Live() && InStep() && at.pending == rest && sleeps == old(sleeps) && done == old(done)
      ensures !returned ==> out == old(out) + (if old(stdoutOpen) && ev.stdoutReady then Chunk(First(Settle(old(k.replies)))) else [])
      ensures !returned ==> stderrOpen == old(stderrOpen)
      ensures result.wallTimeLimitExceeded == old(result.wallTimeLimitExceeded)
      ensures old(sleeps) <= sleeps <= old(sleeps) + 200
      ensures !returned ==> |k.replies| <= |old(k.replies)|
    {
      returned := ServeStdout(ev, rest);
      if returned { Abandon(false); }
    }

    method ServeStdout(ev: Events, ghost rest: seq<Item>) returns (broken: bool)
      requires Live() && InStep() && at.pending == OutputWanted(at, ev) + rest
      modifies this`log, this`at, this`view, this`trace, this`closes, this`stdoutOpen, this`out, k
      ensures Live() && |k.replies| <= |old(k.replies)|
      ensures if broken then Halted(false) else InStep() && at.pending == rest
      ensures !broken ==> out == old(out) + (if old(stdoutOpen) && ev.stdoutReady then Chunk(First(Settle(old(k.replies)))) else [])
    {
      broken := false;
      if stdoutOpen && ev.stdoutReady {
        var ok, data := FetchStdout();
        if ok { TakeOutput(data); }
        broken := !ok;
      }
    }

    /** What a read from stderr brought; nothing means end of file. */
    method TakeErrors(data: seq<Byte>)
      requires Live() && stderrOpen && Agrees(stdinOpen, stdoutOpen, data != [], |fed|, out, err + data)
      modifies this`view, this`trace, this`closes, this`stderrOpen, this`err
      ensures Live() && InStep() && err == old(err) + data && (stderrOpen <==> data != [])
    {
      if data == [] {
        closes := closes.(stderrRead := closes.stderrRead + 1);
        stderrOpen := false;
        Emit(P.ErrorsEof);
      } else {
        err := err + data;
        Emit(P.GotErrors(data));
      }
    }

    method FetchStderr() returns (ok: bool, data: seq<Byte>)
      requires InStep() && stderrOpen && Logging(Errors)
      modifies this`log, this`at, k
      ensures var r := First(Settle(old(k.replies)));
              (ok <==> !Erred(r)) && data == if ok then Chunk(r) else []
      ensures if ok then Agrees(stdinOpen, stdoutOpen, data != [], |fed|, out, err + data) && at.pending == old(at.pending)[1..] else Halted(false)
      ensures |k.replies| <= |old(k.replies)|
    {
      ghost var r := First(Settle(k.replies));
      ok, data := ReadChunk();
      Note(ReadErr(r));
    }

    method ReadStderr(ev: Events, ghost rest: seq<Item>) returns (returned: bool)
      requires Live() && done == [] && InStep() && at.pending == ErrorsWanted(at, ev) + rest
      modifies this`log, this`at, this`view, this`trace, this`sleeps, this`done, this`closes, this`stdinOpen, this`stdoutOpen,
               this`stderrOpen, this`controlOpen, this`terminationRequested, this`result, this`err, k
      ensures returned ==> Dropped()
      ensures !returned ==> Live() && InStep() && at.pending == rest && sleeps == old(sleeps) && done == old(done)
      ensures !returned ==> err == old(err) + (if old(stderrOpen) && ev.stderrReady then Chunk(First(Settle(old(k.replies)))) else [])
      ensures result.wallTimeLimitExceeded == old(result.wallTimeLimitExceeded)
      ensures old(sleeps) <= sleeps <= old(sleeps) + 200
      ensures !returned ==> |k.replies| <= |old(k.replies)|
    {
      returned := ServeStderr(ev, rest);
      if returned { Abandon(false); }
    }

    method ServeStderr(ev: Events, ghost rest: seq<Item>) returns (broken: bool)
      requires Live() && InStep() && at.pending == ErrorsWanted(at, ev) + rest
      modifies this`log, this`at, this`view, this`trace, this`closes, this`stderrOpen, this`err, k
      ensures Live() && |k.replies| <= |old(k.replies)|
      ensures if broken then Halted(false) else InStep() && at.pending == rest
      ensures !broken ==> err == old(err) + (if old(stderrOpen) && ev.stderrReady then Chunk(First(Settle(old(k.replies)))) else [])
    {
      broken := false;
      if stderrOpen && ev.stderrReady {
        var ok, data := FetchStderr();
        if ok { TakeErrors(data); }
        broken := !ok;
      }
    }

    ghost predicate Untouched()
      reads `done, `sleeps
    {
      done == [] && sleeps == 0
    }

    /** The attempts so far are punctual, none was lost, and wall_time_limit_exceeded says whether one was made. */
    ghost predicate OnTime()
      reads `heads, `result
    {
      && Punctual(heads, deadline)
      && (forall i :: 0 <= i < |heads| ==> heads[i].attempt != Lost)
      && (SomeSent(heads) <==> result.wallTimeLimitExceeded)
    }

    ghost predicate Running()
      reads this
    {
      Live() && Untouched() && OnTime() && InStep()
    }

    /** What a return from inside the loop leaves behind. */
    ghost predicate LeftLoop()
      reads `view, `trace, `result, `closes, `fed, `sleeps, `heads, `log, `at, `done
    {
      && Left(ALL) && view.ready && view.forked && fed <= input && sleeps <= 200
      && Noted() && at.fed == |fed| && (if P.IsOk(result.status) then at.over && result.stdout == at.out && result.stderr == at.err else at.stopped && Fair())
      && Punctual(heads, deadline) && (SomeSent(heads) <==> result.wallTimeLimitExceeded)
    }

    /** The top of the loop: look at the clock and, once, ask for termination. */
    method LoopHead(now: int) returns (returned: bool)
      requires Running() && at.pending == []
      modifies this, k
      ensures returned ==> LeftLoop()
      ensures !returned ==> Running() && at.pending == [] && (terminationRequested || now < deadline) && |k.replies| <= |old(k.replies)|
      ensures |heads| == |old(heads)| + 1 && heads == old(heads) + [Head(now, false, heads[|old(heads)|].attempt)]
      ensures !old(terminationRequested) && now >= deadline ==> heads[|old(heads)|].attempt == if Erred(First(old(k.replies))) then Lost else Sent
    {
      if !finished && !terminationRequested && now >= deadline {
        var sent := k.Call();
        if Erred(sent) {
          LoseAtDeadline(now, sent);
          return true;
        }
        SendAtDeadline(now, sent);
      } else {
        PassHead(now);
      }
      return false;
    }

    method PassHead(now: int)
      requires OnTime() && (terminationRequested || now < deadline) && terminationRequested == result.wallTimeLimitExceeded
      modifies this`heads
      ensures OnTime()
      ensures heads == old(heads) + [Head(now, old(finished), NoAttempt)]
    {
      PunctualStep(heads, Head(now, finished, NoAttempt), deadline);
      heads := heads + [Head(now, finished, NoAttempt)];
    }

    ghost method NoteAsk(now: int, sent: Reply)
      requires Noted() && !at.stopped && !at.over && at.pending == [] && !at.asked && now >= deadline
      modifies this`log, this`at
      ensures Noted() && at == if Erred(sent) then old(at).(stopped := true) else old(at).(asked := true, stdin := false)
      ensures log.entries != [] && log.entries[|log.entries| - 1].Asked?
    {
      Note(Asked(now, sent));
    }

    method LoseAtDeadline(now: int, sent: Reply)
      requires Running() && at.pending == [] && !terminationRequested && now >= deadline && Erred(sent)
      modifies this, k
      ensures LeftLoop()
      ensures heads == old(heads) + [Head(now, old(finished), Lost)]
    {
      PunctualStep(heads, Head(now, finished, Lost), deadline);
      heads := heads + [Head(now, finished, Lost)];
      NoteAsk(now, sent);
      Abandon(true);
    }

    method SendAtDeadline(now: int, sent: Reply)
      requires Live() && OnTime() && InStep() && at.pending == [] && !terminationRequested && now >= deadline && !Erred(sent)
      modifies this`log, this`at, this`view, this`trace, this`heads, this`terminationRequested, this`result, this`closes, this`stdinOpen
      ensures Live() && OnTime() && InStep() && at.pending == [] && terminationRequested
      ensures heads == old(heads) + [Head(now, old(finished), Sent)]
    {
      PunctualStep(heads, Head(now, finished, Sent), deadline);
      heads := heads + [Head(now, finished, Sent)];
      NoteAsk(now, sent);
      TimeOut();
    }

    /** Terminate is on its way: from now on the result says so, and there is no more input. */
    method TimeOut()
      requires Live() && !terminationRequested
      modifies this`view, this`trace, this`terminationRequested, this`result, this`closes, this`stdinOpen
      ensures Live() && terminationRequested && !stdinOpen && result.wallTimeLimitExceeded
    {
      terminationRequested := true;
      result := result.(wallTimeLimitExceeded := true);
      Emit(P.DeadlineSent);
      if stdinOpen {
        closes := closes.(stdinWrite := closes.stdinWrite + 1);
        stdinOpen := false;
      }
    }

    /** A poll that fails. */
    method FailPoll()
      requires Live() && Untouched() && OnTime() && Halted(false)
      modifies this, k
      ensures LeftLoop()
    {
      Abandon(false);
    }

    /** poll, with the timeout that the clock leaves. */
    method Poll(now: int) returns (poll: Reply)
      requires InStep() && !finished && at.pending == [] && (terminationRequested || now < deadline)
      modifies this`log, this`at, k
      ensures poll == First(Settle(old(k.replies))) && k.replies == Rest(Settle(old(k.replies)))
      ensures |k.replies| < |old(k.replies)| || Erred(poll)
      ensures if Erred(poll) then Halted(false) else InStep() && at.pending == Wanted(at, poll.events)
    {
      var timeout := PollTimeout(finished, terminationRequested, now, deadline);
      poll := k.Retry();
      Note(Polled(now, timeout, poll));
    }

    /** Terminated was taken over, with nothing else served in that turn. */
    ghost predicate TakenOver()
      reads `log, `at, `out, `err, `fed
    {
      Noted() && at.over && at.out == out && at.err == err && at.fed == |fed|
    }

    /** The rest of the loop body, after poll. */
    method Serve(events: Events) returns (returned: bool)
      requires Running() && at.pending == Wanted(at, events)
      modifies this, k
      ensures returned ==> LeftLoop()
      ensures !returned ==> (if finished then Over() && TakenOver() else Live() && InStep() && at.pending == []) && Untouched() && OnTime() && |k.replies| <= |old(k.replies)|
    {
      if controlOpen && events.control {
        // If it was Terminated, the pipes are closed now and the branches below do nothing.
        returned := HandleControl();
      } else {
        assert at.pending == InputWanted(at, events) + (OutputWanted(at, events) + ErrorsWanted(at, events));
        returned := ServePipes(events);
      }
    }

    method ServePipes(events: Events) returns (returned: bool)
      requires Live() && done == [] && InStep()
      requires at.pending == InputWanted(at, events) + (OutputWanted(at, events) + ErrorsWanted(at, events))
      modifies this`log, this`at, this`view, this`trace, this`sleeps, this`done, this`closes, this`stdinOpen, this`stdoutOpen,
               this`stderrOpen, this`controlOpen, this`terminationRequested, this`result, this`inputOffset, this`fed, this`out, this`err, k
      ensures returned ==> Dropped()
      ensures !returned ==> Live() && InStep() && at.pending == [] && sleeps == old(sleeps) && done == [] && |k.replies| <= |old(k.replies)|
      ensures result.wallTimeLimitExceeded == old(result.wallTimeLimitExceeded) && old(sleeps) <= sleeps <= old(sleeps) + 200
    {
      returned := FeedStdin(events, OutputWanted(at, events) + ErrorsWanted(at, events));
      if !returned { returned := ServeOutputs(events); }
    }

    method ServeOutputs(events: Events) returns (returned: bool)
      requires Live() && done == [] && InStep() && at.pending == OutputWanted(at, events) + ErrorsWanted(at, events)
      modifies this`log, this`at, this`view, this`trace, this`sleeps, this`done, this`closes, this`stdinOpen, this`stdoutOpen,
               this`stderrOpen, this`controlOpen, this`terminationRequested, this`result, this`out, this`err, k
      ensures returned ==> Dropped()
      ensures !returned ==> Live() && InStep() && at.pending == [] && sleeps == old(sleeps) && done == [] && |k.replies| <= |old(k.replies)|
      ensures !returned && old(stdoutOpen) && events.stdoutReady ==> out == old(out) + Chunk(First(Settle(old(k.replies))))
      ensures result.wallTimeLimitExceeded == old(result.wallTimeLimitExceeded) && old(sleeps) <= sleeps <= old(sleeps) + 200
    {
      returned := ReadStdout(events, ErrorsWanted(at, events));
      if returned { return; }
      assert at.pending == ErrorsWanted(at, events) + [];
      returned := ReadStderr(events, []);
    }

    /**
     * The loop. Its head keeps control_channel_open == !submission_finished, and a finished
     * submission means closed pipes and a reaped supervisor, so the break inside the loop and
     * the reap behind it are never reached.
     */
    method Loop() returns (returned: bool)
      requires Running() && at.pending == []
      modifies this, k
      ensures returned ==> LeftLoop()
      ensures !returned ==> Over() && TakenOver() && Untouched() && OnTime()
    {
      var now := start;
      while !finished || stdinOpen || stdoutOpen || stderrOpen
        invariant if finished then Over() && TakenOver() else Live() && InStep() && at.pending == []
        invariant controlOpen == !finished
        invariant Untouched() && OnTime()
        decreases |k.replies| + Flag(!finished)
      {
        returned, now := Turn(now);
        if returned { return; }
      }
      if !reaped { assert false; }
      return false;
    }

    /** One turn: look at the clock, ask for termination if it is due, poll, and serve. */
    method Turn(last: int) returns (returned: bool, now: int)
      requires Running() && at.pending == []
      modifies this, k
      ensures returned ==> LeftLoop()
      ensures !returned ==> (if finished then Over() && TakenOver() else Live() && InStep() && at.pending == []) && Untouched() && OnTime()
      ensures !returned ==> |k.replies| < |old(k.replies)| && now >= last
    {
      var clock := k.Call();
      now := if clock.value > 0 then last + clock.value else last;
      returned := LoopHead(now);
      if returned { return; }
      if finished && !stdinOpen && !stdoutOpen && !stderrOpen { assert false; }
      returned := PollAndServe(now);
    }

    method PollAndServe(now: int) returns (returned: bool)
      requires Running() && at.pending == [] && (terminationRequested || now < deadline)
      modifies this, k
      ensures returned ==> LeftLoop()
      ensures !returned ==> (if finished then Over() && TakenOver() else Live() && InStep() && at.pending == []) && Untouched() && OnTime()
      ensures !returned ==> |k.replies| < |old(k.replies)|
    {
      var poll := Poll(now);
      if Erred(poll) {
        FailPoll();
        return true;
      }
      returned := Serve(poll.events);
    }

    /** The last lines of run. */
    method Conclude()
      requires Over()
      modifies this`view, this`trace, this`result
      ensures Left(ALL) && view.ready && view.forked && P.IsOk(result.status) && result.stdout == out && result.stderr == err
      ensures result.wallTimeLimitExceeded == old(result.wallTimeLimitExceeded)
    {
      if result.wallTimeLimitExceeded {
        result := result.(state := ExecutionState.TimedOut, status := ExecutionStatus.TimedOut);
      } else if IfSignaled(status) {
        result := result.(state := ExecutionState.Signaled, status := ExecutionStatus.Signaled);
      } else {
        result := result.(state := ExecutionState.Finished, status := Completed);
      }
      result := result.(stdout := out, stderr := err);
      Emit(P.ReturnedOk);
    }

    /** Entering the loop: the child-side ends are closed, and stdin too if there is no input. */
    method EnterLoop()
      requires Kept() && view == P.START.(phase := P.Looping, forked := true, ready := true)
      requires closes == NONE.(controlPeer := 1) && result == P.FailedResult(RunnerFailure, Created, false)
      requires stdinOpen && stdoutOpen && stderrOpen && controlOpen && !terminationRequested && !reaped && !finished
      requires fed == out == err == [] && inputOffset == 0 && log == Empty(Plan()) && at == Start(Plan())
      modifies this`closes, this`stdinOpen
      ensures Live() && InStep() && at.pending == []
    {
      closes := closes.(stdoutWrite := closes.stdoutWrite + 1);
      closes := closes.(stderrWrite := closes.stderrWrite + 1);
      closes := closes.(stdinRead := closes.stdinRead + 1);
      if |input| == 0 {
        stdinOpen := false;
        closes := closes.(stdinWrite := closes.stdinWrite + 1);
      }
    }

    /**
     * ProcessRunner::run, in the parent. For every behaviour of the kernel and the supervisor it
     * follows RunnerProtocol to its end; closes each end it opened exactly once, except that a
     * return between the fork and Ready leaves the three child-side ends open; feeds a prefix of
     * the input; is punctual about the deadline; and sleeps at most 200 times.
     */
    method Run() returns (ghost acquired: Ends)
      requires Kept() && view == P.START && Fresh()
      modifies this, k
      ensures P.Accepts(trace, view) && view.phase == P.Returned(result)
      ensures acquired == Opened(old(k.replies)) && (view.forked <==> Granted(old(k.replies), 6))
      ensures !view.forked ==> closes == acquired
      ensures view.forked ==> acquired == ALL && closes == if view.ready then ALL else LEAKED
      ensures fed <= input
      ensures Punctual(heads, deadline) && (result.wallTimeLimitExceeded <==> SomeSent(heads))
      ensures Served() && sleeps <= 200
    {
      var forked := Launch();
      acquired := opens;
      if forked { Supervise(); }
    }

    /**
     * The loop served every poll as RunnerTurns demands. A run that got to the loop is a failure
     * exactly if one of the calls in the log failed; otherwise it returns what the log captured.
     */
    ghost predicate Served()
      reads `view, `log, `at, `result, `fed, `done
    {
      && Noted() && at.fed == |fed| && (!view.ready ==> log == Empty(Plan()))
      && (view.ready ==> if P.IsOk(result.status) then at.over && result.stdout == at.out && result.stderr == at.err else at.stopped && Fair())
    }

    /** The parent's part, from the fork on. */
    method Supervise()
      requires Awaiting() && Unused()
      modifies this, k
      ensures Kept() && view.phase == P.Returned(result) && view.forked && closes == if view.ready then ALL else LEAKED
      ensures fed <= input && sleeps <= 200 && Served()
      ensures Punctual(heads, deadline) && (result.wallTimeLimitExceeded <==> SomeSent(heads))
    {
      var ready := AwaitReady();
      if !ready { return; }
      EnterLoop();
      LoopAndConclude();
    }

    method LoopAndConclude()
      requires Running() && at.pending == []
      modifies this, k
      ensures LeftLoop()
    {
      var returned := Loop();
      if returned { return; }
      Conclude();
    }
  }
}
