/**
 * The supervisor process: src/runner/process_runner.cpp from the fork to the last _exit, with the
 * parent's part of createExecutionProcess (src/sandbox/sandbox.cpp). Whatever the kernel replies,
 * it keeps to SupervisorProtocol and leaves.
 */
module Supervisor {
  import opened Results
  import opened Wire
  import opened Kernel
  import opened StatusPipe
  import opened SandboxCgroup
  import P = SupervisorProtocol
  import T = SupervisorTurns

  /** The mark that a wait answered by these replies leaves. */
  function EndOnRecord(replies: seq<Reply>): seq<P.Mark> {
    var r := First(Settle(replies));
    if Erred(r) then [] else [P.Reaped(r.header.size)]
  }

  /** The view after such a wait. */
  function AfterWait(v: P.View, replies: seq<Reply>): (v': P.View)
    ensures v'.history == v.history + EndOnRecord(replies)
  {
    var r := First(Settle(replies));
    if Erred(r) then v else P.AfterReap(v, r.header.size)
  }

  predicate Attachable(path: Option<string>, replies: seq<Reply>, digits: nat) {
    Joined(path, replies, digits) || Waived(path, replies)
  }

  /** What goes on record about a child that is not released: perhaps that it was attached, and its end. */
  function Unreleased(path: Option<string>, replies: seq<Reply>, digits: nat): seq<P.Mark> {
    var rest := AfterJoin(path, replies);
    if !Attachable(path, replies, digits) then EndOnRecord(Rest(rest))
    else [P.Attached(Joined(path, replies, digits))] + EndOnRecord(Rest(Rest(Settle(rest))))
  }

  class Supervisor {
    const k: Script
    const sandbox: Sandbox
    const child: int
    const digits: nat

    var terminationRequested: bool
    var statusOpen: bool
    var hasForwarded: bool
    var forwarded: int
    var status: int

    ghost var view: P.View
    ghost var trace: P.Run
    ghost var log: T.Log
    ghost var at: T.State

    /** The protocol has been kept so far, and the variables say what the view says. */
    ghost predicate Valid()
      reads this, sandbox
    {
      && child > 0 && digits > 0
      && P.Accepts(trace, view)
      && (view.reported ==> view.phase.Exited?)
      && view.hasPath == sandbox.path.Some?
      && view.terminationRequested == terminationRequested
      && (view.phase.ReportingDone? && !hasForwarded ==> status == view.raw)
      && view.forwarded == (if hasForwarded then Some(forwarded) else None)
    }

    constructor (k: Script, child: int, digits: nat)
      requires child > 0 && digits > 0
      ensures Valid() && view == P.START && trace == P.EMPTY && InStep() && log == T.EMPTY
      ensures this.k == k && fresh(sandbox)
    {
      this.k, this.child, this.digits := k, child, digits;
      sandbox := new Sandbox();
      terminationRequested, statusOpen, hasForwarded, forwarded, status := false, true, false, 0, 0;
      view, trace, log, at := P.START, P.EMPTY, T.EMPTY, T.START;
    }

    /** The log of the loop's calls is in order so far. */
    ghost predicate Noted()
      reads `log, `at
    {
      T.Follows(log, at)
    }

    /** The variables agree with the log, and the loop goes on. */
    ghost predicate InStep()
      reads `log, `at, `statusOpen, `terminationRequested, `view
    {
      && Noted() && !at.stopped && !at.finished && at.statusOpen == statusOpen && at.requested == terminationRequested
      && at.forwarded == view.forwarded && at.failureRead == view.failureRead == false
    }

    /** The log says what was read, and why the loop was left. */
    ghost predicate Told()
      reads `log, `at, `view
    {
      Noted() && (at.stopped || at.finished) && at.forwarded == view.forwarded && at.failureRead == view.failureRead
    }

    ghost method Note(e: T.Entry)
      requires Noted() && T.Fits(at, e)
      modifies this`log, this`at
      ensures Noted() && at == T.Step(old(at), e)
    {
      T.FollowsNext(log, at, e);
      at := T.Step(at, e);
      log := T.Extended(log, e, at);
    }

    ghost method Emit(e: P.Event)
      requires P.Accepts(trace, view) && P.Enabled(view, e)
      modifies this`view, this`trace
      ensures P.Accepts(trace, view)
      ensures view == P.Next(old(view), e)
    {
      P.AcceptsStep(trace, view, e);
      view := P.Next(view, e);
      trace := P.Record(trace, e, view);
    }

    /** A wait for the child, whose end is on record exactly if the kernel reported it. */
    method Reap(noHang: bool) returns (waited: int, raw: int)
      requires Valid() && P.Reapable(view)
      modifies this`view, this`trace, k
      ensures Valid() && view == if waited == child then P.AfterReap(old(view), raw) else old(view)
      ensures waited == child || waited == -1 || (noHang && waited == 0)
      ensures waited == -1 <==> Erred(First(Settle(old(k.replies))))
      ensures waited == 0 <==> noHang && First(Settle(old(k.replies))).value == 0
      ensures raw == First(Settle(old(k.replies))).header.size && |k.replies| <= |old(k.replies)|
    {
      waited, raw := k.Wait(child, noHang);
      if waited == child {
        P.ReapNext(view, raw);
        Emit(P.ChildReaped(raw));
      }
    }

    /** kill(SIGKILL) and a blocking wait, for a child that is to be left behind. */
    method KillChild()
      requires Valid() && P.Reapable(view)
      modifies this`view, this`trace, k
      ensures Valid() && view == AfterWait(old(view), Rest(old(k.replies)))
      ensures |k.replies| <= |old(k.replies)|
    {
      var _ := k.Call();
      var _, _ := Reap(false);
    }

    /** prepareEnvironment: cgroup first, then the root directory; either failure is reported. */
    method Prepare() returns (ok: bool)
      requires Valid() && view == P.START
      modifies this`view, this`trace, sandbox, k
      ensures Valid()
      ensures ok ==> view.phase.Spawning?
      ensures ok <==> (!Erred(First(old(k.replies))) || Denied(First(old(k.replies)).errno)) && !Erred(First(Rest(old(k.replies))))
      ensures !ok ==> view.phase.Exited? && !view.reported
      ensures !ok ==> var rest := if Erred(First(old(k.replies))) && !Denied(First(old(k.replies)).errno) then Rest(old(k.replies)) else Rest(Rest(old(k.replies)));
                      view.history == if Erred(First(rest)) then [] else [P.SentFailed]
      ensures |k.replies| <= |old(k.replies)|
      ensures view.failureRead == old(view.failureRead)
    {
      ok := sandbox.SetupCgroup(k, "execution");
      if ok {
        var mkdtemp := k.Call();
        ok := !Erred(mkdtemp);
      }
      if !ok {
        var sent := k.Call();
        Emit(P.PrepareFailed(!Erred(sent), sandbox.path.Some?));
        return;
      }
      Emit(P.Prepared(sandbox.path.Some?));
    }

    /**
     * cleanup_failed_child, then the cleanup and exit of the caller: the child is killed and
     * waited for, its end is on record exactly if the wait succeeded, and nothing else is.
     */
    method Abort()
      requires Valid() && view.phase.Aborting? && !view.phase.reaped
      modifies this`view, this`trace, sandbox, k
      ensures Valid() && view.phase.Exited? && !view.reported
      ensures view.history == old(view.history) + EndOnRecord(Rest(old(k.replies)))
      ensures |k.replies| <= |old(k.replies)|
      ensures view.failureRead == old(view.failureRead)
    {
      KillChild();
      var ok, _, _ := sandbox.CleanupCgroup(k);
      Emit(P.AbortDone(ok));
    }

    /** createExecutionProcess: the child is released only after it was attached. */
    method CreateChild() returns (ok: bool)
      requires Valid() && view.phase.Spawning?
      modifies this`view, this`trace, sandbox, k
      ensures Valid()
      ensures ok ==> view.phase.Announcing?
      ensures !ok ==> view.phase.Exited? && !view.reported
      ensures |k.replies| <= |old(k.replies)|
      ensures view.failureRead == old(view.failureRead)
    {
      ok := Spawn();
      if ok { ok := AttachAndRelease(); }
    }

    /** The sync and status pipes, the latter closed on exec, then the fork. */
    method Fork() returns (forked: bool)
      modifies k
      ensures forked <==> Granted(old(k.replies), 5)
      ensures |k.replies| <= |old(k.replies)|
    {
      var syncPipe := k.CallNth(old(k.replies), 0);
      if Erred(syncPipe) { return false; }
      var statusPipe := k.CallNth(old(k.replies), 1);
      if Erred(statusPipe) { return false; }
      var flags := k.CallNth(old(k.replies), 2);
      if Erred(flags) { return false; }
      var closeOnExec := k.CallNth(old(k.replies), 3);
      if Erred(closeOnExec) { return false; }
      var fork := k.CallNth(old(k.replies), 4);
      return !Erred(fork);
    }

    method Spawn() returns (ok: bool)
      requires Valid() && view.phase.Spawning?
      modifies this`view, this`trace, sandbox, k
      ensures Valid()
      ensures ok ==> view.phase.Attaching?
      ensures !ok ==> view.phase.Exited? && !view.reported
      ensures |k.replies| <= |old(k.replies)|
      ensures view.failureRead == old(view.failureRead)
    {
      var forked := Fork();
      if !forked {
        var cleaned, _, _ := sandbox.CleanupCgroup(k);
        Emit(P.SpawnFailed(cleaned));
        return false;
      }
      Emit(P.ForkedChild);
      return true;
    }

    /**
     * Goes on exactly when the child joined the cgroup, or there is none to manage, and then the
     * sync byte was written. Otherwise the child is never released, and its end is on record
     * exactly if the wait for it succeeded.
     */
    method AttachAndRelease() returns (ok: bool)
      requires Valid() && view.phase.Attaching?
      modifies this`view, this`trace, sandbox, k
      ensures Valid()
      ensures ok <==> && Attachable(old(sandbox.path), old(k.replies), digits)
                      && First(Settle(AfterJoin(old(sandbox.path), old(k.replies)))).value == 1
      ensures ok ==> view.phase.Announcing? && view.history == old(view.history) + [P.Attached(sandbox.path.Some?), P.Released]
      ensures !ok ==> view.phase.Exited? && !view.reported
      ensures !ok ==> view.history == old(view.history) + Unreleased(old(sandbox.path), old(k.replies), digits)
      ensures |k.replies| <= |old(k.replies)|
      ensures view.failureRead == old(view.failureRead)
    {
      var attached, member := sandbox.AddProcess(k, digits);
      if !attached {
        Emit(P.AttachFailed);
        Abort();
        return false;
      }
      Emit(P.AttachedChild(member));
      ok := Release();
    }

    method Release() returns (ok: bool)
      requires Valid() && view.phase.Releasing?
      modifies this`view, this`trace, sandbox, k
      ensures Valid()
      ensures ok <==> First(Settle(old(k.replies))).value == 1
      ensures ok ==> view.phase.Announcing? && view.history == old(view.history) + [P.Released] && sandbox.path == old(sandbox.path)
      ensures !ok ==> view.phase.Exited? && !view.reported
      ensures !ok ==> view.history == old(view.history) + EndOnRecord(Rest(Rest(Settle(old(k.replies)))))
      ensures |k.replies| <= |old(k.replies)|
      ensures view.failureRead == old(view.failureRead)
    {
      var written := k.Retry();
      if written.value != 1 {
        Emit(P.ReleaseFailed);
        Abort();
        return false;
      }
      Emit(P.ReleasedChild);
      return true;
    }

    /**
     * cleanup_supervisor_failure: terminate unless that was tried, kill, wait, leave in silence.
     * The child's end is on record exactly if the wait, answered behind `killing`, succeeded.
     */
    method GiveUp(terminateTried: bool) returns (ghost killing: seq<Reply>)
      requires Valid() && view.phase == P.GivingUp(terminateTried)
      modifies this`view, this`trace, this`statusOpen, sandbox, k
      ensures Valid() && view.phase.Exited? && !view.reported && !statusOpen
      ensures terminateTried ==> killing == old(k.replies)
      ensures view.terminateCalls == old(view.terminateCalls) + (if terminateTried then 0 else 1) && view.failureRead == old(view.failureRead)
      ensures view.history == old(view.history) + EndOnRecord(Rest(killing))
      ensures |k.replies| <= |old(k.replies)|
    {
      if !terminateTried {
        var _, kill := sandbox.Terminate(k);
        Emit(P.LastTerminate(kill));
      }
      killing := k.replies;
      KillAndLeave();
    }

    method KillAndLeave()
      requires Valid() && view.phase == P.GivingUp(true)
      modifies this`view, this`trace, this`statusOpen, k
      ensures Valid() && view.phase.Exited? && !view.reported && !statusOpen
      ensures view.terminateCalls == old(view.terminateCalls) && view.failureRead == old(view.failureRead)
      ensures view.history == old(view.history) + EndOnRecord(Rest(old(k.replies)))
      ensures |k.replies| <= |old(k.replies)|
    {
      KillChild();
      Leave();
    }

    method Leave()
      requires Valid() && (view.phase.Leaving? || view.phase == P.GivingUp(true))
      modifies this`view, this`trace, this`statusOpen
      ensures Valid() && view == old(view).(phase := P.Exited) && !view.reported && !statusOpen
    {
      statusOpen := false;
      Emit(P.Exit);
    }

    method Fail()
      requires Valid() && (view.phase.Watching? || view.phase.ReapingFailed?)
      modifies this`view, this`trace, this`statusOpen, sandbox, k
      ensures Valid() && view.phase.Exited? && !view.reported && view.failureRead == old(view.failureRead)
      ensures |k.replies| <= |old(k.replies)|
    {
      Emit(P.Fault);
      var _ := GiveUp(terminationRequested);
    }

    /** A message on the control socket. */
    method HandleControl(ghost rest: seq<T.Item>) returns (left: bool)
      requires Valid() && view.phase.Watching? && InStep() && at.pending == [T.Command] + rest
      modifies this`view, this`trace, this`log, this`at, this`statusOpen, this`terminationRequested, sandbox, k
      ensures Valid() && |k.replies| <= |old(k.replies)|
      ensures left ==> view.phase.Exited? && !view.reported && Told()
      ensures !left ==> view.phase.Watching? && InStep() && at.pending == rest && statusOpen == old(statusOpen)
      ensures !left <==> T.Acceptable(old(at), First(old(k.replies)), KillOk(old(sandbox.path), Rest(old(k.replies))))
    {
      ghost var r, killed := First(k.replies), KillOk(sandbox.path, Rest(k.replies));
      left := DecideControl();
      Note(T.Commanded(r, killed));
    }

    /** Only an empty Terminate is acceptable, and acted on once. */
    method DecideControl() returns (left: bool)
      requires Valid() && view.phase.Watching?
      modifies this`view, this`trace, this`statusOpen, this`terminationRequested, sandbox, k
      ensures Valid()
      ensures left ==> view.phase.Exited? && !view.reported
      ensures var r := First(old(k.replies));
              !left <==> && !Erred(r) && r.header == Header(Code(Terminate), 0)
                         && (old(terminationRequested) || KillOk(old(sandbox.path), Rest(old(k.replies))))
      ensures !left ==> view.phase.Watching? && terminationRequested && statusOpen == old(statusOpen)
      ensures view.failureRead == old(view.failureRead)
      ensures |k.replies| <= |old(k.replies)|
    {
      var r := k.Call();
      if Erred(r) || r.header.code != Code(Terminate) || r.header.size != 0 {
        Fail();
        return true;
      }
      if !terminationRequested {
        var ok, kill := sandbox.Terminate(k);
        Emit(P.TerminateHandled(kill));
        if !ok {
          var _ := GiveUp(true);
          return true;
        }
        terminationRequested := true;
      } else {
        Emit(P.TerminateRepeated);
      }
      return false;
    }

    /** A record on the status pipe. */
    method HandleStatus(ghost rest: seq<T.Item>) returns (left: bool)
      requires Valid() && view.phase.Watching? && InStep() && at.pending == [T.Item.Note] + rest
      modifies this`view, this`trace, this`log, this`at, this`statusOpen, this`hasForwarded, this`forwarded, sandbox, k
      ensures Valid() && |k.replies| <= |old(k.replies)|
      ensures left ==> view.phase.Exited? && !view.reported && Told()
      ensures !left ==> view.phase.Watching? && InStep() && at.pending == rest
      ensures var r := First(old(k.replies)).record;
              && (left <==> r.Payload? || r.Error?) && (view.failureRead <==> r.Payload?)
              && (r.WaitStatus? ==> view.forwarded == Some(r.waitStatus))
    {
      ghost var record := First(k.replies).record;
      left := DecideStatus();
      Note(T.ReadNote(record));
    }

    /** A setup failure ends the run here, a wait status is kept, and end of file closes the pipe. */
    method DecideStatus() returns (left: bool)
      requires Valid() && view.phase.Watching?
      modifies this`view, this`trace, this`statusOpen, this`hasForwarded, this`forwarded, sandbox, k
      ensures Valid()
      ensures left ==> view.phase.Exited? && !view.reported
      ensures var r := First(old(k.replies)).record;
              && (left <==> r.Payload? || r.Error?) && (!left ==> statusOpen == (old(statusOpen) && !r.Eof?))
              && (r.WaitStatus? ==> hasForwarded && forwarded == r.waitStatus)
              && (!r.WaitStatus? ==> view.forwarded == old(view.forwarded))
              && (view.failureRead <==> r.Payload?)
      ensures !left ==> view.phase.Watching?
      ensures |k.replies| <= |old(k.replies)|
    {
      P.AcceptedInv(trace, view);
      var r := k.Call();
      match r.record {
        case WaitStatus(ws) =>
          forwarded, hasForwarded := ws, true;
          Emit(P.StatusForwarded(ws));
          return false;
        case Payload(_, _) =>
          statusOpen := false;
          ReportFailure();
          return true;
        case Eof =>
          statusOpen := false;
          Emit(P.StatusEof);
          return false;
        case Error =>
          Fail();
          return true;
      }
    }

    /** The failure is on record; it is reported once the child is reaped and the path is cleared. */
    method ReportFailure()
      requires Valid() && view.phase.Watching?
      modifies this`view, this`trace, this`statusOpen, sandbox, k
      ensures Valid() && view.phase.Exited? && !view.reported && view.failureRead
      ensures |k.replies| <= |old(k.replies)|
    {
      Emit(P.StatusFailure);
      var waited, _ := Reap(false);
      if waited != child {
        Fail();
        return;
      }
      CleanAndReport();
    }

    /** cleanupCgroup after the reap; a cgroup that cannot be removed ends the supervisor. */
    method Clear() returns (ok: bool, attempts: nat)
      requires Valid() && (view.phase.CleaningDone? || view.phase.CleaningFailed?)
      requires view.phase.CleaningDone? && !hasForwarded ==> status == view.raw
      modifies this`view, this`trace, sandbox, k
      ensures Valid() && (sandbox.path == if ok then None else old(sandbox.path)) && view.failureRead == old(view.failureRead)
      ensures view.raw == old(view.raw)
      ensures ok ==> view.phase == (if old(view.phase).CleaningDone? then P.ReportingDone else P.ReportingFailed)
      ensures ok ==> view.history == old(view.history) + [P.Cleared(Deleted(old(sandbox.path), old(k.replies), attempts))]
      ensures !ok ==> view.phase.Exited? && !view.reported && view.stuck
      ensures |k.replies| <= |old(k.replies)|
    {
      var pauses;
      ok, attempts, pauses := sandbox.CleanupCgroup(k);
      if ok {
        Emit(P.GroupRemoved(Deleted(old(sandbox.path), old(k.replies), attempts)));
      } else {
        Emit(P.GroupStuck);
      }
    }

    method CleanAndReport()
      requires Valid() && view.phase.CleaningFailed?
      modifies this`view, this`trace, sandbox, k
      ensures Valid() && view.phase.Exited? && !view.reported && view.failureRead == old(view.failureRead)
      ensures view.stuck || (|view.history| > |old(view.history)| && view.history[|old(view.history)|].Cleared?)
      ensures |k.replies| <= |old(k.replies)|
    {
      var cleared, _ := Clear();
      if cleared { SendFailure(); }
    }

    /** SetupFailed, which is the last thing to do. */
    method SendFailure()
      requires Valid() && view.phase.ReportingFailed?
      modifies this`view, this`trace, k
      ensures Valid() && view.phase.Exited? && !view.reported && view.failureRead == old(view.failureRead)
      ensures view.history == old(view.history) + if Erred(First(old(k.replies))) then [] else [P.SentFailed]
      ensures |k.replies| <= |old(k.replies)|
    {
      var sent := k.Call();
      if Erred(sent) { Emit(P.FailureLost); } else { Emit(P.FailureSent); }
    }

    /** One turn of the loop: poll, control, status, then a wait that does not block. */
    method Turn() returns (left: bool, finished: bool)
      requires Valid() && view.phase.Watching? && InStep() && at.pending == []
      modifies this, sandbox, k
      ensures Valid()
      ensures left ==> view.phase.Exited? && !view.reported && Told()
      ensures !left ==> if finished then view.phase.ReportingDone? && Told() && at.finished && at.raw == view.raw
                        else view.phase.Watching? && InStep() && at.pending == []
      ensures |k.replies| < |old(k.replies)| || left
      ensures var poll, next := First(Settle(old(k.replies))), First(Rest(Settle(old(k.replies)))).record;
              && (Erred(poll) ==> left)
              && (!Erred(poll) && !(poll.value > 0 && poll.events.control) && old(statusOpen) && poll.events.status ==>
                    && (next.Payload? ==> left && view.failureRead)
                    && (next.WaitStatus? ==> view.forwarded == Some(next.waitStatus)))
    {
      finished := false;
      var poll := Poll();
      if Erred(poll) {
        Fail();
        return true, false;
      }
      left, finished := ServePoll(poll);
    }

    method Poll() returns (poll: Reply)
      requires InStep() && at.pending == []
      modifies this`log, this`at, k
      ensures poll == First(Settle(old(k.replies))) && k.replies == Rest(Settle(old(k.replies)))
      ensures |k.replies| < |old(k.replies)| || Erred(poll)
      ensures if Erred(poll) then Told() else InStep() && at.pending == T.Wanted(at, poll)
    {
      poll := k.Retry();
      Note(T.Polled(poll));
    }

    method ServePoll(poll: Reply) returns (left: bool, finished: bool)
      requires Valid() && view.phase.Watching? && InStep() && at.pending == T.Wanted(at, poll)
      modifies this, sandbox, k
      ensures Valid() && |k.replies| <= |old(k.replies)|
      ensures left ==> view.phase.Exited? && !view.reported && Told()
      ensures !left ==> if finished then view.phase.ReportingDone? && Told() && at.finished && at.raw == view.raw
                        else view.phase.Watching? && InStep() && at.pending == []
      ensures !(poll.value > 0 && poll.events.control) && old(statusOpen) && poll.events.status ==>
                var next := First(old(k.replies)).record;
                (next.Payload? ==> left && view.failureRead) && (next.WaitStatus? ==> view.forwarded == Some(next.waitStatus))
    {
      finished := false;
      ghost var rest := (if at.statusOpen && poll.events.status then [T.Item.Note] else []) + [T.Child];
      if poll.value > 0 && poll.events.control {
        left := HandleControl(rest);
        if left { return; }
      } else {
        assert at.pending == rest;
      }
      left, finished := ServeRest(poll);
    }

    /** What is left after a command: a record, and the child. */
    method ServeRest(poll: Reply) returns (left: bool, finished: bool)
      requires Valid() && view.phase.Watching? && InStep()
      requires at.pending == (if at.statusOpen && poll.events.status then [T.Item.Note] else []) + [T.Child]
      modifies this, sandbox, k
      ensures Valid() && |k.replies| <= |old(k.replies)|
      ensures left ==> view.phase.Exited? && !view.reported && Told()
      ensures !left ==> if finished then view.phase.ReportingDone? && Told() && at.finished && at.raw == view.raw
                        else view.phase.Watching? && InStep() && at.pending == []
      ensures old(statusOpen) && poll.events.status ==>
                var next := First(old(k.replies)).record;
                (next.Payload? ==> left && view.failureRead) && (next.WaitStatus? ==> view.forwarded == Some(next.waitStatus))
    {
      finished := false;
      if statusOpen && poll.events.status {
        left := HandleStatus([T.Child]);
        if left { return; }
      } else {
        assert at.pending == [T.Child];
      }
      left, finished := TryReap();
    }

    /** The look at the child that ends each turn. */
    method TryReap() returns (left: bool, finished: bool)
      requires Valid() && view.phase.Watching? && InStep() && at.pending == [T.Child]
      modifies this`view, this`trace, this`log, this`at, this`statusOpen, this`status, sandbox, k
      ensures Valid() && |k.replies| <= |old(k.replies)|
      ensures left ==> view.phase.Exited? && !view.reported && Told()
      ensures !left ==> if finished then view.phase.ReportingDone? && Told() && at.finished && at.raw == view.raw
                        else view.phase.Watching? && InStep() && at.pending == []
      ensures var w := First(Settle(old(k.replies)));
              && (!left && !finished <==> !Erred(w) && w.value == 0)
              && (finished ==> && |view.history| == |old(view.history)| + 2
                               && view.history[|old(view.history)|] == P.Reaped(w.header.size)
                               && view.history[|old(view.history)| + 1].Cleared?)
    {
      ghost var w := First(Settle(k.replies));
      P.AcceptedInv(trace, view);
      left, finished := DecideReap();
      Note(T.Waited(w));
    }

    method DecideReap() returns (left: bool, finished: bool)
      requires Valid() && view.phase.Watching?
      modifies this`view, this`trace, this`statusOpen, this`status, sandbox, k
      ensures Valid()
      ensures left ==> view.phase.Exited? && !view.reported
      ensures !left ==> if finished then view.phase.ReportingDone? else view.phase.Watching?
      ensures view.failureRead == old(view.failureRead) && (finished ==> view.raw == First(Settle(old(k.replies))).header.size)
      ensures !left && !finished ==> statusOpen == old(statusOpen)
      ensures var w := First(Settle(old(k.replies)));
              && (!left && !finished <==> !Erred(w) && w.value == 0)
              && (finished ==> && |view.history| == |old(view.history)| + 2
                               && view.history[|old(view.history)|] == P.Reaped(w.header.size)
                               && view.history[|old(view.history)| + 1].Cleared?)
      ensures finished ==> !left && sandbox.path.None? && !statusOpen
      ensures |k.replies| <= |old(k.replies)|
      ensures finished ==> !Erred(First(Settle(old(k.replies))))
    {
      var waited, raw := Reap(true);
      if waited == -1 {
        Fail();
        return true, false;
      }
      if waited != child { return false, false; }
      if !hasForwarded { status := raw; }
      statusOpen := false;
      var cleared, _ := Clear();
      if !cleared {
        return true, false;
      }
      return false, true;
    }

    /**
     * The whole process. It always leaves, within the protocol, and its exit code is 0 exactly
     * when it reported the end of the submission.
     */
    method Run() returns (exitCode: int)
      requires Valid() && view == P.START && trace == P.EMPTY && InStep() && log == T.EMPTY
      modifies this, sandbox, k
      ensures Valid() && view.phase.Exited?
      ensures exitCode == 0 <==> view.reported
      ensures P.MessageShape(view.history) && P.LastMessageLate(view.history) && P.ReadyAfterGate(view.history)
      ensures view.terminateCalls <= 1 && Read()
    {
      exitCode := RunToExit();
      P.SupervisorDiscipline(trace, view);
    }

    /**
     * Every poll was served as SupervisorTurns demands, and what was read is what the protocol
     * says was read: a forwarded status is the one that is reported, else it is the child's own.
     */
    ghost predicate Read()
      reads `log, `at, `view
    {
      && Noted() && at.forwarded == view.forwarded && at.failureRead == view.failureRead
      && (view.reported ==> at.finished && P.FinalStatus(view) == if at.forwarded.Some? then at.forwarded.value else at.raw)
    }

    method RunToExit() returns (exitCode: int)
      requires Valid() && view == P.START && trace == P.EMPTY && InStep() && log == T.EMPTY
      modifies this, sandbox, k
      ensures Valid() && view.phase.Exited?
      ensures exitCode == 0 <==> view.reported
      ensures Read()
    {
      var ok := Prepare();
      if !ok { return 1; }
      ok := CreateChild();
      if !ok { return 1; }
      ok := Announce();
      if !ok { return 1; }
      var finished := false;
      while !finished
        invariant Valid()
        invariant if finished then view.phase.ReportingDone? && Told() && at.finished && at.raw == view.raw
                  else view.phase.Watching? && InStep() && at.pending == []
        decreases |k.replies|
      {
        var left;
        left, finished := Turn();
        if left { return 1; }
      }
      exitCode := Report();
    }

    method Announce() returns (ok: bool)
      requires Valid() && view.phase.Announcing?
      modifies this`view, this`trace, this`statusOpen, sandbox, k
      ensures Valid() && if ok then view.phase.Watching? else view.phase.Exited? && !view.reported
      ensures ok <==> !Erred(First(old(k.replies)))
      ensures view.failureRead == old(view.failureRead)
      ensures ok ==> statusOpen == old(statusOpen)
    {
      var sent := k.Call();
      if Erred(sent) {
        Emit(P.ReadyLost);
        var _ := GiveUp(false);
        return false;
      }
      Emit(P.ReadySent);
      return true;
    }

    /** Terminated, with the forwarded status if there is one and the child's own otherwise. */
    method Report() returns (exitCode: int)
      requires Valid() && view.phase.ReportingDone?
      modifies this`view, this`trace, k
      ensures Valid() && view.phase.Exited?
      ensures exitCode == 0 <==> view.reported
      ensures exitCode == 0 <==> !Erred(First(old(k.replies)))
      ensures view.history == old(view.history) + if exitCode == 0 then [P.SentTerminated(if hasForwarded then forwarded else status)] else []
      ensures view.failureRead == old(view.failureRead) && P.FinalStatus(view) == P.FinalStatus(old(view))
    {
      var sent := k.Call();
      if Erred(sent) {
        Emit(P.TerminatedLost);
        return 1;
      }
      Emit(P.TerminatedSent(if hasForwarded then forwarded else status));
      return 0;
    }
  }
}
