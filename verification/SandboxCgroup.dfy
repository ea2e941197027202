/** src/sandbox/sandbox.cpp: what the supervisor does with the execution cgroup. */
module SandboxCgroup {
  import opened Kernel
  import opened Results

  /** How an attempt to kill the cgroup ended; only the last one is reported as a failure. */
  datatype Kill = NoGroup | GroupKilled | Tolerated | KillFailed

  const RETRIES: nat := 5

  predicate Busy(r: Reply) { Erred(r) && r.errno == EBUSY }

  /** rmdir did it, or there is nothing this process could do. */
  predicate Removed(r: Reply) { !Erred(r) || r.errno == ENOENT || Denied(r.errno) }

  /** These many attempts were made: each but the last found the cgroup busy, and the last decided or was the fifth. */
  predicate Attempted(replies: seq<Reply>, attempts: nat) {
    && 1 <= attempts <= 5
    && (forall i :: 0 <= i < attempts - 1 ==> Busy(At(replies, i)))
    && (attempts < 5 ==> !Busy(At(replies, attempts - 1)))
  }

  /** The last attempt did remove the cgroup. */
  predicate Deleted(path: Option<string>, replies: seq<Reply>, attempts: nat) {
    path.Some? && attempts > 0 && !Erred(At(replies, attempts - 1))
  }

  /** The process id was written to cgroup.procs. */
  predicate Joined(path: Option<string>, replies: seq<Reply>, digits: nat) {
    path.Some? && !Erred(First(replies)) && First(Rest(replies)).value == digits
  }

  /** The cgroup is not ours to manage, so the process runs without one. */
  predicate Waived(path: Option<string>, replies: seq<Reply>) {
    var fd, written := First(replies), First(Rest(replies));
    path.None? || if Erred(fd) then Denied(fd.errno) else Erred(written) && Denied(written.errno)
  }

  /** The kill was written, there is no cgroup, or the kill was denied. */
  predicate KillOk(path: Option<string>, replies: seq<Reply>) {
    var fd, written := First(replies), First(Rest(replies));
    path.None? || if Erred(fd) then Denied(fd.errno) || fd.errno == ENOENT
                  else written.value == 1 || (Erred(written) && Denied(written.errno))
  }

  /** What is left of the replies after an attempt to join. */
  function AfterJoin(path: Option<string>, replies: seq<Reply>): seq<Reply> {
    if path.None? then replies else if Erred(First(replies)) then Rest(replies) else Rest(Rest(replies))
  }

  class Sandbox {
    /** cgroup_path_; None for the empty string, when there is no cgroup to manage (any more). */
    var path: Option<string>

    constructor ()
      ensures path.None?
    {
      path := None;
    }

    /**
     * setupCgroup: a directory of its own, none because creation was denied, or a failure. Only
     * a directory that already existed makes the failing sandbox forget the path.
     */
    method SetupCgroup(k: Script, name: string) returns (ok: bool)
      modifies this, k
      ensures k.replies == Rest(old(k.replies)) && |k.replies| <= |old(k.replies)|
      ensures ok <==> !Erred(First(old(k.replies))) || Denied(First(old(k.replies)).errno)
      ensures path == (if Erred(First(old(k.replies))) && (Denied(First(old(k.replies)).errno) || First(old(k.replies)).errno == EEXIST)
                       then None else Some(name))
    {
      path := Some(name);
      var mkdir := k.Call();
      if Erred(mkdir) {
        if mkdir.errno == EEXIST {
          path := None;
          return false;
        }
        if Denied(mkdir.errno) {
          path := None;
          return true;
        }
        return false;
      }
      return true;
    }

    /**
     * addProcessToCgroup: on success the process is a member, or there is no cgroup to manage
     * any more. A failure leaves the path as it was.
     */
    method AddProcess(k: Script, digits: nat) returns (ok: bool, ghost member: bool)
      requires digits > 0
      modifies this, k
      ensures |k.replies| <= |old(k.replies)|
      ensures ok ==> (member <==> path.Some?)
      ensures path == old(path) || (path.None? && ok)
      ensures member <==> Joined(old(path), old(k.replies), digits)
      ensures ok <==> member || Waived(old(path), old(k.replies))
      ensures k.replies == AfterJoin(old(path), old(k.replies))
    {
      member := false;
      if path.None? { return true, false; }
      var fd := k.Call();
      if Erred(fd) {
        if Denied(fd.errno) {
          path := None;
          return true, false;
        }
        return false, false;
      }
      var written := k.Call();
      if Erred(written) && Denied(written.errno) {
        path := None;
        return true, false;
      }
      if written.value != digits { return false, false; }
      return true, true;
    }

    /**
     * terminate: reports success when the kill was written, but also when there is no cgroup or
     * the kernel denied the kill, in which case the path is forgotten and nothing was killed.
     */
    method Terminate(k: Script) returns (ok: bool, ghost kill: Kill)
      modifies this, k
      ensures |k.replies| <= |old(k.replies)|
      ensures (ok <==> !kill.KillFailed?) && (ok <==> KillOk(old(path), old(k.replies)))
      ensures kill.NoGroup? <==> old(path).None?
      ensures path == if kill.Tolerated? then None else old(path)
      ensures var fd, written := First(old(k.replies)), First(Rest(old(k.replies)));
              && (kill.GroupKilled? <==> old(path).Some? && !Erred(fd) && written.value == 1)
              && (kill.Tolerated? <==> old(path).Some? && if Erred(fd) then Denied(fd.errno) || fd.errno == ENOENT else Erred(written) && Denied(written.errno))
    {
      if path.None? { return true, NoGroup; }
      var fd := k.Call();
      if Erred(fd) {
        if Denied(fd.errno) || fd.errno == ENOENT {
          path := None;
          return true, Tolerated;
        }
        return false, KillFailed;
      }
      var written := k.Call();
      if Erred(written) && Denied(written.errno) {
        path := None;
        return true, Tolerated;
      }
      if written.value == 1 { return true, GroupKilled; }
      return false, KillFailed;
    }

    /** cleanupCgroup: at most five attempts with a pause after each busy one; success and only success forgets the path. */
    method CleanupCgroup(k: Script) returns (ok: bool, attempts: nat, pauses: nat)
      modifies this, k
      ensures |k.replies| <= |old(k.replies)|
      ensures old(path).None? ==> ok && attempts == pauses == 0
      ensures old(path).Some? ==> Attempted(old(k.replies), attempts) && (ok <==> Removed(At(old(k.replies), attempts - 1)))
      ensures old(path).Some? ==> pauses == if Busy(At(old(k.replies), attempts - 1)) then attempts else attempts - 1
      ensures path == if ok then None else old(path)
    {
      attempts, pauses := 0, 0;
      if path.None? { return true, 0, 0; }
      var retries: nat := RETRIES;
      while retries > 0
        invariant retries + attempts == RETRIES && pauses == attempts
        invariant path == old(path)
        invariant |k.replies| <= |old(k.replies)|
        invariant forall i :: 0 <= i < attempts ==> Busy(At(old(k.replies), i))
        invariant k.replies == if attempts <= |old(k.replies)| then old(k.replies)[attempts..] else []
      {
        var rmdir := k.Call();
        attempts := attempts + 1;
        if Erred(rmdir) {
          if rmdir.errno == ENOENT {
            path := None;
            return true, attempts, pauses;
          } else if rmdir.errno == EBUSY {
            pauses := pauses + 1;
            retries := retries - 1;
          } else if Denied(rmdir.errno) {
            path := None;
            return true, attempts, pauses;
          } else {
            return false, attempts, pauses;
          }
        } else {
          path := None;
          return true, attempts, pauses;
        }
      }
      return false, attempts, pauses;
    }
  }
}
