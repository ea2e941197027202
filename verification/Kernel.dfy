/**
 * System calls as seen by one process: a script of replies the kernel will give, in order, each
 * of which may be anything. When the script ends every further call fails with EIO, so that a
 * finite script is a finite piece of some execution and every process here terminates.
 */
module Kernel {
  import opened Bytes
  import opened StatusPipe

  datatype Errno = EINTR | EPIPE | EPERM | EACCES | ENOENT | EBUSY | EEXIST | EIO

  predicate Denied(e: Errno) {
    e == EPERM || e == EACCES
  }

  /** No other error counts as a denial. */
  lemma DeniedCases(e: Errno)
    ensures Denied(e) <==> e in {EPERM, EACCES}
  {
  }

  datatype Header = Header(code: U32, size: U32)

  /** revents of a poll: readable and writable flags, and hang-ups or errors. */
  datatype Events = Events(control: bool, status: bool, stdinReady: bool, stdinHup: bool, stdoutReady: bool, stderrReady: bool)

  /** One reply; a call looks at the fields it is about. A failing call has value -1. */
  datatype Reply = Reply(value: int, errno: Errno, data: seq<Byte>, header: Header, record: ReadResult, events: Events)

  predicate Erred(r: Reply) { r.value == -1 }

  const SILENCE := Reply(-1, EIO, [], Header(0, 0), Error, Events(false, false, false, false, false, false))

  function First(replies: seq<Reply>): Reply {
    if replies == [] then SILENCE else replies[0]
  }

  function Rest(replies: seq<Reply>): seq<Reply> {
    if replies == [] then [] else replies[1..]
  }

  /** The i-th reply from here. */
  function At(replies: seq<Reply>, i: nat): Reply {
    if i < |replies| then replies[i] else SILENCE
  }

  function Drop(replies: seq<Reply>, n: nat): seq<Reply> {
    if n <= |replies| then replies[n..] else []
  }

  /** The first n calls all succeed. */
  predicate Granted(replies: seq<Reply>, n: nat)
    decreases n
  {
    n == 0 || (Granted(replies, n - 1) && !Erred(At(replies, n - 1)))
  }

  lemma GrantedNext(replies: seq<Reply>, n: nat)
    ensures Granted(replies, n + 1) <==> Granted(replies, n) && !Erred(At(replies, n))
  {
  }

  /** The replies from the first one on that is not an interruption. */
  function Settle(replies: seq<Reply>): seq<Reply> {
    if replies != [] && Erred(replies[0]) && replies[0].errno == EINTR then Settle(replies[1..]) else replies
  }

  class Script {
    var replies: seq<Reply>

    constructor (replies: seq<Reply>)
      ensures this.replies == replies
    {
      this.replies := replies;
    }

    method Call() returns (r: Reply)
      modifies this
      ensures r == First(old(replies)) && replies == Rest(old(replies))
      ensures |replies| < |old(replies)| || (replies == [] && r == SILENCE)
    {
      if replies == [] { return SILENCE; }
      r := replies[0];
      replies := replies[1..];
    }

    /** A call that is the n-th of a row of calls, counted from 0. */
    method CallNth(ghost all: seq<Reply>, ghost n: nat) returns (r: Reply)
      requires replies == Drop(all, n)
      modifies this
      ensures r == At(all, n) && replies == Drop(all, n + 1)
    {
      r := Call();
    }

    /** do { call } while (it fails with EINTR) */
    method Retry() returns (r: Reply)
      modifies this
      ensures !(Erred(r) && r.errno == EINTR)
      ensures r == First(Settle(old(replies))) && replies == Rest(Settle(old(replies)))
      ensures |replies| < |old(replies)| || (replies == [] && r == SILENCE)
    {
      r := Call();
      while Erred(r) && r.errno == EINTR
        invariant |replies| < |old(replies)| || (replies == [] && r == SILENCE)
        invariant if Erred(r) && r.errno == EINTR then Settle(replies) == Settle(old(replies))
                  else r == First(Settle(old(replies))) && replies == Rest(Settle(old(replies)))
        decreases |replies|, if r == SILENCE then 0 else 1
      {
        r := Call();
      }
    }

    /** waitpid or wait4 on one child: the child, nothing yet (only with WNOHANG), or a failure. */
    method Wait(child: int, noHang: bool) returns (waited: int, status: int)
      requires child > 0
      modifies this
      ensures waited == child || waited == -1 || (noHang && waited == 0)
      ensures waited == -1 <==> Erred(First(Settle(old(replies))))
      ensures waited == 0 <==> noHang && First(Settle(old(replies))).value == 0
      ensures status == First(Settle(old(replies))).header.size
      ensures |replies| <= |old(replies)|
    {
      var r := Retry();
      status := r.header.size;
      if Erred(r) {
        waited := -1;
      } else if r.value == 0 && noHang {
        waited := 0;
      } else {
        waited := child;
      }
    }
  }
}
