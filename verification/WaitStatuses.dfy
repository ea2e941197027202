/** The wait status of a child, as <sys/wait.h> encodes it in 16 bits of an int. */
module WaitStatuses {
  predicate Valid(ws: int) {
    && 0 <= ws < 0x1_0000
    && (ws % 128 != 0 ==> ws % 128 != 127 && ws / 256 == 0)
    && (ws % 128 == 0 ==> ws % 256 == 0)
  }

  predicate IfExited(ws: int) { ws % 128 == 0 }

  function ExitStatus(ws: int): int { ws / 256 % 256 }

  predicate IfSignaled(ws: int) { ws % 128 != 0 && ws % 128 != 127 }

  function TermSignal(ws: int): int { ws % 128 }

  datatype Ending = Exited(code: int) | Killed(signal: int) | Other

  function Decode(ws: int): Ending {
    if IfExited(ws) then Exited(ExitStatus(ws))
    else if IfSignaled(ws) then Killed(TermSignal(ws))
    else Other
  }

  /** The status of a process that calls _exit(code), and of one that dies of a signal. */
  function OfExit(code: int): int
    requires 0 <= code < 256
  {
    256 * code
  }

  function OfSignal(signal: int, core: bool): int
    requires 0 < signal < 127
  {
    signal + if core then 128 else 0
  }

  const EXIT_FAILURE := 1
  const SIGKILL := 9

  /**
   * Child A, having waited for B, ends as B ended: same exit code, or killed by the same signal
   * (sandbox.cpp, after the wait for child B).
   */
  function Mirror(ws: int, core: bool): int
    requires Valid(ws)
  {
    if IfExited(ws) then OfExit(ExitStatus(ws)) else OfSignal(TermSignal(ws), core)
  }

  /** Whoever decodes A's status learns how B ended, whether or not either dumped core. */
  lemma MirrorFaithful(ws: int, core: bool)
    requires Valid(ws)
    ensures Decode(Mirror(ws, core)) == Decode(ws) && Valid(Mirror(ws, core))
  {
  }

  /** What decoding finds: the exit code is the second byte, the signal the first without the core flag. */
  lemma DecodeMeaning(ws: int, c: int)
    requires Valid(ws)
    ensures Decode(ws) == Exited(c) <==> 0 <= c < 256 && ws == 256 * c
    ensures Decode(ws) == Killed(c) <==> 0 < c < 127 && (ws == c || ws == c + 128)
    ensures !Decode(ws).Other?
  {
  }
}
