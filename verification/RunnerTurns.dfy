/**
 * What the runner's poll loop owes to each poll. After a poll every stream that it reported and
 * that is still open is served, once and in a fixed order, before the next poll; a message on the
 * control socket goes before everything else and ends the loop. The log of the loop's own calls
 * and their replies is replayed here, and says what was captured and fed. Runner.dfy shows that
 * the code keeps to it.
 */
module RunnerTurns {
  import opened Bytes
  import opened Results
  import opened Kernel
  import opened Deadlines

  const IO_BUFFER_SIZE := 4096

  /** How many of the offered bytes a write that did not fail took. */
  function Taken(r: Reply, most: nat): (n: nat)
    ensures n <= most && (0 <= r.value <= most ==> n == r.value)
  {
    if r.value < 0 then 0 else if r.value > most then most else r.value
  }

  /** The bytes that a read brought. */
  function Chunk(r: Reply): (data: seq<Byte>)
    ensures |data| <= IO_BUFFER_SIZE && data <= r.data
    ensures r.value != 0 && |r.data| <= IO_BUFFER_SIZE ==> data == r.data
    ensures r.value == 0 ==> data == []
  {
    if r.value == 0 then [] else if |r.data| <= IO_BUFFER_SIZE then r.data else r.data[..IO_BUFFER_SIZE]
  }

  /** The bytes offered to one write. */
  function ChunkSize(remaining: nat): (n: nat)
    ensures n <= remaining && n <= 4096 && (n == remaining || n == 4096)
  {
    if remaining < IO_BUFFER_SIZE then remaining else IO_BUFFER_SIZE
  }

  /** Something that a poll reported and that is still to be seen to. */
  datatype Item = Message | Hangup | Input | Output | Errors

  /** A call of the loop, with its reply. */
  datatype Entry =
    | Asked(now: int, r: Reply)                  // Terminate, at the deadline
    | Polled(now: int, timeout: int, r: Reply)
    | Told(ended: bool)                          // the control socket; `ended`: Terminated, and the supervisor reaped
    | HungUp
    | Fed(r: Reply) | ReadOut(r: Reply) | ReadErr(r: Reply)

  datatype Setup = Setup(size: nat, deadline: int)

  /** `stopped`: a call failed, so that the loop is left with a failure. `over`: Terminated was taken over. */
  datatype State = State(
    pending: seq<Item>, asked: bool, stopped: bool, over: bool,
    stdin: bool, stdout: bool, stderr: bool, fed: nat, out: seq<Byte>, err: seq<Byte>)

  function Start(setup: Setup): State {
    State([], false, false, false, setup.size > 0, true, true, 0, [], [])
  }

  function InputWanted(s: State, ev: Events): seq<Item> {
    if s.stdin && ev.stdinHup then [Hangup] else if s.stdin && ev.stdinReady then [Input] else []
  }

  function OutputWanted(s: State, ev: Events): seq<Item> {
    if s.stdout && ev.stdoutReady then [Output] else []
  }

  function ErrorsWanted(s: State, ev: Events): seq<Item> {
    if s.stderr && ev.stderrReady then [Errors] else []
  }

  /** What a poll with these events obliges the loop to. */
  function Wanted(s: State, ev: Events): seq<Item> {
    if ev.control then [Message]
    else InputWanted(s, ev) + OutputWanted(s, ev) + ErrorsWanted(s, ev)
  }

  /** A stream is due exactly if it is open and was reported, and nothing is due beside a message. */
  lemma WantedExactly(s: State, ev: Events)
    ensures Item.Message in Wanted(s, ev) <==> ev.control
    ensures Hangup in Wanted(s, ev) <==> !ev.control && s.stdin && ev.stdinHup
    ensures Input in Wanted(s, ev) <==> !ev.control && s.stdin && !ev.stdinHup && ev.stdinReady
    ensures Output in Wanted(s, ev) <==> !ev.control && s.stdout && ev.stdoutReady
    ensures Errors in Wanted(s, ev) <==> !ev.control && s.stderr && ev.stderrReady
  {
  }

  predicate Serves(e: Entry, item: Item) {
    match item
    case Message => e.Told?
    case Hangup => e.HungUp?
    case Input => e.Fed?
    case Output => e.ReadOut?
    case Errors => e.ReadErr?
  }

  /** This call may come next: what is pending first, and nothing else in between. */
  predicate Fits(setup: Setup, s: State, e: Entry) {
    && !s.stopped && !s.over
    && match e
       case Asked(now, _) => s.pending == [] && !s.asked && now >= setup.deadline
       case Polled(now, timeout, _) =>
         s.pending == [] && if s.asked then timeout == 10
                            else now < setup.deadline && timeout == ToInt((setup.deadline - now) / NS_PER_MS)
       case _ => s.pending != [] && Serves(e, s.pending[0])
  }

  /** What this call brought from one of the streams. */
  function BroughtBy(e: Entry, output: bool): seq<Byte> {
    if (if output then e.ReadOut? else e.ReadErr?) && !Erred(e.r) then Chunk(e.r) else []
  }

  /** The call failed in a way that leaves the loop. */
  predicate Stops(e: Entry) {
    match e
    case Told(ended) => !ended
    case HungUp => false
    case Fed(r) => Erred(r) && r.errno != EPIPE
    case _ => Erred(e.r)
  }

  /** How much a write adds to what was fed. */
  function Progress(setup: Setup, s: State, r: Reply): nat {
    if Erred(r) || s.fed > setup.size then 0 else Taken(r, ChunkSize(setup.size - s.fed))
  }

  /** stdin is closed by a hang-up, by EPIPE, at the end of the input, and when Terminate is sent or Terminated taken over. */
  predicate StdinAfter(setup: Setup, s: State, e: Entry) {
    s.stdin && match e
               case Asked(_, r) => Erred(r)
               case Told(ended) => !ended
               case HungUp => false
               case Fed(r) => if Erred(r) then r.errno != EPIPE else s.fed + Progress(setup, s, r) != setup.size
               case _ => true
  }

  function Step(setup: Setup, s: State, e: Entry): State
    requires Fits(setup, s, e)
  {
    State(
      if e.Polled? && !Erred(e.r) then Wanted(s, e.r.events) else if e.Polled? || e.Asked? then s.pending else s.pending[1..],
      s.asked || (e.Asked? && !Erred(e.r)),
      Stops(e),
      e.Told? && e.ended,
      StdinAfter(setup, s, e),
      s.stdout && !(e.Told? && e.ended) && !(e.ReadOut? && !Erred(e.r) && Chunk(e.r) == []),
      s.stderr && !(e.Told? && e.ended) && !(e.ReadErr? && !Erred(e.r) && Chunk(e.r) == []),
      if e.Fed? then s.fed + Progress(setup, s, e.r) else s.fed,
      s.out + BroughtBy(e, true),
      s.err + BroughtBy(e, false))
  }

  /** A log: the calls, and where the loop stood before, between and after them. */
  datatype Log = Log(entries: seq<Entry>, states: seq<State>)

  predicate StepAt(setup: Setup, log: Log, i: nat)
    requires i < |log.entries| < |log.states|
  {
    Fits(setup, log.states[i], log.entries[i]) && log.states[i + 1] == Step(setup, log.states[i], log.entries[i])
  }

  /** Every call in the log came when it was due, and this is where it leads. */
  ghost predicate Follows(setup: Setup, log: Log, s: State) {
    && |log.states| == |log.entries| + 1 && log.states[0] == Start(setup) && log.states[|log.entries|] == s
    && forall i: nat :: i < |log.entries| ==> StepAt(setup, log, i)
  }

  function Empty(setup: Setup): Log { Log([], [Start(setup)]) }

  function Extended(log: Log, e: Entry, s: State): Log {
    Log(log.entries + [e], log.states + [s])
  }

  lemma FollowsNext(setup: Setup, log: Log, s: State, e: Entry)
    requires Follows(setup, log, s) && Fits(setup, s, e)
    ensures Follows(setup, Extended(log, e, Step(setup, s, e)), Step(setup, s, e))
  {
    var log' := Extended(log, e, Step(setup, s, e));
    forall i: nat | i < |log'.entries| ensures StepAt(setup, log', i) {
      if i < |log.entries| { assert StepAt(setup, log, i); }
    }
  }

  /** What the reads from one of the streams brought, in order. */
  function Brought(entries: seq<Entry>, output: bool): seq<Byte> {
    if entries == [] then [] else Brought(entries[..|entries| - 1], output) + BroughtBy(entries[|entries| - 1], output)
  }

  /** The captured streams are what the reads in the log brought, all of it and nothing else. */
  lemma {:induction false} CapturedIsBrought(setup: Setup, log: Log, s: State, n: nat)
    requires Follows(setup, log, s) && n <= |log.entries|
    ensures log.states[n].out == Brought(log.entries[..n], true) && log.states[n].err == Brought(log.entries[..n], false)
  {
    if n > 0 {
      CapturedIsBrought(setup, log, s, n - 1);
      assert StepAt(setup, log, n - 1);
      assert log.entries[..n][..n - 1] == log.entries[..n - 1];
    }
  }

  /** From a poll on, an item that it reported is pending until it is served. */
  lemma {:induction false} PendingOrServed(setup: Setup, log: Log, s: State, i: nat, n: nat, item: Item)
    requires Follows(setup, log, s) && i < n <= |log.entries| && log.entries[i].Polled? && !Erred(log.entries[i].r)
    requires item in Wanted(log.states[i], log.entries[i].r.events)
    ensures item in log.states[n].pending || exists k :: i < k < n && Serves(log.entries[k], item)
    decreases n
  {
    assert StepAt(setup, log, n - 1);
    if i < n - 1 {
      PendingOrServed(setup, log, s, i, n - 1, item);
      if item in log.states[n - 1].pending && !Serves(log.entries[n - 1], item) {
        StillPending(setup, log.states[n - 1], log.entries[n - 1], item);
      }
    }
  }

  lemma StillPending(setup: Setup, s: State, e: Entry, item: Item)
    requires Fits(setup, s, e) && item in s.pending && !Serves(e, item)
    ensures item in Step(setup, s, e).pending
  {
    assert s.pending == [s.pending[0]] + s.pending[1..];
  }

  /** Whatever a poll reported is served before the loop polls again. */
  lemma ServedBeforeNextPoll(setup: Setup, log: Log, s: State, i: nat, j: nat, item: Item)
    requires Follows(setup, log, s) && i < j < |log.entries|
    requires log.entries[i].Polled? && !Erred(log.entries[i].r) && (log.entries[j].Polled? || log.entries[j].Asked?)
    requires item in Wanted(log.states[i], log.entries[i].r.events)
    ensures exists k :: i < k < j && Serves(log.entries[k], item)
  {
    assert StepAt(setup, log, j);
    PendingOrServed(setup, log, s, i, j, item);
  }

  /** Before the deadline a poll never waits past it, for every wall limit below 2^31 ms; afterwards it waits 10 ms. */
  lemma PollsAreTimely(setup: Setup, log: Log, s: State, i: nat)
    requires Follows(setup, log, s) && i < |log.entries| && log.entries[i].Polled?
    ensures var before, e := log.states[i], log.entries[i];
            && (before.asked ==> e.timeout == 10)
            && (!before.asked ==> e.now < setup.deadline)
            && (!before.asked && (setup.deadline - e.now) / NS_PER_MS < I32_LIMIT ==>
                  0 <= e.timeout * NS_PER_MS <= setup.deadline - e.now)
  {
    assert StepAt(setup, log, i);
    if !log.states[i].asked { PollTimeoutFaithful(log.entries[i].now, setup.deadline); }
  }
}
