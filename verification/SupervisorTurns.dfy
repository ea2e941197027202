/**
 * What the supervisor's loop owes to each poll: a command if one was reported, then a record if
 * the status pipe is open and was reported, and always a look at the child, in this order and
 * before the next poll. The log of these calls says what was read. Supervisor.dfy shows that the
 * code keeps to it.
 */
module SupervisorTurns {
  import opened Results
  import opened Kernel
  import opened StatusPipe
  import opened Wire

  datatype Item = Command | Note | Child

  /** A call of the loop, with its reply; `killed`: the kill that a first Terminate asks for did not fail. */
  datatype Entry =
    | Polled(r: Reply)
    | Commanded(r: Reply, killed: bool)
    | ReadNote(record: ReadResult)
    | Waited(r: Reply)

  /** `stopped`: the loop was left with a failure, or because a setup failure was read. `finished`: the child was reaped. */
  datatype State = State(
    pending: seq<Item>, statusOpen: bool, requested: bool, forwarded: Option<int>, failureRead: bool,
    stopped: bool, finished: bool, raw: int)

  const START := State([], true, false, None, false, false, false, 0)

  /** What a poll obliges the loop to. */
  function Wanted(s: State, poll: Reply): seq<Item> {
    (if poll.value > 0 && poll.events.control then [Command] else [])
    + ((if s.statusOpen && poll.events.status then [Note] else []) + [Child])
  }

  /** The child is always due, a command if reported, a record if reported and the pipe is open. */
  lemma WantedExactly(s: State, poll: Reply)
    ensures Child in Wanted(s, poll)
    ensures Command in Wanted(s, poll) <==> poll.value > 0 && poll.events.control
    ensures Note in Wanted(s, poll) <==> s.statusOpen && poll.events.status
  {
  }

  predicate Serves(e: Entry, item: Item) {
    match item
    case Command => e.Commanded?
    case Note => e.ReadNote?
    case Child => e.Waited?
  }

  predicate Fits(s: State, e: Entry) {
    !s.stopped && !s.finished && if e.Polled? then s.pending == [] else s.pending != [] && Serves(e, s.pending[0])
  }

  /** Only an empty Terminate is acceptable, and the first one only if the kill does not fail. */
  predicate Acceptable(s: State, r: Reply, killed: bool) {
    !Erred(r) && r.header == Header(Code(Terminate), 0) && (s.requested || killed)
  }

  predicate Stops(s: State, e: Entry) {
    match e
    case Polled(r) => Erred(r)
    case Commanded(r, killed) => !Acceptable(s, r, killed)
    case ReadNote(record) => record.Payload? || record.Error?
    case Waited(r) => Erred(r)
  }

  predicate Ends(e: Entry) {
    e.Waited? && !Erred(e.r) && e.r.value != 0
  }

  function Step(s: State, e: Entry): State
    requires Fits(s, e)
  {
    State(
      if !e.Polled? then s.pending[1..] else if Erred(e.r) then [] else Wanted(s, e.r),
      s.statusOpen && !Ends(e) && !(e.ReadNote? && (e.record.Eof? || e.record.Payload?)),
      s.requested || (e.Commanded? && Acceptable(s, e.r, e.killed)),
      if e.ReadNote? && e.record.WaitStatus? then Some(e.record.waitStatus) else s.forwarded,
      s.failureRead || (e.ReadNote? && e.record.Payload?),
      Stops(s, e),
      Ends(e),
      if Ends(e) then e.r.header.size else s.raw)
  }

  datatype Log = Log(entries: seq<Entry>, states: seq<State>)

  predicate StepAt(log: Log, i: nat)
    requires i < |log.entries| < |log.states|
  {
    Fits(log.states[i], log.entries[i]) && log.states[i + 1] == Step(log.states[i], log.entries[i])
  }

  /** Every call in the log came when it was due, and this is where it leads. */
  ghost predicate Follows(log: Log, s: State) {
    && |log.states| == |log.entries| + 1 && log.states[0] == START && log.states[|log.entries|] == s
    && forall i: nat :: i < |log.entries| ==> StepAt(log, i)
  }

  const EMPTY := Log([], [START])

  function Extended(log: Log, e: Entry, s: State): Log {
    Log(log.entries + [e], log.states + [s])
  }

  lemma FollowsNext(log: Log, s: State, e: Entry)
    requires Follows(log, s) && Fits(s, e)
    ensures Follows(Extended(log, e, Step(s, e)), Step(s, e))
  {
    var log' := Extended(log, e, Step(s, e));
    forall i: nat | i < |log'.entries| ensures StepAt(log', i) {
      if i < |log.entries| { assert StepAt(log, i); }
    }
  }

  /** The last wait status that was read, if any. */
  function LastForwarded(entries: seq<Entry>): Option<int> {
    if entries == [] then None
    else
      var e := entries[|entries| - 1];
      if e.ReadNote? && e.record.WaitStatus? then Some(e.record.waitStatus) else LastForwarded(entries[..|entries| - 1])
  }

  /** The forwarded status is the last one read, and a failure counts as read exactly if a failure record was. */
  lemma {:induction false} ReadIsRemembered(log: Log, s: State, n: nat)
    requires Follows(log, s) && n <= |log.entries|
    ensures log.states[n].forwarded == LastForwarded(log.entries[..n])
    ensures log.states[n].failureRead <==> exists i :: 0 <= i < n && log.entries[i].ReadNote? && log.entries[i].record.Payload?
  {
    if n > 0 {
      ReadIsRemembered(log, s, n - 1);
      assert StepAt(log, n - 1);
      assert log.entries[..n][..n - 1] == log.entries[..n - 1];
    }
  }

  /** From a poll on, an item that it calls for is pending until it is served. */
  lemma {:induction false} PendingOrServed(log: Log, s: State, i: nat, n: nat, item: Item)
    requires Follows(log, s) && i < n <= |log.entries| && log.entries[i].Polled? && !Erred(log.entries[i].r)
    requires item in Wanted(log.states[i], log.entries[i].r)
    ensures item in log.states[n].pending || exists k :: i < k < n && Serves(log.entries[k], item)
    decreases n
  {
    assert StepAt(log, n - 1);
    if i < n - 1 {
      PendingOrServed(log, s, i, n - 1, item);
      var p := log.states[n - 1].pending;
      if item in p && !Serves(log.entries[n - 1], item) {
        assert p == [p[0]] + p[1..];
      }
    }
  }

  /** Whatever a poll calls for is served before the loop polls again: in particular the status pipe is read. */
  lemma ServedBeforeNextPoll(log: Log, s: State, i: nat, j: nat, item: Item)
    requires Follows(log, s) && i < j < |log.entries|
    requires log.entries[i].Polled? && !Erred(log.entries[i].r) && log.entries[j].Polled?
    requires item in Wanted(log.states[i], log.entries[i].r)
    ensures exists k :: i < k < j && Serves(log.entries[k], item)
  {
    assert StepAt(log, j);
    PendingOrServed(log, s, i, j, item);
  }

  /** The child is looked at only after a reported record was read, so a failure that is there in time is not missed. */
  lemma RecordBeforeChild(log: Log, s: State, i: nat, j: nat)
    requires Follows(log, s) && i < j < |log.entries|
    requires log.entries[i].Polled? && !Erred(log.entries[i].r) && log.entries[j].Waited?
    requires forall m :: i < m < j ==> !log.entries[m].Waited? && !log.entries[m].Polled?
    requires log.states[i].statusOpen && log.entries[i].r.events.status
    ensures exists k :: i < k < j && log.entries[k].ReadNote?
  {
    ChildLast(log, s, i, j);
    PendingOrServed(log, s, i, j, Note);
    assert StepAt(log, j);
    if k :| i < k < j && Serves(log.entries[k], Note) {
      assert log.entries[k].ReadNote?;
    }
  }

  /** Until the child was looked at, that is the last thing pending. */
  lemma {:induction false} ChildLast(log: Log, s: State, i: nat, n: nat)
    requires Follows(log, s) && i < n < |log.states| && log.entries[i].Polled? && !Erred(log.entries[i].r)
    requires forall m :: i < m < n ==> !log.entries[m].Waited? && !log.entries[m].Polled?
    ensures var p := log.states[n].pending;
            p != [] && p[|p| - 1] == Child && forall m :: 0 <= m < |p| - 1 ==> p[m] != Child
    decreases n
  {
    assert StepAt(log, n - 1);
    if i < n - 1 { ChildLast(log, s, i, n - 1); }
  }
}
