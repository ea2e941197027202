/** The wall-clock deadline of ProcessRunner::run: poll timeouts, and when Terminate is sent for it. */
module Deadlines {
  import opened Bytes

  const NS_PER_MS := 1_000_000

  /** static_cast<int> of a 64-bit count. */
  function ToInt(n: int): int {
    var w := n % U32_LIMIT;
    if w < I32_LIMIT then w else w - U32_LIMIT
  }

  function PollTimeout(finished: bool, requested: bool, now: int, deadline: int): int {
    if finished then 0
    else if requested then 10
    else if now >= deadline then 0
    else ToInt((deadline - now) / NS_PER_MS)
  }

  /**
   * Before the deadline the timeout is the remaining time in whole milliseconds, so poll returns
   * in time, exactly when that number fits an int; in particular for every wall limit below 2^31 ms.
   */
  lemma PollTimeoutFaithful(now: int, deadline: int)
    requires now < deadline
    ensures var t := PollTimeout(false, false, now, deadline);
            t == (deadline - now) / NS_PER_MS <==> (deadline - now) / NS_PER_MS < I32_LIMIT
    ensures (deadline - now) / NS_PER_MS < I32_LIMIT ==>
              0 <= PollTimeout(false, false, now, deadline) * NS_PER_MS <= deadline - now
  {
  }

  /** One pass through the loop head: the clock, and what was done about the deadline. */
  datatype Attempt = NoAttempt | Sent | Lost
  datatype Head = Head(now: int, finished: bool, attempt: Attempt)

  predicate Due(h: Head, deadline: int) {
    !h.finished && h.now >= deadline
  }

  ghost predicate FirstDue(heads: seq<Head>, i: nat, deadline: int)
    requires i < |heads|
  {
    Due(heads[i], deadline) && forall j :: 0 <= j < i ==> !Due(heads[j], deadline)
  }

  ghost predicate SomeSent(heads: seq<Head>) {
    exists i :: 0 <= i < |heads| && heads[i].attempt == Sent
  }

  /**
   * Terminate is attempted at the first unfinished loop head at or past the deadline, and at no
   * other head; nothing follows a lost attempt.
   */
  ghost predicate Punctual(heads: seq<Head>, deadline: int) {
    && (forall i :: 0 <= i < |heads| ==> (heads[i].attempt != NoAttempt <==> FirstDue(heads, i, deadline)))
    && (forall i :: 0 <= i < |heads| && heads[i].attempt == Lost ==> i == |heads| - 1)
  }

  lemma PunctualStep(heads: seq<Head>, h: Head, deadline: int)
    requires Punctual(heads, deadline)
    requires forall i :: 0 <= i < |heads| ==> heads[i].attempt != Lost
    requires h.attempt != NoAttempt <==> Due(h, deadline) && !SomeSent(heads)
    ensures Punctual(heads + [h], deadline)
    ensures SomeSent(heads + [h]) <==> SomeSent(heads) || h.attempt == Sent
  {
    var hs := heads + [h];
    forall i: nat | i < |heads| ensures FirstDue(hs, i, deadline) <==> FirstDue(heads, i, deadline) {
      assert forall j :: 0 <= j <= i ==> hs[j] == heads[j];
    }
    if SomeSent(heads) {
      var i :| 0 <= i < |heads| && heads[i].attempt == Sent;
      assert FirstDue(heads, i, deadline) && hs[i] == heads[i];
    } else if exists j :: 0 <= j < |heads| && Due(heads[j], deadline) {
      var j := EarliestDue(heads, deadline);
    }
    if SomeSent(hs) && h.attempt != Sent {
      var i :| 0 <= i < |hs| && hs[i].attempt == Sent;
      assert heads[i].attempt == Sent;
    }
    if h.attempt == Sent { assert hs[|heads|].attempt == Sent; }
  }

  lemma EarliestDue(heads: seq<Head>, deadline: int) returns (i: nat)
    requires exists j :: 0 <= j < |heads| && Due(heads[j], deadline)
    ensures i < |heads| && FirstDue(heads, i, deadline)
  {
    i := 0;
    while !Due(heads[i], deadline)
      invariant i < |heads|
      invariant forall j :: 0 <= j < i ==> !Due(heads[j], deadline)
      invariant exists j :: i <= j < |heads| && Due(heads[j], deadline)
      decreases |heads| - i
    {
      i := i + 1;
    }
  }
}
