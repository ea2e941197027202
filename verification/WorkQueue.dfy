/**
 * include/runner/execution_scheduler.hpp and include/submission/submission_service.hpp. The two
 * queues are one machine: they differ in where ids come from and in the state a finished job gets.
 * Ids are arbitrary here, so they may repeat.
 */
module WorkQueue {
  import opened Results

  datatype Job<Req, Res> = Job(id: int, request: Req, state: ExecutionState, result: Option<Res>)

  function NewJob<Req, Res>(id: int, request: Req): Job<Req, Res> {
    Job(id, request, Created, None)
  }

  datatype Contents<Req, Res> = Contents(pending: seq<Job<Req, Res>>, completed: seq<Job<Req, Res>>)

  /** The first pending position with this id, or the length of the queue. */
  function Find<Req, Res>(q: seq<Job<Req, Res>>, id: int): (i: nat)
    ensures i <= |q|
    ensures i < |q| ==> q[i].id == id
    ensures forall k :: 0 <= k < i ==> q[k].id != id
  {
    if q == [] || q[0].id == id then 0 else 1 + Find(q[1..], id)
  }

  function Without<T>(s: seq<T>, i: nat): seq<T>
    requires i < |s|
  {
    s[..i] + s[i + 1..]
  }

  function CancelFirst<Req, Res>(c: Contents<Req, Res>, id: int): Contents<Req, Res> {
    var i := Find(c.pending, id);
    if i == |c.pending| then c
    else Contents(Without(c.pending, i), c.completed + [c.pending[i].(state := ExecutionState.Cancelled)])
  }

  // What the other operations do to the contents; ConcurrentQueue takes its steps with these.

  function Appended<Req, Res>(c: Contents<Req, Res>, job: Job<Req, Res>): Contents<Req, Res> {
    c.(pending := c.pending + [job])
  }

  predicate Full<Req, Res>(c: Contents<Req, Res>, max: nat) {
    max != 0 && |c.pending| >= max
  }

  function Taken<Req, Res>(c: Contents<Req, Res>): Contents<Req, Res> {
    if c.pending == [] then c else c.(pending := c.pending[1..])
  }

  function Stored<Req, Res>(c: Contents<Req, Res>, job: Job<Req, Res>): Contents<Req, Res> {
    c.(completed := c.completed + [job])
  }

  function Collected<Req, Res>(c: Contents<Req, Res>): Contents<Req, Res> {
    c.(completed := [])
  }

  class Queue<Req, Res> {
    var pending: seq<Job<Req, Res>>
    var completed: seq<Job<Req, Res>>
    const maxPending: nat

    ghost function State(): Contents<Req, Res>
      reads this
    {
      Contents(pending, completed)
    }

    constructor (maxPending: nat)
      ensures pending == [] && completed == [] && this.maxPending == maxPending
    {
      pending, completed, this.maxPending := [], [], maxPending;
    }

    method Enqueue(request: Req, id: int) returns (job: Job<Req, Res>)
      modifies this
      ensures job == NewJob(id, request) && job.id == id && job.request == request
      ensures State() == Appended(old(State()), job)
    {
      job := Job(id, request, Created, None);
      pending := pending + [job];
    }

    method TryEnqueue(request: Req, id: int) returns (job: Option<Job<Req, Res>>)
      modifies this
      ensures job.None? <==> maxPending != 0 && |old(pending)| >= maxPending
      ensures job.None? ==> State() == old(State())
      ensures job.Some? ==> job.value == NewJob(id, request) && State() == Appended(old(State()), job.value)
      ensures maxPending != 0 && |old(pending)| <= maxPending ==> |pending| <= maxPending
    {
      if maxPending != 0 && |pending| >= maxPending { return None; }
      var j := Enqueue(request, id);
      job := Some(j);
    }

    method TryDequeue() returns (job: Option<Job<Req, Res>>)
      modifies this
      ensures job.None? <==> old(pending) == []
      ensures job.None? ==> State() == old(State())
      ensures State() == Taken(old(State())) && (job.Some? ==> job.value == old(pending)[0])
    {
      if |pending| == 0 { return None; }
      job := Some(pending[0]);
      pending := pending[1..];
    }

    method Complete(job: Job<Req, Res>)
      modifies this
      ensures State() == Stored(old(State()), job)
    {
      completed := completed + [job];
    }

    /** Erases the first match in the middle of the scan and publishes it as Cancelled. */
    method Cancel(id: int) returns (found: bool)
      modifies this
      ensures State() == CancelFirst(old(State()), id)
      ensures found <==> exists i :: 0 <= i < |old(pending)| && old(pending)[i].id == id
    {
      var i := 0;
      while i < |pending|
        invariant 0 <= i <= |pending|
        invariant State() == old(State())
        invariant forall k :: 0 <= k < i ==> pending[k].id != id
      {
        if pending[i].id == id {
          var f := Find(pending, id);
          assert f == i;
          var cancelled := pending[i].(state := ExecutionState.Cancelled);
          pending := pending[..i] + pending[i + 1..];
          completed := completed + [cancelled];
          return true;
        }
        i := i + 1;
      }
      assert Find(pending, id) == |pending|;
      return false;
    }

    method DrainCompleted() returns (drained: seq<Job<Req, Res>>)
      modifies this
      ensures drained == old(completed)
      ensures State() == Collected(old(State()))
    {
      drained := completed;
      completed := [];
    }
  }

  // ---------------------------------------------------------------------------------------
  // Workers and pools. `runs` answers the n-th run of the process: what the runner (or the
  // submission service) returned, and the state the worker then stores in the job.
  // ---------------------------------------------------------------------------------------

  datatype Outcome<Res> = Outcome(result: Res, state: ExecutionState)

  function Finish<Req, Res>(job: Job<Req, Res>, o: Outcome<Res>): Job<Req, Res> {
    job.(state := o.state, result := Some(o.result))
  }

  /** What one worker in a loop would publish for these jobs, starting with run number n. */
  function Serial<Req, Res>(jobs: seq<Job<Req, Res>>, runs: nat -> Outcome<Res>, n: nat): (r: seq<Job<Req, Res>>)
    ensures |r| == |jobs|
  {
    if jobs == [] then [] else [Finish(jobs[0], runs(n))] + Serial(jobs[1..], runs, n + 1)
  }

  lemma {:induction false} SerialAppend<Req, Res>(a: seq<Job<Req, Res>>, b: seq<Job<Req, Res>>, runs: nat -> Outcome<Res>, n: nat)
    ensures Serial(a + b, runs, n) == Serial(a, runs, n) + Serial(b, runs, n + |a|)
  {
    if a == [] {
      assert a + b == b;
    } else {
      assert (a + b)[1..] == a[1..] + b;
      SerialAppend(a[1..], b, runs, n + 1);
    }
  }

  /** A batch published after the first k jobs continues the serial order. */
  lemma SerialBatch<Req, Res>(before: seq<Job<Req, Res>>, jobs: seq<Job<Req, Res>>, k: nat, batch: nat,
                              runs: nat -> Outcome<Res>, n: nat)
    requires k + batch <= |jobs|
    ensures before + Serial(jobs[..k], runs, n) + Serial(jobs[k..][..batch], runs, n + k)
            == before + Serial(jobs[..k + batch], runs, n)
  {
    assert jobs[..k + batch] == jobs[..k] + jobs[k..][..batch];
    SerialAppend(jobs[..k], jobs[k..][..batch], runs, n);
  }

  class Scheduler<Req, Res> {
    const queue: Queue<Req, Res>
    const runs: nat -> Outcome<Res>
    var done: nat

    constructor (queue: Queue<Req, Res>, runs: nat -> Outcome<Res>)
      ensures this.queue == queue && this.runs == runs && done == 0
    {
      this.queue, this.runs, done := queue, runs, 0;
    }

    /** ExecutionScheduler::runNext, SubmissionWorker::processNext. */
    method RunNext() returns (ran: bool)
      modifies this, queue
      ensures ran <==> old(queue.pending) != []
      ensures !ran ==> queue.State() == old(queue.State()) && done == old(done)
      ensures ran ==> queue.pending == old(queue.pending)[1..] && done == old(done) + 1
      ensures ran ==> queue.completed == old(queue.completed) + [Finish(old(queue.pending)[0], runs(old(done)))]
    {
      var next := queue.TryDequeue();
      if next.None? { return false; }
      var job := next.value;
      job := job.(state := ExecutionState.Running);
      var outcome := runs(done);
      done := done + 1;
      job := job.(state := outcome.state, result := Some(outcome.result));
      queue.Complete(job);
      return true;
    }
  }

  function Min(a: nat, b: nat): nat { if a < b then a else b }

  class WorkerPool<Req, Res> {
    const scheduler: Scheduler<Req, Res>
    const workers: nat

    constructor (scheduler: Scheduler<Req, Res>, workers: nat)
      ensures this.scheduler == scheduler && this.workers == workers
    {
      this.scheduler, this.workers := scheduler, workers;
    }

    /** One turn per worker: the first min(workers, pending) jobs, in order. */
    method DrainOnce() returns (processed: nat)
      modifies scheduler, scheduler.queue
      ensures processed == Min(workers, |old(scheduler.queue.pending)|)
      ensures scheduler.queue.pending == old(scheduler.queue.pending)[processed..]
      ensures scheduler.queue.completed == old(scheduler.queue.completed) +
                Serial(old(scheduler.queue.pending)[..processed], scheduler.runs, old(scheduler.done))
      ensures scheduler.done == old(scheduler.done) + processed
    {
      processed := 0;
      ghost var jobs := scheduler.queue.pending;
      for w := 0 to workers
        invariant processed == Min(w, |jobs|)
        invariant scheduler.queue.pending == jobs[processed..]
        invariant scheduler.queue.completed == old(scheduler.queue.completed) + Serial(jobs[..processed], scheduler.runs, old(scheduler.done))
        invariant scheduler.done == old(scheduler.done) + processed
      {
        var ran := scheduler.RunNext();
        if ran {
          assert jobs[..processed + 1] == jobs[..processed] + [jobs[processed]];
          SerialAppend(jobs[..processed], [jobs[processed]], scheduler.runs, old(scheduler.done));
          processed := processed + 1;
        }
      }
    }

    /**
     * Terminates for every number of workers. With at least one it empties the queue and
     * publishes exactly what a single worker in a loop would, in the same order; with none it
     * changes nothing.
     */
    method DrainAll() returns (processed: nat)
      modifies scheduler, scheduler.queue
      ensures workers > 0 ==> processed == |old(scheduler.queue.pending)| && scheduler.queue.pending == []
      ensures workers > 0 ==>
                scheduler.queue.completed ==
                old(scheduler.queue.completed) + Serial(old(scheduler.queue.pending), scheduler.runs, old(scheduler.done))
      ensures workers == 0 ==> processed == 0 && scheduler.queue.State() == old(scheduler.queue.State())
      ensures scheduler.done == old(scheduler.done) + processed
    {
      ghost var jobs, before, n := scheduler.queue.pending, scheduler.queue.completed, scheduler.done;
      assert jobs[..0] == [] && jobs[0..] == jobs;
      processed := 0;
      var batch := NextBatch(jobs, before, n, 0);
      while batch != 0
        invariant processed + batch <= |jobs|
        invariant batch == Min(workers, |jobs| - processed) && (workers == 0 ==> processed == 0)
        invariant Serialized(jobs, before, n, processed + batch)
        decreases |jobs| - processed
      {
        processed := processed + batch;
        batch := NextBatch(jobs, before, n, processed);
      }
      if workers > 0 { assert jobs[..processed] == jobs; }
    }

    /** The first k of these jobs have been published as by a single worker, and the rest waits. */
    ghost predicate Serialized(jobs: seq<Job<Req, Res>>, before: seq<Job<Req, Res>>, n: nat, k: nat)
      requires k <= |jobs|
      reads scheduler, scheduler.queue
    {
      && scheduler.queue.pending == jobs[k..] && scheduler.done == n + k
      && scheduler.queue.completed == before + Serial(jobs[..k], scheduler.runs, n)
    }

    method NextBatch(ghost jobs: seq<Job<Req, Res>>, ghost before: seq<Job<Req, Res>>, ghost n: nat, ghost k: nat) returns (batch: nat)
      requires k <= |jobs| && Serialized(jobs, before, n, k)
      modifies scheduler, scheduler.queue
      ensures batch == Min(workers, |jobs| - k) && Serialized(jobs, before, n, k + batch)
    {
      batch := DrainOnce();
      SerialBatch(before, jobs, k, batch, scheduler.runs, n);
      assert jobs[k..][batch..] == jobs[k + batch..];
    }
  }
}
