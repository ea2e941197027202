/** ExecutionScheduler over the real runner: what a published execution says about the run behind it. */
module Executions {
  import opened Results
  import opened WorkQueue
  import R = RunnerProtocol

  /** runNext stores the state of the result in the handle. */
  function OutcomeOf(result: ExecutionResult): Outcome<ExecutionResult> {
    Outcome(result, result.state)
  }

  /** One run of the runner, from its start to its return. */
  datatype Execution = Execution(run: R.Run, end: R.View)

  ghost predicate Executed(x: Execution) {
    R.Accepts(x.run, x.end) && x.end.phase.Returned?
  }

  /** The n-th answer of the runner comes from the n-th execution. */
  ghost predicate Answers(runs: nat -> Outcome<ExecutionResult>, executions: nat -> Execution, n: nat) {
    Executed(executions(n)) && runs(n) == OutcomeOf(executions(n).end.phase.result)
  }

  /** The job that a worker published for this execution. */
  ghost predicate PublishedFor<Req>(job: Job<Req, ExecutionResult>, x: Execution) {
    && (IsFinished(job.state) <==> !R.LeftThroughFailure(x.run.events))
    && (job.state == Created <==> R.LeftThroughFailure(x.run.events))
    && job.state != ExecutionState.Cancelled
  }

  lemma FinishedExactly<Req>(job: Job<Req, ExecutionResult>, runs: nat -> Outcome<ExecutionResult>, executions: nat -> Execution, n: nat)
    requires Answers(runs, executions, n)
    ensures PublishedFor(Finish(job, runs(n)), executions(n))
  {
    R.ReturnedState(executions(n).run, executions(n).end);
  }

  /**
   * ExecutionScheduler::runNext: the published handle is finished exactly unless, after Ready,
   * its run met a setup failure or trouble in the loop.
   */
  method RunNext<Req>(scheduler: Scheduler<Req, ExecutionResult>, ghost executions: nat -> Execution) returns (ran: bool)
    requires scheduler.queue.pending != [] ==> Answers(scheduler.runs, executions, scheduler.done)
    modifies scheduler, scheduler.queue
    ensures ran <==> old(scheduler.queue.pending) != []
    ensures !ran ==> scheduler.queue.completed == old(scheduler.queue.completed)
    ensures ran ==> exists job :: scheduler.queue.completed == old(scheduler.queue.completed) + [job]
                               && job.id == old(scheduler.queue.pending)[0].id && PublishedFor(job, executions(old(scheduler.done)))
  {
    ghost var n, pending := scheduler.done, scheduler.queue.pending;
    ran := scheduler.RunNext();
    if ran { FinishedExactly(pending[0], scheduler.runs, executions, n); }
  }

  /** The same for every handle that a worker pool publishes, however many workers it has. */
  lemma {:induction false} SerialFinished<Req>(jobs: seq<Job<Req, ExecutionResult>>, runs: nat -> Outcome<ExecutionResult>,
                                               executions: nat -> Execution, n: nat, i: nat)
    requires i < |jobs| && Answers(runs, executions, n + i)
    ensures Serial(jobs, runs, n)[i].id == jobs[i].id
    ensures PublishedFor(Serial(jobs, runs, n)[i], executions(n + i))
  {
    if i == 0 {
      FinishedExactly(jobs[0], runs, executions, n);
    } else {
      SerialFinished(jobs[1..], runs, executions, n + 1, i - 1);
    }
  }
}
