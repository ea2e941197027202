/**
 * The queue of WorkQueue shared by any number of submitters, workers, cancellers and collectors.
 * Every queue operation holds the one mutex, so a run is a sequence of whole operations in any
 * order; running a job lies between two of them. Each admitted request carries the number of its
 * admission, its ticket, so that jobs stay distinguishable when ids repeat.
 */
module ConcurrentQueue {
  import opened Results
  import opened WorkQueue

  datatype Ticketed<Req> = Ticketed(ticket: nat, request: Req)

  type TJob<Req, Res> = Job<Ticketed<Req>, Res>

  datatype Admission<Req> = Admission(id: int, request: Req)

  datatype Slot<Req, Res> = Slot(worker: nat, job: TJob<Req, Res>)

  /**
   * `running` are the jobs in the hands of a worker, `drained` those already handed out by
   * drainCompleted, `admissions` the ids and requests by ticket, and `started` the tickets in the
   * order in which workers took them.
   */
  datatype Machine<Req, Res> = Machine(
    max: nat,
    queue: Contents<Ticketed<Req>, Res>,
    running: seq<Slot<Req, Res>>,
    drained: seq<TJob<Req, Res>>,
    admitted: nat,
    admissions: seq<Admission<Req>>,
    started: seq<nat>)

  datatype Action<Req, Res> =
    | Enqueue(id: int, request: Req)
    | TryEnqueue(id: int, request: Req)
    | Take(worker: nat)
    | Publish(slot: nat, outcome: Outcome<Res>)
    | Cancel(id: int)
    | Collect

  function Start<Req, Res>(max: nat): Machine<Req, Res> {
    Machine(max, Contents([], []), [], [], 0, [], [])
  }

  /** A worker has one job at a time, and no run ends in the state Cancelled. */
  predicate Enabled<Req, Res>(m: Machine<Req, Res>, a: Action<Req, Res>) {
    match a
    case Take(w) => forall k :: 0 <= k < |m.running| ==> m.running[k].worker != w
    case Publish(k, o) => k < |m.running| && o.state != ExecutionState.Cancelled
    case _ => true
  }

  function Admit<Req, Res>(m: Machine<Req, Res>, id: int, request: Req): Machine<Req, Res> {
    var job := NewJob(id, Ticketed(m.admitted, request));
    m.(queue := Appended(m.queue, job), admitted := m.admitted + 1, admissions := m.admissions + [Admission(id, request)])
  }

  function Next<Req, Res>(m: Machine<Req, Res>, a: Action<Req, Res>): Machine<Req, Res>
    requires Enabled(m, a)
  {
    match a
    case Enqueue(id, request) => Admit(m, id, request)
    case TryEnqueue(id, request) =>
      if Full(m.queue, m.max) then m else Admit(m, id, request)
    case Take(w) =>
      if m.queue.pending == [] then m
      else
        var job := m.queue.pending[0];
        m.(queue := Taken(m.queue),
           running := m.running + [Slot(w, job)],
           started := m.started + [job.request.ticket])
    case Publish(k, o) =>
      m.(running := Without(m.running, k),
         queue := Stored(m.queue, Finish(m.running[k].job, o)))
    case Cancel(id) => m.(queue := CancelFirst(m.queue, id))
    case Collect => m.(drained := m.drained + m.queue.completed, queue := Collected(m.queue))
  }

  ghost predicate IsRun<Req, Res>(m: Machine<Req, Res>, acts: seq<Action<Req, Res>>)
    decreases |acts|
  {
    acts == [] || (Enabled(m, acts[0]) && IsRun(Next(m, acts[0]), acts[1..]))
  }

  function After<Req, Res>(m: Machine<Req, Res>, acts: seq<Action<Req, Res>>): Machine<Req, Res>
    requires IsRun(m, acts)
    decreases |acts|
  {
    if acts == [] then m else After(Next(m, acts[0]), acts[1..])
  }

  // ---------------------------------------------------------------------------------------

  function Tickets<Req, Res>(jobs: seq<TJob<Req, Res>>): (t: seq<nat>)
    ensures |t| == |jobs| && forall i :: 0 <= i < |t| ==> t[i] == jobs[i].request.ticket
  {
    seq(|jobs|, i requires 0 <= i < |jobs| => jobs[i].request.ticket)
  }

  function InHand<Req, Res>(slots: seq<Slot<Req, Res>>): (t: seq<nat>)
    ensures |t| == |slots| && forall i :: 0 <= i < |t| ==> t[i] == slots[i].job.request.ticket
  {
    seq(|slots|, i requires 0 <= i < |slots| => slots[i].job.request.ticket)
  }

  function Upto(n: nat): (t: seq<nat>)
    ensures |t| == n && forall i :: 0 <= i < n ==> t[i] == i
  {
    seq(n, i => i)
  }

  /** Everything ever published, in the order of publication. */
  function Published<Req, Res>(m: Machine<Req, Res>): seq<TJob<Req, Res>> {
    m.drained + m.queue.completed
  }

  predicate Increasing(s: seq<nat>) {
    forall i, j :: 0 <= i < j < |s| ==> s[i] < s[j]
  }

  /** No admission is lost or duplicated: pending, in hand and published hold each ticket exactly once. */
  ghost predicate Conserved<Req, Res>(m: Machine<Req, Res>) {
    multiset(Tickets(m.queue.pending)) + multiset(InHand(m.running)) + multiset(Tickets(Published(m)))
    == multiset(Upto(m.admitted))
  }

  /** Waiting jobs are in admission order and behind every job that was ever taken. */
  ghost predicate Ordered<Req, Res>(m: Machine<Req, Res>) {
    && Increasing(Tickets(m.queue.pending))
    && Increasing(m.started)
    && (forall k, i :: 0 <= k < |m.started| && 0 <= i < |m.queue.pending| ==> m.started[k] < m.queue.pending[i].request.ticket)
    && (forall k :: 0 <= k < |m.started| ==> m.started[k] < m.admitted)
    && (forall i :: 0 <= i < |m.queue.pending| ==> m.queue.pending[i].request.ticket < m.admitted)
  }

  /** A published job was taken, and has a result, exactly when it is not Cancelled. */
  ghost predicate Settled<Req, Res>(j: TJob<Req, Res>, started: seq<nat>) {
    && (j.state == ExecutionState.Cancelled <==> j.request.ticket !in started)
    && (j.state == ExecutionState.Cancelled <==> j.result.None?)
  }

  /** A job in hand was taken, a waiting one is untouched, and a published one is settled. */
  ghost predicate Accounted<Req, Res>(m: Machine<Req, Res>) {
    && (forall k :: 0 <= k < |m.running| ==> m.running[k].job.request.ticket in m.started)
    && (forall k :: 0 <= k < |m.running| ==> m.running[k].job.state == Created)
    && (forall j :: j in m.queue.pending ==> j.state == Created && j.result.None?)
    && (forall j :: j in Published(m) ==> Settled(j, m.started))
  }

  ghost predicate Inv<Req, Res>(m: Machine<Req, Res>) {
    Conserved(m) && Ordered(m) && Accounted(m)
  }

  lemma UptoNext(n: nat)
    ensures multiset(Upto(n + 1)) == multiset(Upto(n)) + multiset{n}
  {
    assert Upto(n + 1) == Upto(n) + [n];
  }

  lemma PublishedTicket<Req, Res>(m: Machine<Req, Res>, j: TJob<Req, Res>)
    requires j in Published(m)
    ensures j.request.ticket in Tickets(Published(m))
  {
    var i :| 0 <= i < |Published(m)| && Published(m)[i] == j;
    assert Tickets(Published(m))[i] == j.request.ticket;
  }

  lemma {:induction false} UptoCounts(n: nat, t: nat)
    ensures multiset(Upto(n))[t] == if t < n then 1 else 0
  {
    if n > 0 {
      UptoNext(n - 1);
      UptoCounts(n - 1, t);
    }
  }

  /** A ticket is in exactly one of the three places once admitted, and in none before. */
  lemma PlacesDisjoint<Req, Res>(m: Machine<Req, Res>, t: nat)
    requires Conserved(m)
    ensures multiset(Tickets(m.queue.pending))[t] + multiset(InHand(m.running))[t] + multiset(Tickets(Published(m)))[t]
            == if t < m.admitted then 1 else 0
  {
    UptoCounts(m.admitted, t);
  }

  lemma AdmitConserves<Req, Res>(m: Machine<Req, Res>, id: int, request: Req)
    requires Conserved(m)
    ensures Conserved(Admit(m, id, request))
  {
    var m' := Admit(m, id, request);
    assert Tickets(m'.queue.pending) == Tickets(m.queue.pending) + [m.admitted];
    UptoNext(m.admitted);
  }

  lemma AdmitOrders<Req, Res>(m: Machine<Req, Res>, id: int, request: Req)
    requires Ordered(m)
    ensures Ordered(Admit(m, id, request))
  {
    var m' := Admit(m, id, request);
    assert Tickets(m'.queue.pending) == Tickets(m.queue.pending) + [m.admitted];
  }

  lemma AdmitAccounts<Req, Res>(m: Machine<Req, Res>, id: int, request: Req)
    requires Accounted(m)
    ensures Accounted(Admit(m, id, request))
  {
    assert Published(Admit(m, id, request)) == Published(m);
  }

  lemma TakeConserves<Req, Res>(m: Machine<Req, Res>, w: nat)
    requires Conserved(m) && m.queue.pending != [] && Enabled(m, Take(w))
    ensures Conserved(Next(m, Take(w)))
  {
    var m' := Next(m, Take(w));
    var t := m.queue.pending[0].request.ticket;
    assert Tickets(m.queue.pending) == [t] + Tickets(m'.queue.pending);
    assert InHand(m'.running) == InHand(m.running) + [t];
  }

  lemma TakeOrders<Req, Res>(m: Machine<Req, Res>, w: nat)
    requires Ordered(m) && m.queue.pending != [] && Enabled(m, Take(w))
    ensures Ordered(Next(m, Take(w)))
  {
    var m' := Next(m, Take(w));
    var t := m.queue.pending[0].request.ticket;
    assert Tickets(m'.queue.pending) == Tickets(m.queue.pending)[1..];
    assert m.queue.pending[0].request.ticket == t;
    assert forall i :: 0 <= i < |m'.queue.pending| ==>
        m'.queue.pending[i] == m.queue.pending[i + 1]
        && Tickets(m.queue.pending)[0] < Tickets(m.queue.pending)[i + 1] == m'.queue.pending[i].request.ticket;
  }

  lemma TakeAccounts<Req, Res>(m: Machine<Req, Res>, w: nat)
    requires Inv(m) && m.queue.pending != [] && Enabled(m, Take(w))
    ensures Accounted(Next(m, Take(w)))
  {
    var m' := Next(m, Take(w));
    var t := m.queue.pending[0].request.ticket;
    assert Published(m') == Published(m);
    forall j | j in Published(m) ensures j.request.ticket != t {
      PublishedTicket(m, j);
      PlacesDisjoint(m, t);
      assert Tickets(m.queue.pending)[0] == t;
    }
    assert t in m'.started;
  }

  lemma PublishConserves<Req, Res>(m: Machine<Req, Res>, k: nat, o: Outcome<Res>)
    requires Conserved(m) && Enabled(m, Publish(k, o))
    ensures Conserved(Next(m, Publish(k, o)))
  {
    var m' := Next(m, Publish(k, o));
    var t := m.running[k].job.request.ticket;
    assert InHand(m.running) == InHand(m.running)[..k] + [t] + InHand(m.running)[k + 1..];
    assert InHand(m'.running) == InHand(m.running)[..k] + InHand(m.running)[k + 1..];
    assert Published(m') == Published(m) + [Finish(m.running[k].job, o)];
    assert Tickets(Published(m')) == Tickets(Published(m)) + [t];
  }

  lemma PublishAccounts<Req, Res>(m: Machine<Req, Res>, k: nat, o: Outcome<Res>)
    requires Accounted(m) && Enabled(m, Publish(k, o))
    ensures Accounted(Next(m, Publish(k, o)))
  {
    var m' := Next(m, Publish(k, o));
    assert Published(m') == Published(m) + [Finish(m.running[k].job, o)];
  }

  lemma CancelConserves<Req, Res>(m: Machine<Req, Res>, id: int)
    requires Conserved(m) && Find(m.queue.pending, id) < |m.queue.pending|
    ensures Conserved(Next(m, Cancel(id)))
  {
    var m' := Next(m, Action<Req, Res>.Cancel(id));
    var p, i := m.queue.pending, Find(m.queue.pending, id);
    var t := p[i].request.ticket;
    assert Tickets(p) == Tickets(p)[..i] + [t] + Tickets(p)[i + 1..];
    assert Tickets(m'.queue.pending) == Tickets(p)[..i] + Tickets(p)[i + 1..];
    assert Published(m') == Published(m) + [p[i].(state := ExecutionState.Cancelled)];
    assert Tickets(Published(m')) == Tickets(Published(m)) + [t];
  }

  lemma CancelOrders<Req, Res>(m: Machine<Req, Res>, id: int)
    requires Ordered(m) && Find(m.queue.pending, id) < |m.queue.pending|
    ensures Ordered(Next(m, Cancel(id)))
  {
    var m' := Next(m, Action<Req, Res>.Cancel(id));
    var p, i := m.queue.pending, Find(m.queue.pending, id);
    IncreasingWithout(Tickets(p), i);
    assert Tickets(m'.queue.pending) == Without(Tickets(p), i);
    assert forall k :: 0 <= k < |m'.queue.pending| ==> m'.queue.pending[k] == p[if k < i then k else k + 1];
  }

  lemma IncreasingWithout(s: seq<nat>, i: nat)
    requires Increasing(s) && i < |s|
    ensures Increasing(Without(s, i))
  {
  }

  lemma CancelAccounts<Req, Res>(m: Machine<Req, Res>, id: int)
    requires Ordered(m) && Accounted(m) && Find(m.queue.pending, id) < |m.queue.pending|
    ensures Accounted(Next(m, Cancel(id)))
  {
    var m' := Next(m, Action<Req, Res>.Cancel(id));
    var p, i := m.queue.pending, Find(m.queue.pending, id);
    assert Published(m') == Published(m) + [p[i].(state := ExecutionState.Cancelled)];
    assert p[i] in p && p[i].request.ticket !in m.started;
    MovedAccounts(m, m', p[i].(state := ExecutionState.Cancelled));
  }

  lemma MovedAccounts<Req, Res>(m: Machine<Req, Res>, m': Machine<Req, Res>, x: TJob<Req, Res>)
    requires Accounted(m) && m'.running == m.running && m'.started == m.started
    requires forall j :: j in m'.queue.pending ==> j in m.queue.pending
    requires Published(m') == Published(m) + [x] && Settled(x, m.started)
    ensures Accounted(m')
  {
  }

  lemma StepKeeps<Req, Res>(m: Machine<Req, Res>, a: Action<Req, Res>)
    requires Inv(m) && Enabled(m, a)
    ensures Inv(Next(m, a))
  {
    match a {
      case Enqueue(id, request) =>
        AdmitConserves(m, id, request); AdmitOrders(m, id, request); AdmitAccounts(m, id, request);
      case TryEnqueue(id, request) =>
        AdmitConserves(m, id, request); AdmitOrders(m, id, request); AdmitAccounts(m, id, request);
      case Take(w) =>
        if m.queue.pending != [] { TakeConserves(m, w); TakeOrders(m, w); TakeAccounts(m, w); }
      case Publish(k, o) =>
        PublishConserves(m, k, o); PublishAccounts(m, k, o);
      case Cancel(id) =>
        if Find(m.queue.pending, id) < |m.queue.pending| { CancelConserves(m, id); CancelOrders(m, id); CancelAccounts(m, id); }
      case Collect => assert Published(Next(m, a)) == Published(m);
    }
  }

  lemma {:induction false} RunKeeps<Req, Res>(m: Machine<Req, Res>, acts: seq<Action<Req, Res>>)
    requires Inv(m) && IsRun(m, acts)
    ensures Inv(After(m, acts))
    decreases |acts|
  {
    if acts != [] {
      StepKeeps(m, acts[0]);
      RunKeeps(Next(m, acts[0]), acts[1..]);
    }
  }

  /** The job carries the id and the request that its ticket was admitted with. */
  ghost predicate Genuine<Req, Res>(j: TJob<Req, Res>, admissions: seq<Admission<Req>>) {
    j.request.ticket < |admissions| && admissions[j.request.ticket] == Admission(j.id, j.request.request)
  }

  ghost predicate Identified<Req, Res>(m: Machine<Req, Res>) {
    && |m.admissions| == m.admitted
    && (forall j :: j in m.queue.pending ==> Genuine(j, m.admissions))
    && (forall s :: s in m.running ==> Genuine(s.job, m.admissions))
    && (forall j :: j in Published(m) ==> Genuine(j, m.admissions))
  }

  lemma AdmitIdentified<Req, Res>(m: Machine<Req, Res>, id: int, request: Req)
    requires Identified(m)
    ensures Identified(Admit(m, id, request))
  {
    assert Published(Admit(m, id, request)) == Published(m);
  }

  lemma CancelIdentified<Req, Res>(m: Machine<Req, Res>, id: int)
    requires Identified(m)
    ensures Identified(Next(m, Cancel(id)))
  {
    var m' := Next(m, Action<Req, Res>.Cancel(id));
    var p, i := m.queue.pending, Find(m.queue.pending, id);
    if i < |p| {
      assert p[i] in p;
      assert Published(m') == Published(m) + [p[i].(state := ExecutionState.Cancelled)];
    }
  }

  lemma StepIdentified<Req, Res>(m: Machine<Req, Res>, a: Action<Req, Res>)
    requires Identified(m) && Enabled(m, a)
    ensures Identified(Next(m, a))
  {
    match a {
      case Enqueue(id, request) => AdmitIdentified(m, id, request);
      case TryEnqueue(id, request) => AdmitIdentified(m, id, request);
      case Take(w) => assert Published(Next(m, a)) == Published(m);
      case Publish(k, o) =>
        assert m.running[k] in m.running;
        assert Published(Next(m, a)) == Published(m) + [Finish(m.running[k].job, o)];
      case Cancel(id) => CancelIdentified(m, id);
      case Collect => assert Published(Next(m, a)) == Published(m);
    }
  }

  lemma {:induction false} RunIdentified<Req, Res>(m: Machine<Req, Res>, acts: seq<Action<Req, Res>>)
    requires Identified(m) && IsRun(m, acts)
    ensures Identified(After(m, acts))
    decreases |acts|
  {
    if acts != [] {
      StepIdentified(m, acts[0]);
      RunIdentified(Next(m, acts[0]), acts[1..]);
    }
  }

  // ---------------------------------------------------------------------------------------
  // What holds of every run
  // ---------------------------------------------------------------------------------------

  lemma StartInv<Req, Res>(max: nat)
    ensures Inv(Start<Req, Res>(max))
  {
    var m := Start<Req, Res>(max);
    assert Published(m) == [];
  }

  /** Each admitted ticket is waiting, in hand or published, and only one of these, once. */
  lemma QueueConserves<Req, Res>(max: nat, acts: seq<Action<Req, Res>>, t: nat)
    requires IsRun(Start<Req, Res>(max), acts)
    ensures var m := After(Start<Req, Res>(max), acts);
            multiset(Tickets(m.queue.pending))[t] + multiset(InHand(m.running))[t] + multiset(Tickets(Published(m)))[t]
            == if t < m.admitted then 1 else 0
  {
    StartInv<Req, Res>(max);
    RunKeeps(Start<Req, Res>(max), acts);
    PlacesDisjoint(After(Start<Req, Res>(max), acts), t);
  }

  /**
   * Workers take jobs in admission order, each at most once, skipping exactly the cancelled ones:
   * `started` is increasing, and a ticket was taken exactly when it was admitted, no longer
   * waits, and was not published as Cancelled.
   */
  lemma FifoOverUncancelled<Req, Res>(max: nat, acts: seq<Action<Req, Res>>)
    requires IsRun(Start<Req, Res>(max), acts)
    ensures var m := After(Start<Req, Res>(max), acts);
            && Increasing(m.started)
            && forall t: nat :: t in m.started <==>
                 && t < m.admitted
                 && t !in Tickets(m.queue.pending)
                 && !(exists j :: j in Published(m) && j.request.ticket == t && j.state == ExecutionState.Cancelled)
  {
    StartInv<Req, Res>(max);
    RunKeeps(Start<Req, Res>(max), acts);
    var m := After(Start<Req, Res>(max), acts);
    forall t: nat
      ensures t in m.started <==>
                && t < m.admitted
                && t !in Tickets(m.queue.pending)
                && !(exists j :: j in Published(m) && j.request.ticket == t && j.state == ExecutionState.Cancelled)
    {
      StartedExactly(m, t);
    }
  }

  lemma StartedExactly<Req, Res>(m: Machine<Req, Res>, t: nat)
    requires Inv(m)
    ensures t in m.started <==>
              && t < m.admitted
              && t !in Tickets(m.queue.pending)
              && !(exists j :: j in Published(m) && j.request.ticket == t && j.state == ExecutionState.Cancelled)
  {
    PlacesDisjoint(m, t);
    if t < m.admitted && t !in Tickets(m.queue.pending) {
      if t in InHand(m.running) {
        var k :| 0 <= k < |m.running| && InHand(m.running)[k] == t;
        if j :| j in Published(m) && j.request.ticket == t {
          PublishedTicket(m, j);
        }
      } else {
        assert t in multiset(Tickets(Published(m)));
        var i :| 0 <= i < |Published(m)| && Tickets(Published(m))[i] == t;
        assert Published(m)[i] in Published(m);
      }
    }
  }

  /** A published job is Cancelled exactly when no worker ever took it, and then it has no result. */
  lemma CancelledMeansUnrun<Req, Res>(max: nat, acts: seq<Action<Req, Res>>, j: TJob<Req, Res>)
    requires IsRun(Start<Req, Res>(max), acts)
    requires j in Published(After(Start<Req, Res>(max), acts))
    ensures j.state == ExecutionState.Cancelled <==> j.request.ticket !in After(Start<Req, Res>(max), acts).started
    ensures j.state == ExecutionState.Cancelled <==> j.result.None?
  {
    StartInv<Req, Res>(max);
    RunKeeps(Start<Req, Res>(max), acts);
  }

  /** One step breaks the bound exactly if it is an unbounded enqueue at the bound. */
  lemma BoundStep<Req, Res>(m: Machine<Req, Res>, a: Action<Req, Res>)
    requires Enabled(m, a) && m.max != 0 && |m.queue.pending| <= m.max
    ensures |Next(m, a).queue.pending| <= m.max <==> !(a.Enqueue? && |m.queue.pending| == m.max)
    ensures a.TryEnqueue? && |m.queue.pending| == m.max ==> Next(m, a) == m
    ensures a.TryEnqueue? && |m.queue.pending| < m.max ==> |Next(m, a).queue.pending| == |m.queue.pending| + 1
  {
  }

  /** Without a bound everything is admitted. */
  lemma UnboundedAdmits<Req, Res>(m: Machine<Req, Res>, a: Action<Req, Res>)
    requires m.max == 0 && (a.TryEnqueue? || a.Enqueue?)
    ensures Enabled(m, a) && Next(m, a).admitted == m.admitted + 1 && |Next(m, a).queue.pending| == |m.queue.pending| + 1
  {
  }

  /** From admission to publication a job keeps its id and its request, cancelled or not. */
  lemma JobsKeepIdentity<Req, Res>(max: nat, acts: seq<Action<Req, Res>>)
    requires IsRun(Start<Req, Res>(max), acts)
    ensures var m := After(Start<Req, Res>(max), acts);
            && (forall j :: j in m.queue.pending || j in Published(m) ==> Genuine(j, m.admissions))
            && (forall s :: s in m.running ==> Genuine(s.job, m.admissions))
  {
    assert Published(Start<Req, Res>(max)) == [];
    RunIdentified(Start<Req, Res>(max), acts);
  }

  /** Bounded admission alone keeps the bound over every run. */
  lemma {:induction false} BoundKept<Req, Res>(m: Machine<Req, Res>, acts: seq<Action<Req, Res>>)
    requires IsRun(m, acts) && m.max != 0 && |m.queue.pending| <= m.max
    requires forall a :: a in acts ==> !a.Enqueue?
    ensures |After(m, acts).queue.pending| <= m.max && After(m, acts).max == m.max
    decreases |acts|
  {
    if acts != [] {
      BoundStep(m, acts[0]);
      BoundKept(Next(m, acts[0]), acts[1..]);
    }
  }
}
