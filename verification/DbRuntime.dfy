/**
 The admission and close protocol of `DatabaseManager`.

 Every event below is one critical section of the original (a block under
 `_connections_lock` or `_executor_lock`, or one step of the thread pool), so a run is
 an arbitrary interleaving of the threads. Threads `0 .. workers` belong to the
 executor; the others are callers.
 */
module DbRuntime {
  import opened Common

  type Conn = nat
  type Job = nat

  datatype ClosePhase = NotClosing | AdmissionShut | ExecutorDrained | ConnectionsClosed

  /** What one thread carries: its thread-local values and the locals of its open calls. */
  datatype Thread = Thread(
    saved: seq<bool>,      // `previously_admitted` of every open `_sync_activity`, innermost last
    admitted: bool,        // thread-local `_allow_during_close`
    job: Option<Job>,      // the job whose `executor_func` is running here
    conn: Option<Conn>,    // thread-local `connection`
    phase: ClosePhase)     // how far this thread is inside `close()`

  datatype JobFate = Queued | Running(thread: nat) | Finished | Cancelled

  datatype State = State(
    workers: nat,
    threads: seq<Thread>,
    active: int,           // `_active_sync_count`
    accepting: bool,       // `_accepting_submissions`
    closing: bool,         // `_closing`
    queue: seq<Job>,       // submitted, not yet picked up
    fates: seq<JobFate>,   // history: every job ever submitted
    tracked: set<Conn>,    // `_connections`
    released: set<Conn>,   // history: connections on which close() was called
    created: nat,          // history: number of connections ever created
    drained: bool,         // history: some closer saw the executor shut down
    shut: bool)            // history: some closer has closed the tracked connections

  datatype Event =
    | Enter(t: nat)                          // `_sync_activity` up to its yield
    | Exit(t: nat)                           // the `finally` of `_sync_activity`
    | Connect(t: nat, fails: bool)           // `_get_connection`
    | Submit                                 // the locked part of `run_async`
    | StartJob(t: nat)                       // a worker begins `executor_func`
    | FinishJob(t: nat)                      // `executor_func` leaves
    | CancelQueued(i: nat)                   // a cancelled read future is withdrawn
    | BeginClose(t: nat)                     // first block of `close()`
    | DrainExecutor(t: nat)                  // `shutdown(wait=True)` returns
    | CloseConnections(t: nat)               // last locked block of `close()`
    | ReplaceLocals(t: nat)                  // `close()` swaps the thread-local object
    | ReleaseOutside(c: Conn)                // somebody closes a connection directly

  // ---------------------------------------------------------------- transitions

  const IDLE := Thread([], false, None, None, NotClosing)

  /** A manager just constructed by the last of `n` threads, with its first connection. */
  ghost function Initial(workers: nat, n: nat): State
    requires workers < n
  {
    State(workers, seq(n, i => IDLE)[n - 1 := IDLE.(conn := Some(0))], 0, true, false, [], [],
          {0}, {}, 1, false, false)
  }

  ghost predicate Enabled(s: State, e: Event) {
    match e
    case Enter(t) =>
      t < |s.threads| && s.threads[t].phase.NotClosing? && (t < s.workers ==> s.threads[t].job.Some?)
    case Exit(t) => t < |s.threads| && s.threads[t].saved != []
    case Connect(t, _) => t < |s.threads| && s.threads[t].saved != []
    case Submit => true
    case StartJob(t) =>
      && t < |s.threads| && t < s.workers && s.queue != [] && s.threads[t].job.None?
      && s.threads[t].saved == [] && s.threads[t].phase.NotClosing?
    case FinishJob(t) => t < |s.threads| && s.threads[t].job.Some? && s.threads[t].saved == []
    case CancelQueued(i) => i < |s.queue|
    case BeginClose(t) =>
      t < |s.threads| && s.threads[t].phase.NotClosing? && (t < s.workers ==> s.threads[t].job.Some?)
    case DrainExecutor(t) =>
      && t < |s.threads| && s.threads[t].phase.AdmissionShut? && s.queue == []
      && forall i :: 0 <= i < |s.threads| ==> s.threads[i].job.None?
    case CloseConnections(t) =>
      t < |s.threads| && s.threads[t].phase.ExecutorDrained? && s.active <= 0
    case ReplaceLocals(t) => t < |s.threads| && s.threads[t].phase.ConnectionsClosed?
    case ReleaseOutside(c) => c < s.created
  }

  /** The call raises: nothing changes. */
  ghost predicate Refused(s: State, e: Event)
    requires Enabled(s, e)
  {
    match e
    case Enter(t) => s.closing && !s.threads[t].admitted
    case Connect(t, _) => s.closing && !s.threads[t].admitted
    case Submit => !s.accepting
    case BeginClose(t) => s.threads[t].admitted
    case _ => false
  }

  ghost function Put(s: State, t: nat, th: Thread): State
    requires t < |s.threads|
  {
    s.(threads := s.threads[t := th])
  }

  ghost function Connected(s: State, t: nat, fails: bool): State
    requires t < |s.threads|
  {
    var th := s.threads[t];
    if th.conn.Some? && th.conn.value !in s.released then s
    else
      var kept := if th.conn.Some? then s.tracked - {th.conn.value} else s.tracked;
      if fails then s.(tracked := kept)
      else Put(s, t, th.(conn := Some(s.created))).(tracked := kept + {s.created}, created := s.created + 1)
  }

  ghost function Apply(s: State, e: Event): State
    requires Enabled(s, e)
  {
    if Refused(s, e) then s
    else
      match e
      case Enter(t) =>
        var th := s.threads[t];
        Put(s, t, th.(saved := th.saved + [th.admitted], admitted := true)).(active := s.active + 1)
      case Exit(t) =>
        var th := s.threads[t];
        var last := |th.saved| - 1;
        Put(s, t, th.(saved := th.saved[..last], admitted := th.saved[last])).(active := s.active - 1)
      case Connect(t, fails) => Connected(s, t, fails)
      case Submit => s.(queue := s.queue + [|s.fates|], fates := s.fates + [Queued])
      case StartJob(t) =>
        var j := s.queue[0];
        Put(s, t, s.threads[t].(job := Some(j), admitted := true))
        .(queue := s.queue[1..], fates := if j < |s.fates| then s.fates[j := Running(t)] else s.fates)
      case FinishJob(t) =>
        var j := s.threads[t].job.value;
        Put(s, t, s.threads[t].(job := None, admitted := false))
        .(fates := if j < |s.fates| then s.fates[j := Finished] else s.fates)
      case CancelQueued(i) =>
        var j := s.queue[i];
        s.(queue := s.queue[..i] + s.queue[i + 1..],
           fates := if j < |s.fates| then s.fates[j := Cancelled] else s.fates)
      case BeginClose(t) =>
        Put(s, t, s.threads[t].(phase := AdmissionShut)).(accepting := false, closing := true)
      case DrainExecutor(t) => Put(s, t, s.threads[t].(phase := ExecutorDrained)).(drained := true)
      case CloseConnections(t) =>
        Put(s, t, s.threads[t].(phase := ConnectionsClosed))
        .(tracked := {}, released := s.released + s.tracked, shut := true)
      case ReplaceLocals(t) =>
        s.(threads := seq(|s.threads|, i requires 0 <= i < |s.threads| =>
          s.threads[i].(admitted := false, conn := None,
                        phase := if i == t then NotClosing else s.threads[i].phase)))
      case ReleaseOutside(c) => s.(released := s.released + {c})
  }

  /** `es` can happen from `s`, in this order, and ends in `s'`. */
  ghost predicate Steps(s: State, es: seq<Event>, s': State)
    decreases |es|
  {
    if es == [] then s == s'
    else Enabled(s, es[0]) && Steps(Apply(s, es[0]), es[1..], s')
  }

  // ---------------------------------------------------------------- invariant

  ghost function Depth(th: Thread): nat { |th.saved| }

  /**
   The admission flag is raised exactly while the thread is inside an operation or runs a
   job; the saved values say that only the outermost operation can have found it lowered.
   */
  ghost predicate ThreadOk(s: State, t: nat)
    requires t < |s.threads|
  {
    var th := s.threads[t];
    && th.admitted == (th.saved != [] || th.job.Some?)
    && (forall k :: 0 <= k < |th.saved| ==> th.saved[k] == (k > 0 || th.job.Some?))
    && (!th.phase.NotClosing? ==> t >= s.workers && !th.admitted && s.closing)
    && (t >= s.workers ==> th.job.None?)
    && (t < s.workers && th.job.None? ==> th.saved == [])
    && (th.conn.Some? ==> th.conn.value < s.created)
    && (th.phase.ExecutorDrained? ==> s.drained)
    && (th.phase.ConnectionsClosed? ==> s.shut)
    && (s.drained ==> th.job.None?)
    && (s.shut ==> th.saved == [])
  }

  /** The queue holds the queued jobs, each once. */
  ghost predicate QueueOk(queue: seq<Job>, fates: seq<JobFate>) {
    && (forall i :: 0 <= i < |queue| ==> queue[i] < |fates| && fates[queue[i]] == Queued)
    && (forall i, j :: 0 <= i < j < |queue| ==> queue[i] != queue[j])
    && (forall j :: 0 <= j < |fates| && fates[j] == Queued ==> j in queue)
  }

  /** Every job is in exactly the place its fate names. */
  ghost predicate JobsOk(s: State) {
    && QueueOk(s.queue, s.fates)
    && (forall t :: 0 <= t < |s.threads| && s.threads[t].job.Some? ==>
          s.threads[t].job.value < |s.fates| && s.fates[s.threads[t].job.value] == Running(t))
    && (forall j :: 0 <= j < |s.fates| && s.fates[j].Running? ==>
          s.fates[j].thread < |s.threads| && s.threads[s.fates[j].thread].job == Some(j))
  }

  ghost predicate ConnectionsOk(s: State) {
    && (forall c: Conn :: c in s.tracked || c in s.released ==> c < s.created)
    && (forall c: Conn :: c < s.created ==> c in s.tracked || c in s.released)
    && (s.shut ==> s.tracked == {})
  }

  ghost predicate Inv(s: State) {
    && s.workers < |s.threads|
    && s.active == Total(Depth, s.threads)
    && s.accepting == !s.closing
    && (s.drained ==> s.closing && s.queue == [])
    && (s.shut ==> s.drained)
    && (forall t :: 0 <= t < |s.threads| ==> ThreadOk(s, t))
    && JobsOk(s)
    && ConnectionsOk(s)
  }

  lemma InitialInv(workers: nat, n: nat)
    requires workers < n
    ensures Inv(Initial(workers, n))
  {
    TotalZero(Depth, Initial(workers, n).threads);
  }

  /** Events that change the locals of one thread, `e.t`. */
  predicate IsThreadEvent(e: Event) { !e.Submit? && !e.CancelQueued? && !e.ReleaseOutside? && !e.ReplaceLocals? }

  lemma OnlyOneThreadActs(s: State, e: Event)
    requires Enabled(s, e) && IsThreadEvent(e)
    ensures var s' := Apply(s, e); |s'.threads| == |s.threads| && s'.threads == s.threads[e.t := s'.threads[e.t]]
  {
    match e
    case Enter(_) =>
    case Exit(_) =>
    case Connect(_, _) =>
    case StartJob(_) =>
    case FinishJob(_) =>
    case BeginClose(_) =>
    case DrainExecutor(_) =>
    case CloseConnections(_) =>
  }

  lemma CounterFollowsDepth(s: State, e: Event)
    requires Enabled(s, e) && IsThreadEvent(e)
    ensures var s' := Apply(s, e);
      && |s'.threads| == |s.threads|
      && s'.active - s.active == Depth(s'.threads[e.t]) - Depth(s.threads[e.t])
  {
    match e
    case Enter(_) =>
    case Exit(_) =>
    case Connect(_, _) =>
    case StartJob(_) =>
    case FinishJob(_) =>
    case BeginClose(_) =>
    case DrainExecutor(_) =>
    case CloseConnections(_) =>
  }

  /** The counter always equals the number of open operations over all threads. */
  lemma CountStep(s: State, e: Event)
    requires Inv(s) && Enabled(s, e)
    ensures Apply(s, e).active == Total(Depth, Apply(s, e).threads)
  {
    if IsThreadEvent(e) {
      OnlyOneThreadActs(s, e);
      CounterFollowsDepth(s, e);
      TotalUpdate(Depth, s.threads, e.t, Apply(s, e).threads[e.t]);
    } else if e.ReplaceLocals? {
      DepthsAgree(s.threads, Apply(s, e).threads);
    }
  }

  lemma {:induction false} DepthsAgree(xs: seq<Thread>, ys: seq<Thread>)
    requires |xs| == |ys| && forall i :: 0 <= i < |xs| ==> xs[i].saved == ys[i].saved
    ensures Total(Depth, xs) == Total(Depth, ys)
  {
    if xs != [] { DepthsAgree(xs[1..], ys[1..]); }
  }

  /** The counter reads zero only when no thread is inside an operation. */
  lemma ZeroMeansNobodyInside(s: State)
    requires Inv(s) && s.active <= 0
    ensures forall t :: 0 <= t < |s.threads| ==> s.threads[t].saved == []
  {
    forall t | 0 <= t < |s.threads| ensures s.threads[t].saved == [] {
      TotalBound(Depth, s.threads, t);
    }
  }

  /** A thread the event does not touch keeps its part of the invariant. */
  lemma ThreadFrame(s: State, s': State, t: nat)
    requires t < |s.threads| && |s'.threads| == |s.threads| && ThreadOk(s, t)
    requires s'.threads[t] == s.threads[t] && s'.workers == s.workers
    requires s.created <= s'.created && (s.closing ==> s'.closing)
    requires (s.drained ==> s'.drained) && (s'.drained ==> s.drained || s.threads[t].job.None?)
    requires (s.shut ==> s'.shut) && (s'.shut ==> s.shut || s.threads[t].saved == [])
    ensures ThreadOk(s', t)
  {
  }

  /** The thread that takes the step keeps its part of the invariant. */
  lemma ThreadActs(s: State, e: Event)
    requires Inv(s) && Enabled(s, e)
    requires IsThreadEvent(e)
    ensures |Apply(s, e).threads| == |s.threads| && ThreadOk(Apply(s, e), e.t)
  {
    assert ThreadOk(s, e.t);
    var th, th' := s.threads[e.t], Apply(s, e).threads[e.t];
    match e
    case Enter(t) => assert th'.saved == th.saved || th'.saved == th.saved + [th.admitted];
    case Exit(t) => assert th'.saved == th.saved[..|th.saved| - 1];
    case CloseConnections(t) => ZeroMeansNobodyInside(s);
    case _ =>
  }

  /** Swapping the thread-local values happens with nobody inside and no job left. */
  lemma ThreadReplaced(s: State, e: Event, t: nat)
    requires Inv(s) && Enabled(s, e) && e.ReplaceLocals? && t < |s.threads|
    ensures |Apply(s, e).threads| == |s.threads| && ThreadOk(Apply(s, e), t)
  {
    assert ThreadOk(s, t) && ThreadOk(s, e.t);
  }

  /** Jobs submitted or withdrawn and connections closed from outside are no thread's business. */
  lemma ThreadUnconcerned(s: State, e: Event, t: nat)
    requires Inv(s) && Enabled(s, e) && (e.Submit? || e.CancelQueued? || e.ReleaseOutside?) && t < |s.threads|
    ensures |Apply(s, e).threads| == |s.threads| && ThreadOk(Apply(s, e), t)
  {
    assert ThreadOk(s, t);
    ThreadFrame(s, Apply(s, e), t);
  }

  /** What one thread does to the flags the others see. */
  lemma FlagsFollow(s: State, e: Event)
    requires Inv(s) && Enabled(s, e) && IsThreadEvent(e)
    ensures var s' := Apply(s, e);
      && s'.workers == s.workers && s.created <= s'.created && (s.closing ==> s'.closing)
      && (s.drained ==> s'.drained) && (s.shut ==> s'.shut)
      && (s'.drained && !s.drained ==> forall i :: 0 <= i < |s.threads| ==> s.threads[i].job.None?)
      && (s'.shut && !s.shut ==> s.active <= 0)
  {
  }

  lemma ThreadLooksOn(s: State, e: Event, t: nat)
    requires Inv(s) && Enabled(s, e) && IsThreadEvent(e) && t < |s.threads| && t != e.t
    ensures |Apply(s, e).threads| == |s.threads| && ThreadOk(Apply(s, e), t)
  {
    assert ThreadOk(s, t);
    OnlyOneThreadActs(s, e);
    FlagsFollow(s, e);
    if s.active <= 0 { ZeroMeansNobodyInside(s); }
    ThreadFrame(s, Apply(s, e), t);
  }

  lemma ThreadStep(s: State, e: Event, t: nat)
    requires Inv(s) && Enabled(s, e) && t < |s.threads|
    ensures |Apply(s, e).threads| == |s.threads| && ThreadOk(Apply(s, e), t)
  {
    if e.ReplaceLocals? {
      ThreadReplaced(s, e, t);
    } else if !IsThreadEvent(e) {
      ThreadUnconcerned(s, e, t);
    } else if t == e.t {
      ThreadActs(s, e);
    } else {
      ThreadLooksOn(s, e, t);
    }
  }

  lemma StartJobKeepsJobs(s: State, t: nat)
    requires Inv(s) && Enabled(s, StartJob(t))
    ensures JobsOk(Apply(s, StartJob(t)))
  {
    var s' := Apply(s, StartJob(t));
    forall j | 0 <= j < |s'.fates| && s'.fates[j] == Queued ensures j in s'.queue {
      assert j in s.queue;
    }
  }

  lemma Withdraw(queue: seq<Job>, fates: seq<JobFate>, i: nat)
    requires QueueOk(queue, fates) && i < |queue|
    ensures QueueOk(queue[..i] + queue[i + 1..], fates[queue[i] := Cancelled])
  {
    var rest, fates' := queue[..i] + queue[i + 1..], fates[queue[i] := Cancelled];
    forall p | 0 <= p < |rest| ensures rest[p] == queue[if p < i then p else p + 1] != queue[i] {}
    forall j | 0 <= j < |fates'| && fates'[j] == Queued ensures j in rest {
      var k :| 0 <= k < |queue| && queue[k] == j;
      assert rest[if k < i then k else k - 1] == j;
    }
  }

  lemma CancelKeepsJobs(s: State, i: nat)
    requires JobsOk(s) && Enabled(s, CancelQueued(i))
    ensures JobsOk(Apply(s, CancelQueued(i)))
  {
    Withdraw(s.queue, s.fates, i);
  }

  lemma SubmitKeepsJobs(s: State)
    requires Inv(s)
    ensures JobsOk(Apply(s, Submit))
  {
    var s' := Apply(s, Submit);
    forall j | 0 <= j < |s'.fates| && s'.fates[j] == Queued ensures j in s'.queue {
      if j < |s.fates| { assert j in s.queue; } else { assert s'.queue[|s.queue|] == j; }
    }
  }

  lemma FinishJobKeepsJobs(s: State, t: nat)
    requires Inv(s) && Enabled(s, FinishJob(t))
    ensures JobsOk(Apply(s, FinishJob(t)))
  {
  }

  lemma JobsStep(s: State, e: Event)
    requires Inv(s) && Enabled(s, e)
    ensures JobsOk(Apply(s, e))
  {
    if e.StartJob? {
      StartJobKeepsJobs(s, e.t);
    } else if e.FinishJob? {
      FinishJobKeepsJobs(s, e.t);
    } else if e.CancelQueued? {
      CancelKeepsJobs(s, e.i);
    } else if e.Submit? {
      SubmitKeepsJobs(s);
    } else {
      JobsFrame(s, Apply(s, e));
    }
  }

  lemma JobsFrame(s: State, s': State)
    requires JobsOk(s) && s'.queue == s.queue && s'.fates == s.fates && |s'.threads| == |s.threads|
    requires forall t :: 0 <= t < |s.threads| ==> s'.threads[t].job == s.threads[t].job
    ensures JobsOk(s')
  {
  }

  /** Every event keeps the invariant, whatever the interleaving. */
  lemma StepInv(s: State, e: Event)
    requires Inv(s) && Enabled(s, e)
    ensures Inv(Apply(s, e))
  {
    CountStep(s, e);
    forall t | 0 <= t < |s.threads| ensures |Apply(s, e).threads| == |s.threads| && ThreadOk(Apply(s, e), t) {
      ThreadStep(s, e, t);
    }
    JobsStep(s, e);
    ConnectionsStep(s, e);
    FlagsStep(s, e);
  }

  lemma ConnectionsStep(s: State, e: Event)
    requires Inv(s) && Enabled(s, e)
    ensures ConnectionsOk(Apply(s, e))
  {
    if e.Connect? { assert ThreadOk(s, e.t); }
  }

  lemma FlagsStep(s: State, e: Event)
    requires Inv(s) && Enabled(s, e)
    ensures var s' := Apply(s, e);
      s'.accepting == !s'.closing && (s'.drained ==> s'.closing && s'.queue == []) && (s'.shut ==> s'.drained)
  {
    if e.DrainExecutor? || e.CloseConnections? { assert ThreadOk(s, e.t); }
  }

  lemma {:induction false} RunInv(s: State, es: seq<Event>, s': State)
    requires Inv(s) && Steps(s, es, s')
    ensures Inv(s')
    decreases |es|
  {
    if es != [] {
      StepInv(s, es[0]);
      RunInv(Apply(s, es[0]), es[1..], s');
    }
  }

  // ---------------------------------------------------------------- what close() guarantees

  /** Nobody is inside an operation and no job is waiting or running. */
  ghost predicate Quiet(s: State) {
    && (forall t :: 0 <= t < |s.threads| ==> s.threads[t].saved == [] && s.threads[t].job.None? && !s.threads[t].admitted)
    && s.queue == []
    && (forall j :: 0 <= j < |s.fates| ==> s.fates[j].Finished? || s.fates[j].Cancelled?)
  }

  ghost predicate AllReleased(s: State) {
    s.tracked == {} && forall c: Conn :: c < s.created ==> c in s.released
  }

  lemma DrainedAndCountedIsQuiet(s: State)
    requires Inv(s) && s.drained && s.active <= 0
    ensures Quiet(s)
  {
    ZeroMeansNobodyInside(s);
    forall t | 0 <= t < |s.threads| ensures s.threads[t].job.None? && !s.threads[t].admitted {
      assert ThreadOk(s, t);
    }
  }

  /**
   At the moment the connections are closed, every other thread is outside and every job
   ever submitted has finished or was withdrawn; afterwards no connection is left open.
   */
  lemma CloseExcludesWork(workers: nat, n: nat, es: seq<Event>, s: State, t: nat)
    requires workers < n && Steps(Initial(workers, n), es, s) && Enabled(s, CloseConnections(t))
    ensures Quiet(s) && AllReleased(Apply(s, CloseConnections(t)))
  {
    InitialInv(workers, n);
    RunInv(Initial(workers, n), es, s);
    assert ThreadOk(s, t);
    DrainedAndCountedIsQuiet(s);
  }

  lemma ShutStep(s: State, e: Event)
    requires Inv(s) && s.shut && Enabled(s, e)
    ensures Apply(s, e).shut && Apply(s, e).created == s.created && |Apply(s, e).fates| == |s.fates|
    ensures e.Enter? || e.Submit? ==> Refused(s, e)
  {
    forall t | 0 <= t < |s.threads| ensures s.threads[t].saved == [] && !s.threads[t].admitted {
      assert ThreadOk(s, t);
    }
  }

  lemma {:induction false} ShutRun(s: State, es: seq<Event>, s': State)
    requires Inv(s) && s.shut && Steps(s, es, s')
    ensures Inv(s') && s'.shut && s'.created == s.created && |s'.fates| == |s.fates|
    decreases |es|
  {
    if es != [] {
      ShutStep(s, es[0]);
      StepInv(s, es[0]);
      ShutRun(Apply(s, es[0]), es[1..], s');
    }
  }

  /**
   And it stays so: whatever the threads do after the connections were closed, nobody gets
   in, no job is accepted, no connection is created, and none is open.
   */
  lemma ClosedForever(workers: nat, n: nat, es: seq<Event>, s: State, t: nat, later: seq<Event>, s': State)
    requires workers < n && Steps(Initial(workers, n), es, s) && Enabled(s, CloseConnections(t))
    requires Steps(Apply(s, CloseConnections(t)), later, s')
    ensures Quiet(s') && AllReleased(s') && s'.created == s.created && |s'.fates| == |s.fates|
    ensures forall e :: Enabled(s', e) && (e.Enter? || e.Submit?) ==> Refused(s', e)
    ensures forall e :: Enabled(s', e) ==> !e.Connect?
  {
    InitialInv(workers, n);
    RunInv(Initial(workers, n), es, s);
    StepInv(s, CloseConnections(t));
    ShutRun(Apply(s, CloseConnections(t)), later, s');
    forall i | 0 <= i < |s'.threads| ensures s'.threads[i].saved == [] { assert ThreadOk(s', i); }
    TotalZero(Depth, s'.threads);
    DrainedAndCountedIsQuiet(s');
    forall e | Enabled(s', e) && (e.Enter? || e.Submit?) ensures Refused(s', e) { ShutStep(s', e); }
  }

  /**
   An operation is refused exactly while closing, on a thread that is not at work already;
   an open manager admits everyone.
   */
  lemma AdmissionRule(s: State, t: nat)
    requires Inv(s) && Enabled(s, Enter(t))
    ensures Refused(s, Enter(t)) <==> s.closing && s.threads[t].saved == [] && s.threads[t].job.None?
  {
    assert ThreadOk(s, t);
  }

  /** Leaving an operation puts back exactly what entering it found, nested or not. */
  lemma ExitUndoesEnter(s: State, t: nat)
    requires Enabled(s, Enter(t)) && !Refused(s, Enter(t))
    ensures Enabled(Apply(s, Enter(t)), Exit(t))
    ensures Apply(Apply(s, Enter(t)), Exit(t)) == s
  {
    var th := s.threads[t];
    var inside := Apply(s, Enter(t));
    assert (th.saved + [th.admitted])[..|th.saved|] == th.saved;
    assert inside.threads[t := th] == s.threads;
  }

  // ---------------------------------------------------------------- close() makes progress

  ghost function Admitted(th: Thread): nat { if th.admitted then 1 else 0 }

  /** Jobs still waiting plus threads that may still work. */
  ghost function Pending(s: State): nat { |s.queue| + Total(Admitted, s.threads) }

  lemma PendingStep(s: State, e: Event)
    requires Inv(s) && s.closing && Enabled(s, e)
    ensures Apply(s, e).closing && Pending(Apply(s, e)) <= Pending(s)
  {
    if IsThreadEvent(e) {
      OnlyOneThreadActs(s, e);
      PendingOfOne(s, e);
      TotalUpdate(Admitted, s.threads, e.t, Apply(s, e).threads[e.t]);
    } else if e.ReplaceLocals? {
      TotalZero(Admitted, Apply(s, e).threads);
    }
  }

  lemma PendingOfOne(s: State, e: Event)
    requires Inv(s) && s.closing && Enabled(s, e) && IsThreadEvent(e)
    ensures var s' := Apply(s, e);
      && s'.closing && |s'.threads| == |s.threads|
      && |s'.queue| + Admitted(s'.threads[e.t]) <= |s.queue| + Admitted(s.threads[e.t])
  {
    assert ThreadOk(s, e.t);
  }

  /** Once admission is shut the pending work never grows again. */
  lemma {:induction false} PendingNeverGrows(s: State, es: seq<Event>, s': State)
    requires Inv(s) && s.closing && Steps(s, es, s')
    ensures s'.closing && Pending(s') <= Pending(s)
    decreases |es|
  {
    if es != [] {
      StepInv(s, es[0]);
      PendingStep(s, es[0]);
      PendingNeverGrows(Apply(s, es[0]), es[1..], s');
    }
  }

  ghost function Load(th: Thread): nat { |th.saved| + if th.job.Some? then 1 else 0 }

  /** Steps the open operations and accepted jobs still need. */
  ghost function Work(s: State): nat { 2 * |s.queue| + Total(Load, s.threads) }

  /** The same, counting the closer's own wait for the executor. */
  ghost function Waiting(s: State, t: nat): nat
    requires t < |s.threads|
  {
    Work(s) + if s.threads[t].phase.AdmissionShut? then 1 else 0
  }

  /** The steps by which started and accepted work runs out. */
  ghost predicate Helps(e: Event) { e.Exit? || e.FinishJob? || e.StartJob? || e.DrainExecutor? }

  lemma HelpfulStepsShrinkWaiting(s: State, e: Event, t: nat)
    requires Inv(s) && Helps(e) && Enabled(s, e) && t < |s.threads|
    requires s.threads[t].phase.AdmissionShut? || s.threads[t].phase.ExecutorDrained?
    requires e.DrainExecutor? ==> e.t == t
    ensures var s' := Apply(s, e);
      && |s'.threads| == |s.threads| && s'.workers == s.workers
      && (s'.threads[t].phase.AdmissionShut? || s'.threads[t].phase.ExecutorDrained?)
      && Waiting(s', t) < Waiting(s, t)
  {
    var s' := Apply(s, e);
    assert ThreadOk(s, e.t) && ThreadOk(s, t);
    assert s'.threads == s.threads[e.t := s'.threads[e.t]];
    TotalUpdate(Load, s.threads, e.t, s'.threads[e.t]);
  }

  /** If the closer cannot proceed, some thread can take a step that brings it closer. */
  lemma HelpfulStepExists(s: State, t: nat) returns (e: Event)
    requires Inv(s) && 0 < s.workers && t < |s.threads|
    requires s.threads[t].phase.AdmissionShut? || s.threads[t].phase.ExecutorDrained?
    requires !Enabled(s, CloseConnections(t))
    ensures Enabled(s, e) && Helps(e) && (e.DrainExecutor? ==> e.t == t)
  {
    if i :| 0 <= i < |s.threads| && s.threads[i].saved != [] {
      e := Exit(i);
    } else if i :| 0 <= i < |s.threads| && s.threads[i].job.Some? {
      e := FinishJob(i);
    } else if s.queue != [] {
      assert ThreadOk(s, 0);
      e := StartJob(0);
    } else {
      TotalZero(Depth, s.threads);
      e := DrainExecutor(t);
    }
  }

  /**
   A closing manager is never stuck: from every reachable state the remaining operations
   can run to their end so that the waiting closer gets to close the connections.
   */
  lemma {:induction false} CloserNeverStuck(s: State, t: nat) returns (es: seq<Event>, s': State)
    requires Inv(s) && 0 < s.workers && t < |s.threads|
    requires s.threads[t].phase.AdmissionShut? || s.threads[t].phase.ExecutorDrained?
    ensures Steps(s, es, s') && Enabled(s', CloseConnections(t)) && |es| <= Waiting(s, t)
    decreases Waiting(s, t)
  {
    if Enabled(s, CloseConnections(t)) {
      es, s' := [], s;
    } else {
      var e := HelpfulStepExists(s, t);
      HelpfulStepsShrinkWaiting(s, e, t);
      StepInv(s, e);
      var rest;
      rest, s' := CloserNeverStuck(Apply(s, e), t);
      es := [e] + rest;
    }
  }
}
