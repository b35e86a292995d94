/**
 `MessageQueue` as an object. Each method is a stretch of the original that runs under
 `_lock`, or of the coroutine between two awaits, or something asyncio, a thread pool or
 the clock does. It updates the fields in place, and its contract states the new state; the
 lemmas whose names end in `Keeps` show that this is what one event of `QueueModel` does,
 so every interleaving of these calls is a run.
 */
module QueueObject {
  import opened Common
  import opened QueueModel
  import opened QueueLifecycle
  import opened QueueLedger
  import opened QueueDrain
  import opened QueueRate
  import opened QueueOutcomes

  /** An orderly run leads to `s`; if `sighted`, none of its events deceived `drain`. */
  ghost predicate Attained(s: State, sighted: bool) {
    exists now: real, es: seq<Event> ::
      now > 0.0 && Run(Initial(now), es, s) && Orderly(Initial(now), es) && (sighted ==> Without(LosesSight, Initial(now), es))
  }

  lemma StartsAttained(now: real)
    requires now > 0.0
    ensures Attained(Initial(now), true)
  {
    assert Run(Initial(now), [], Initial(now)) && Orderly(Initial(now), []) && Without(LosesSight, Initial(now), []);
  }

  lemma StaysAttained(s: State, sighted: bool, e: Event)
    requires Attained(s, sighted) && Enabled(s, e) && !Stale(s, e)
    ensures Attained(Apply(s, e), sighted && !LosesSight(s, e))
  {
    var now: real, es: seq<Event> :|
      now > 0.0 && Run(Initial(now), es, s) && Orderly(Initial(now), es) && (sighted ==> Without(LosesSight, Initial(now), es));
    RunMore(Initial(now), es, s, e);
    if sighted && !LosesSight(s, e) { WithoutMore(LosesSight, Initial(now), es, s, e); }
  }

  lemma StartKeeps(s: State, sighted: bool, delay: real, loop: bool)
    requires Attained(s, sighted)
    ensures var s' := StartBody(s.(ctl := Clear(s.ctl, s.tasks)), delay, loop);
      s' == Apply(s, QueueModel.Start(delay, loop)) && Attained(s', sighted)
  {
    StaysAttained(s, sighted, QueueModel.Start(delay, loop));
  }

  lemma EnsureKeeps(s: State, sighted: bool, loop: bool)
    requires Attained(s, sighted)
    ensures EnsureBody(s, loop) == Apply(s, Ensure(loop)) && Attained(EnsureBody(s, loop), sighted)
  {
    StaysAttained(s, sighted, Ensure(loop));
  }

  lemma StopKeeps(s: State, sighted: bool)
    requires Attained(s, sighted) && s.ctl.running
    ensures var stop := Stop(s.ctl.task, s.ctl.executor, s.ctl.task.None?, s.ctl.executor.None?);
      var s' := s.(ctl := s.ctl.(running := false, stopping := true, stops := s.ctl.stops + [stop]));
      s' == Apply(s, StopBegin) && Attained(s', sighted)
  {
    StaysAttained(s, sighted, StopBegin);
  }

  lemma FinalizeKeeps(s: State, sighted: bool, k: nat)
    requires Attained(s, sighted) && k < |s.ctl.stops|
    ensures !Stale(s, Finalize(k)) ==> Attained(FinalizeBody(s, k), sighted)
  {
    if !Stale(s, Finalize(k)) { StaysAttained(s, sighted, Finalize(k)); }
  }

  lemma CleanupKeeps(s: State, sighted: bool, k: nat)
    requires Attained(s, sighted) && Enabled(s, CancelHandler(k))
    ensures var i := s.ctl.stops[k].task.value;
      var s' := if s.tasks[i].status.Finished?
                then s.(ctl := s.ctl.(stops := s.ctl.stops[k := s.ctl.stops[k].(taskDone := true)]))
                else s.(tasks := s.tasks[i := s.tasks[i].(status := Cancelling)]);
      s' == Apply(s, CancelHandler(k)) && Attained(s', sighted)
  {
    StaysAttained(s, sighted, CancelHandler(k));
  }

  lemma ShutDownKeeps(s: State, sighted: bool, k: nat)
    requires Attained(s, sighted) && Enabled(s, ExecutorDown(k))
    ensures var stop := s.ctl.stops[k];
      var s' := s.(ctl := s.ctl.(stops := s.ctl.stops[k := stop.(executorDone := true)],
                                 pools := s.ctl.pools[stop.executor.value := false]));
      s' == Apply(s, ExecutorDown(k)) && Attained(s', sighted)
  {
    StaysAttained(s, sighted, ExecutorDown(k));
  }

  lemma TaskDoneKeeps(s: State, sighted: bool, k: nat, e: Event)
    requires Attained(s, sighted) && Enabled(s, e) && (e == DoneCallback(k) || e == SeeClosedLoop(k))
    ensures var s' := s.(ctl := s.ctl.(stops := s.ctl.stops[k := s.ctl.stops[k].(taskDone := true)]));
      s' == Apply(s, e) && Attained(s', sighted)
  {
    StaysAttained(s, sighted, e);
  }

  lemma LatchKeeps(s: State, sighted: bool)
    requires Attained(s, sighted) && s.ctl.latches > 0
    ensures var s' := s.(ctl := s.ctl.(latches := s.ctl.latches - 1, stopFailed := true));
      s' == Apply(s, Latch) && Attained(s', sighted)
  {
    StaysAttained(s, sighted, Latch);
  }

  lemma ResetKeeps(s: State, sighted: bool)
    requires Attained(s, sighted)
    ensures var s' := if s.ctl.stopping then s else s.(ctl := Clear(s.ctl, s.tasks));
      s' == Apply(s, ResetFailed) && Attained(s', sighted)
  {
    StaysAttained(s, sighted, ResetFailed);
  }

  lemma OfferKeeps(s: State, sighted: bool, m: Message, first: bool, waits: bool)
    requires Attained(s, sighted)
    ensures var s' := OfferBody(if first then s.(ctl := Clear(s.ctl, s.tasks)) else s, m, first, waits);
      s' == Apply(s, Offer(m, first, waits)) && Attained(s', sighted)
  {
    StaysAttained(s, sighted, Offer(m, first, waits));
  }

  lemma TestKeeps(s: State, sighted: bool, i: nat)
    requires Attained(s, sighted) && Enabled(s, LoopTest(i))
    ensures var s' := if !s.ctl.running then End(s, i, Finished, Abandoned)
                      else s.(tasks := s.tasks[i := s.tasks[i].(pc := if s.tasks[i].held.None? then Fetch else CheckReady)]);
      s' == Apply(s, LoopTest(i)) && Attained(s', sighted)
  {
    StaysAttained(s, sighted, LoopTest(i));
  }

  lemma PopKeeps(s: State, sighted: bool, i: nat)
    requires Attained(s, sighted) && Enabled(s, Pop(i))
    ensures var t := s.tasks[i];
      var s' := if s.queue == [] then s.(tasks := s.tasks[i := t.(pc := LoopTop)])
                else s.(tasks := s.tasks[i := t.(pc := CheckReady, held := Some(s.queue[0]))],
                        queue := s.queue[1..], hasCurrent := true);
      s' == Apply(s, Pop(i)) && Attained(s', sighted)
  {
    StaysAttained(s, sighted, Pop(i));
  }

  lemma CheckKeeps(s: State, sighted: bool, i: nat, v: Verdict)
    requires Attained(s, sighted) && Enabled(s, Check(i, v))
    ensures var pc := if v.Ready? then Pacing else if v.NotReady? then LoopTop else Backoff;
      var s' := s.(tasks := s.tasks[i := s.tasks[i].(pc := pc)]);
      s' == Apply(s, Check(i, v)) && Attained(s', sighted)
  {
    StaysAttained(s, sighted, Check(i, v));
  }

  lemma PaceKeeps(s: State, sighted: bool, i: nat)
    requires Attained(s, sighted) && Enabled(s, Pace(i))
    ensures Paced(s, i) == Apply(s, Pace(i)) && Attained(Paced(s, i), sighted)
  {
    StaysAttained(s, sighted, Pace(i));
  }

  lemma WakeKeeps(s: State, sighted: bool, i: nat, v: Verdict)
    requires Attained(s, sighted) && Enabled(s, Wake(i, v))
    ensures var s' := if v.NotReady? then Requeue(s, i, s.tasks[i].held.value)
                      else Go(s, i, if v.Ready? then FinalCheck else Backoff);
      s' == Apply(s, Wake(i, v)) && Attained(s', sighted)
  {
    StaysAttained(s, sighted, Wake(i, v));
  }

  lemma FinalKeeps(s: State, sighted: bool, i: nat, v: Verdict)
    requires Attained(s, sighted) && Enabled(s, Final(i, v))
    ensures var s' := if v.NotReady? then Requeue(s, i, s.tasks[i].held.value)
                      else if v.Ready? then Attempted(s, i) else Go(s, i, Backoff);
      s' == Apply(s, Final(i, v)) && Attained(s', sighted) && s'.hist.accepted == s.hist.accepted
  {
    StaysAttained(s, sighted, Final(i, v));
  }

  lemma ReturnKeeps(s: State, sighted: bool, i: nat, r: SendResult)
    requires Attained(s, sighted) && Enabled(s, Returns(i, r))
    ensures var t, h := s.tasks[i], s.hist;
      var s' := s.(tasks := s.tasks[i := t.(pc := t.pc.(answer := Some(r)))],
                   hist := if r.Delivered? || r.Empty?
                           then h.(completions := h.completions + [Completion(t.held.value.place, s.now)]) else h);
      s' == Apply(s, Returns(i, r)) && Attained(s', sighted)
  {
    StaysAttained(s, sighted, Returns(i, r));
  }

  lemma UnheardKeeps(s: State, sighted: bool, x: nat, completed: bool)
    requires Attained(s, sighted) && Enabled(s, OrphanReturns(x, completed))
    ensures var h := s.hist;
      var s' := s.(orphans := s.orphans - {x},
                   hist := if completed then h.(completions := h.completions + [Completion(s.orphans[x], s.now)]) else h);
      s' == Apply(s, OrphanReturns(x, completed)) && Attained(s', sighted)
  {
    StaysAttained(s, sighted, OrphanReturns(x, completed));
  }

  lemma MappingKeeps(s: State, sighted: bool, i: nat)
    requires Attained(s, sighted) && Enabled(s, MappingEnds(i))
    ensures var s' := s.(tasks := s.tasks[i := s.tasks[i].(pc := LoopTop)], inFlight := false, hasCurrent := false);
      s' == Apply(s, MappingEnds(i)) && Attained(s', sighted)
  {
    StaysAttained(s, sighted, MappingEnds(i));
  }

  lemma OutsideKeeps(s: State, sighted: bool, i: nat)
    requires Attained(s, sighted) && Enabled(s, CancelOutside(i))
    ensures var s' := s.(tasks := s.tasks[i := s.tasks[i].(status := Cancelling)]);
      s' == Apply(s, CancelOutside(i)) && Attained(s', sighted)
  {
    StaysAttained(s, sighted, CancelOutside(i));
  }

  lemma CloseKeeps(s: State, sighted: bool, i: nat)
    requires Attained(s, sighted) && Enabled(s, LoopCloses(i))
    ensures var s' := End(s, i, Stranded, Abandoned); s' == Apply(s, LoopCloses(i)) && Attained(s', sighted)
  {
    StaysAttained(s, sighted, LoopCloses(i));
  }

  lemma SendKeeps(s: State, sighted: bool, i: nat, maps: bool)
    requires Attained(s, sighted) && Enabled(s, SendEnds(i, maps))
    ensures var s' := Apply(s, SendEnds(i, maps)); Attained(s', sighted) && s'.hist.accepted == s.hist.accepted
  {
    StaysAttained(s, sighted, SendEnds(i, maps));
  }

  lemma CancelKeeps(s: State, sighted: bool, i: nat)
    requires Attained(s, sighted) && Enabled(s, CancelHits(i))
    ensures Attained(Cancel(s, i, Finished), sighted && !LosesSight(s, CancelHits(i)))
    ensures Cancel(s, i, Finished).hist.accepted == s.hist.accepted
    ensures Cancel(s, i, Finished).hist.settled <= s.hist.accepted
  {
    StaysAttained(s, sighted, CancelHits(i));
    SettledFact(Cancel(s, i, Finished), sighted && !LosesSight(s, CancelHits(i)));
  }

  lemma DriveKeeps(s: State, sighted: bool, k: nat, finished: bool)
    requires Attained(s, sighted) && Enabled(s, RunOut(k, finished))
    ensures Attained(RunOutBody(s, k, finished), sighted)
    ensures RunOutBody(s, k, finished).hist.accepted == s.hist.accepted
  {
    StaysAttained(s, sighted, RunOut(k, finished));
  }

  /** What is known of every state of the object. */
  lemma LedgerFact(s: State, sighted: bool)
    requires Attained(s, sighted)
    ensures LifeInv(s.ctl, s.tasks) && LedgerInv(s)
  {
    var now: real, es: seq<Event> :|
      now > 0.0 && Run(Initial(now), es, s) && Orderly(Initial(now), es) && (sighted ==> Without(LosesSight, Initial(now), es));
    LedgerRun(Initial(now), es, s);
  }

  lemma PaceFact(s: State, sighted: bool)
    requires Attained(s, sighted)
    ensures PaceInv(s)
  {
    var now: real, es: seq<Event> :|
      now > 0.0 && Run(Initial(now), es, s) && Orderly(Initial(now), es) && (sighted ==> Without(LosesSight, Initial(now), es));
    var d := SomeBound(es);
    RateRun(Initial(now), es, s, d);
  }

  lemma HonestFact(s: State, sighted: bool)
    requires Attained(s, sighted) && sighted
    ensures Honest(s)
  {
    var now: real, es: seq<Event> :|
      now > 0.0 && Run(Initial(now), es, s) && Orderly(Initial(now), es) && (sighted ==> Without(LosesSight, Initial(now), es));
    HonestRun(Initial(now), es, s);
  }

  lemma TaskInRange(s: State, sighted: bool)
    requires Attained(s, sighted)
    ensures s.ctl.task.Some? ==> s.ctl.task.value < |s.tasks|
  {
    LedgerFact(s, sighted);
  }

  lemma DrainedFact(s: State, sighted: bool)
    requires Attained(s, sighted) && sighted && Drained(s)
    ensures s.hist.settled == s.hist.accepted
  {
    LedgerFact(s, sighted);
    HonestFact(s, sighted);
    HonestMeansSettled(s);
  }

  /** What is settled is the beginning of what was accepted. */
  lemma SettledFact(s: State, sighted: bool)
    requires Attained(s, sighted)
    ensures s.hist.settled <= s.hist.accepted
  {
    LedgerFact(s, sighted);
    HeldIsInHand(s);
    assert (s.hist.settled + Held(s) + s.queue)[..|s.hist.settled|] == s.hist.settled;
  }

  /** The message in hand is the first unsettled one. */
  lemma HeldFact(s: State, sighted: bool, i: nat)
    requires Attained(s, sighted) && i < |s.tasks| && Live(s.tasks[i]) && s.tasks[i].held.Some?
    ensures |s.hist.settled| < |s.hist.accepted| && s.hist.accepted[|s.hist.settled|] == s.tasks[i].held.value
  {
    LedgerFact(s, sighted);
    LiveIsAlone(s, i);
    HeldIsNext(s, i);
  }

  lemma WaitedFact(s: State, sighted: bool, i: nat)
    requires Attained(s, sighted) && Holds(s, i) && s.tasks[i].pc.FinalCheck?
    ensures forall t :: t in s.hist.sends ==> s.now - t >= Gap(s.delay, s.tasks[i].held.value.message)
  {
    PaceFact(s, sighted);
    WaitedForAll(s, i);
  }

  lemma ReadyFact(s: State, sighted: bool, i: nat)
    requires Attained(s, sighted) && Holds(s, i) && s.tasks[i].pc.FinalCheck?
    ensures |s.hist.settled| < |s.hist.accepted| && s.hist.accepted[|s.hist.settled|] == s.tasks[i].held.value
    ensures forall t :: t in s.hist.sends ==> s.now - t >= Gap(s.delay, s.tasks[i].held.value.message)
  {
    HeldFact(s, sighted, i);
    WaitedFact(s, sighted, i);
  }

  /** A start that activates the queue finds no live coroutine and no open pool. */
  lemma StartFact(s: State, sighted: bool, delay: real, loop: bool)
    requires Attained(s, sighted)
    ensures !s.ctl.running && Apply(s, QueueModel.Start(delay, loop)).ctl.running ==>
      !SomeLive(s.tasks) && forall x :: 0 <= x < |s.ctl.pools| ==> !s.ctl.pools[x]
  {
    LedgerFact(s, sighted);
    ClearIsHarmless(s.ctl, s.tasks);
  }

  lemma StartIs(s: State, delay: real, loop: bool)
    requires Starts(s.ctl)
    ensures var pooled := s.ctl.executor.Some?;
      StartBody(s, delay, loop) == s.(
        ctl := s.ctl.(running := true, task := if loop then Some(|s.tasks|) else s.ctl.task,
                      executor := if pooled then s.ctl.executor else Some(|s.ctl.pools|),
                      pools := if pooled then s.ctl.pools else s.ctl.pools + [true]),
        delay := delay, tasks := if loop then s.tasks + [NEW_TASK] else s.tasks)
  {
  }

  class MessageQueue {
    var queue: seq<Ticket>
    var processorTask: Option<nat>
    var running: bool
    var stopping: bool
    var stopFailed: bool
    var lastSendMono: real
    var messageDelay: real
    var executor: Option<nat>
    var inFlight: bool
    var hasCurrent: bool
    var droppedMessages: nat

    // numbers the messages, which the original tells apart by identity
    var accepted: nat

    // asyncio, the thread pools and the clock
    var tasks: seq<Task>
    var orphans: map<nat, nat>
    var pools: seq<bool>
    var stops: seq<Stop>
    var monotonic: real
    ghost var latches: nat
    ghost var hist: History
    ghost var sighted: bool  // no event has deceived `drain` so far

    ghost function Ctl(): Control
      reads this
    {
      Control(running, stopping, stopFailed, processorTask, executor, pools, stops, latches)
    }

    ghost function View(): State
      reads this
    {
      State(Ctl(), tasks, orphans, queue, messageDelay, lastSendMono, monotonic, inFlight, hasCurrent, droppedMessages, hist)
    }

    ghost predicate Valid()
      reads this
    {
      Attained(View(), sighted) && accepted == |hist.accepted|
    }

    constructor (now: real)
      requires now > 0.0
      ensures Valid() && View() == Initial(now) && sighted
    {
      queue, processorTask, running, stopping, stopFailed := [], None, false, false, false;
      lastSendMono, messageDelay, executor := 0.0, INITIAL_DELAY, None;
      inFlight, hasCurrent, droppedMessages := false, false, 0;
      tasks, orphans, pools, stops, monotonic, accepted := [], map[], [], [], now, 0;
      latches, hist, sighted := 0, History([], [], [], [], 0, [], [], []), true;
      new;
      StartsAttained(now);
    }

    /** The registered coroutine is none that could still run. */
    ghost predicate Idle()
      reads this
    {
      processorTask.Some? && processorTask.value < |tasks| ==> tasks[processorTask.value].status.Finished?
    }

    /** A failed stop is over once the queue is stopped, its coroutine has ended and its pool is gone. */
    method ClearFailedStop() returns (cleared: bool)
      requires processorTask.Some? ==> processorTask.value < |tasks|
      modifies this`processorTask, this`stopping, this`stopFailed
      ensures Ctl() == old(Clear(Ctl(), tasks))
      ensures cleared == old(stopFailed && !running && executor.None? && Idle())
      ensures if cleared then processorTask.None? && !stopping && !stopFailed else Ctl() == old(Ctl())
    {
      if !stopFailed {
        return false;
      }
      var taskActive := processorTask.Some? && !tasks[processorTask.value].status.Finished?;
      var executorActive := executor.Some?;
      if running || taskActive || executorActive {
        return false;
      }
      if processorTask.Some? && tasks[processorTask.value].status.Finished? {
        processorTask := None;
      }
      stopping := false;
      stopFailed := false;
      return true;
    }

    /**
     Starts exactly when nothing is running, stopping or left of a failed stop, and then
     finds no live coroutine and no open pool; otherwise nothing changes.
     */
    method Start(delay: real, loop: bool) returns (active: bool)
      requires Valid()
      modifies this
      ensures Valid() && sighted == old(sighted)
      ensures View() == old(StartBody(View().(ctl := Clear(Ctl(), tasks)), delay, loop))
      ensures active == (running && !stopFailed)
      ensures running <==> old(running || (if stopFailed then executor.None? && Idle() else !stopping))
      ensures old(running) || !running ==> View() == old(View())
      ensures !old(running) && running ==> Started(delay, loop)
      ensures !old(running) && running ==> !SomeLive(old(tasks)) && forall x :: 0 <= x < |old(pools)| ==> !old(pools)[x]
    {
      StartFact(View(), sighted, delay, loop);
      StartKeeps(View(), sighted, delay, loop);
      TaskInRange(View(), sighted);
      active := StartLocked(delay, loop);
    }

    /** The queue came up: with this delay, a pool, and a new coroutine if there is a loop for it. */
    twostate predicate Started(delay: real, loop: bool)
      reads this
    {
      && !stopFailed && !stopping && messageDelay == delay
      && tasks == old(tasks) + (if loop then [NEW_TASK] else [])
      && processorTask == (if loop then Some(|old(tasks)|) else if old(stopFailed) then None else old(processorTask))
      && executor == (if old(executor).Some? then old(executor) else Some(|old(pools)|))
      && pools == old(pools) + (if old(executor).Some? then [] else [true])
    }

    method StartLocked(delay: real, loop: bool) returns (active: bool)
      requires processorTask.Some? ==> processorTask.value < |tasks|
      modifies this`messageDelay, this`running, this`executor, this`pools, this`processorTask, this`tasks,
               this`stopping, this`stopFailed
      ensures View() == old(StartBody(View().(ctl := Clear(Ctl(), tasks)), delay, loop))
      ensures active == (running && !stopFailed)
      ensures running <==> old(running || (if stopFailed then executor.None? && Idle() else !stopping))
      ensures old(running) || !running ==> View() == old(View())
      ensures !old(running) && running ==> Started(delay, loop)
    {
      var _ := ClearFailedStop();
      active := Activate(delay, loop);
    }

    /** `start` once a recovered failed stop is forgotten. */
    method Activate(delay: real, loop: bool) returns (active: bool)
      modifies this`messageDelay, this`running, this`executor, this`pools, this`processorTask, this`tasks
      ensures View() == old(StartBody(View(), delay, loop))
      ensures active == (running && !stopFailed)
      ensures running == old(running || (!stopFailed && !stopping))
      ensures old(running) || !running ==> View() == old(View())
      ensures !old(running) && running ==> Started(delay, loop)
    {
      if stopFailed {
        return false;
      }
      if running {
        return true;
      }
      if stopping {
        return false;
      }
      BringUp(delay, loop);
      return true;
    }

    method BringUp(delay: real, loop: bool)
      requires !running && !stopping && !stopFailed
      modifies this`messageDelay, this`running, this`executor, this`pools, this`processorTask, this`tasks
      ensures running && View() == old(StartBody(View(), delay, loop)) && Started(delay, loop)
    {
      StartIs(View(), delay, loop);
      messageDelay := delay;
      running := true;
      EnsureExecutor();
      if loop {
        processorTask := Some(|tasks|);
        tasks := tasks + [NEW_TASK];
      }
    }

    method EnsureExecutor()
      modifies this`executor, this`pools
      ensures old(executor).Some? ==> executor == old(executor) && pools == old(pools)
      ensures old(executor).None? ==> executor == Some(|old(pools)|) && pools == old(pools) + [true]
    {
      if executor.None? {
        executor := Some(|pools|);
        pools := pools + [true];
      }
    }

    method EnsureProcessorStarted(loop: bool)
      requires Valid()
      modifies this
      ensures Valid() && sighted == old(sighted) && View() == old(EnsureBody(View(), loop))
      ensures !old(Idle()) ==> View() == old(View())
      ensures old(Idle()) ==>
        if running && !stopFailed && loop
        then processorTask == Some(|old(tasks)|) && tasks == old(tasks) + [NEW_TASK]
        else processorTask.None? && tasks == old(tasks)
    {
      EnsureKeeps(View(), sighted, loop);
      TaskInRange(View(), sighted);
      EnsureLocked(loop);
    }

    method EnsureLocked(loop: bool)
      requires processorTask.Some? ==> processorTask.value < |tasks|
      modifies this`processorTask, this`tasks
      ensures View() == old(EnsureBody(View(), loop))
      ensures !old(Idle()) ==> View() == old(View())
      ensures old(Idle()) ==>
        if running && !stopFailed && loop
        then processorTask == Some(|old(tasks)|) && tasks == old(tasks) + [NEW_TASK]
        else processorTask.None? && tasks == old(tasks)
    {
      var inactive := processorTask.None? || tasks[processorTask.value].status.Finished?;
      if inactive && processorTask.Some? {
        processorTask := None;
      }
      if running && !stopFailed && inactive && loop {
        processorTask := Some(|tasks|);
        tasks := tasks + [NEW_TASK];
      }
    }

    /** The first critical section of `stop`; `k` names the call in what follows. */
    method BeginStop() returns (k: Option<nat>)
      requires Valid()
      modifies this
      ensures Valid() && sighted == old(sighted)
      ensures k == if old(running) then Some(|old(stops)|) else None
      ensures View() == old(if running then View().(ctl := Ctl().(running := false, stopping := true,
        stops := stops + [Stop(processorTask, executor, processorTask.None?, executor.None?)])) else View())
    {
      if !running {
        return None;
      }
      StopKeeps(View(), sighted);
      running := false;
      stopping := true;
      k := Some(|stops|);
      stops := stops + [Stop(processorTask, executor, processorTask.None?, executor.None?)];
    }

    method FinalizeStopState(k: nat)
      requires Valid() && k < |stops|
      modifies this
      ensures View() == old(FinalizeBody(View(), k)) && FinalizedAt(k)
      ensures sighted == old(sighted) && (!old(Stale(View(), Finalize(k))) ==> Valid())
    {
      FinalizeKeeps(View(), sighted, k);
      TaskInRange(View(), sighted);
      FinalizeNow(k);
    }

    method FinalizeNow(k: nat)
      requires k < |stops| && (processorTask.Some? ==> processorTask.value < |tasks|)
      modifies this`processorTask, this`executor, this`inFlight, this`hasCurrent, this`stopping, this`stopFailed
      ensures View() == old(FinalizeBody(View(), k)) && FinalizedAt(k)
    {
      FinalizeLocked(k);
    }

    /** `_cancel_and_cleanup`, on the loop of the coroutine. */
    method CancelAndCleanup(k: nat)
      requires Valid() && Enabled(View(), CancelHandler(k))
      modifies this
      ensures Valid() && sighted == old(sighted)
      ensures View() == old(var i := stops[k].task.value;
        if tasks[i].status.Finished? then View().(ctl := Ctl().(stops := stops[k := stops[k].(taskDone := true)]))
        else View().(tasks := tasks[i := tasks[i].(status := Cancelling)]))
    {
      CleanupKeeps(View(), sighted, k);
      var i := stops[k].task.value;
      if tasks[i].status.Finished? {
        stops := stops[k := stops[k].(taskDone := true)];
      } else {
        tasks := tasks[i := tasks[i].(status := Cancelling)];
      }
    }

    method ShutDownExecutor(k: nat)
      requires Valid() && Enabled(View(), ExecutorDown(k))
      modifies this
      ensures Valid() && sighted == old(sighted)
      ensures View() == old(View().(ctl := Ctl().(stops := stops[k := stops[k].(executorDone := true)],
                                                  pools := pools[stops[k].executor.value := false])))
    {
      ShutDownKeeps(View(), sighted, k);
      pools := pools[stops[k].executor.value := false];
      stops := stops[k := stops[k].(executorDone := true)];
    }

    /** The latch of a watchdog that saw a timeout. */
    method MarkStopFailed()
      requires Valid() && Enabled(View(), Latch)
      modifies this
      ensures Valid() && sighted == old(sighted) && View() == old(View().(ctl := Ctl().(latches := latches - 1, stopFailed := true)))
    {
      LatchKeeps(View(), sighted);
      latches := latches - 1;
      stopFailed := true;
    }

    method ResetFailedStopState() returns (safe: bool)
      requires Valid()
      modifies this
      ensures Valid() && sighted == old(sighted)
      ensures View() == old(if stopping then View() else View().(ctl := Clear(Ctl(), tasks)))
      ensures safe == (!stopping && !stopFailed)
      ensures safe <==> old(!stopping && (stopFailed ==> !running && executor.None? && Idle()))
    {
      ResetKeeps(View(), sighted);
      TaskInRange(View(), sighted);
      if stopping {
        return false;
      }
      if !stopFailed {
        return true;
      }
      safe := ClearFailedStop();
    }

    /**
     A complete stop gives up the coroutine and the pool that are still its own and, if they
     are, the flags; without a failed stop the queue is no longer stopping, and after one it
     is so once nothing is left of it. An incomplete stop changes nothing.
     */
    twostate predicate FinalizedAt(k: nat)
      requires k < |old(stops)|
      reads this
    {
      var stop := old(stops[k]);
      var own := stop.task.Some? && old(processorTask) == stop.task;
      var left := if own then None else old(processorTask);
      var over := !running && executor.None? && (left.Some? && left.value < |tasks| ==> tasks[left.value].status.Finished?);
      if !(stop.taskDone && stop.executorDone) then View() == old(View())
      else
        && executor == (if stop.executor.Some? && old(executor) == stop.executor then None else old(executor))
        && inFlight == (old(inFlight) && !own) && hasCurrent == (old(hasCurrent) && !own)
        && (!old(stopFailed) ==> processorTask == left && !stopping && !stopFailed)
        && (old(stopFailed) && over ==> processorTask.None? && !stopping && !stopFailed)
        && (old(stopFailed) && !over ==> processorTask == left && stopping == old(stopping) && stopFailed)
    }

    /** What the finalizer does under `_lock`. */
    method FinalizeLocked(k: nat)
      requires k < |stops| && (processorTask.Some? ==> processorTask.value < |tasks|)
      modifies this`processorTask, this`executor, this`inFlight, this`hasCurrent, this`stopping, this`stopFailed
      ensures Ctl() == old(Finalized(Ctl(), tasks, k))
      ensures inFlight == (old(inFlight) && !old(Owns(Ctl(), k)))
      ensures hasCurrent == (old(hasCurrent) && !old(Owns(Ctl(), k)))
      ensures FinalizedAt(k)
    {
      if !(stops[k].taskDone && stops[k].executorDone) {
        return;
      }
      Release(stops[k]);
      assert Ctl() == old(Ctl()).(task := processorTask, executor := executor);
      if stopFailed {
        var _ := ClearFailedStop();
      } else {
        stopping := false;
      }
    }

    /** A finished stop lets go of what is still its own. */
    method Release(stop: Stop)
      modifies this`processorTask, this`executor, this`inFlight, this`hasCurrent
      ensures processorTask == if stop.task.Some? && old(processorTask) == stop.task then None else old(processorTask)
      ensures executor == if stop.executor.Some? && old(executor) == stop.executor then None else old(executor)
      ensures inFlight == (old(inFlight) && !(stop.task.Some? && old(processorTask) == stop.task))
      ensures hasCurrent == (old(hasCurrent) && !(stop.task.Some? && old(processorTask) == stop.task))
    {
      if stop.task.Some? && processorTask == stop.task {
        processorTask := None;
        inFlight := false;
        hasCurrent := false;
      }
      if stop.executor.Some? && executor == stop.executor {
        executor := None;
      }
    }

    /** One turn of the loop in `enqueue`; `waits` says that the caller asked to wait and its timeout has not passed. */
    method EnqueueTurn(m: Message, first: bool, waits: bool) returns (taken: bool, again: bool)
      requires Valid()
      modifies this
      ensures Valid() && sighted == old(sighted)
      ensures View() == old(OfferBody(if first then View().(ctl := Clear(Ctl(), tasks)) else View(), m, first, waits))
      ensures taken <==> old(running && !stopping && !(first && stopFailed) && |queue| < MAX_QUEUE_SIZE)
      ensures again <==> old(running && !stopping && !(first && stopFailed) && |queue| >= MAX_QUEUE_SIZE) && waits
      ensures droppedMessages == old(droppedMessages) +
        if old(running && !stopping && !(first && stopFailed) && |queue| >= MAX_QUEUE_SIZE) && !waits then 1 else 0
      ensures queue == if taken then old(queue) + [Ticket(|old(hist.accepted)|, m)] else old(queue)
      ensures hist.accepted == if taken then old(hist.accepted) + [Ticket(|old(hist.accepted)|, m)] else old(hist.accepted)
    {
      OfferKeeps(View(), sighted, m, first, waits);
      TaskInRange(View(), sighted);
      taken, again := EnqueueLocked(m, first, waits);
    }

    method EnqueueLocked(m: Message, first: bool, waits: bool) returns (taken: bool, again: bool)
      requires accepted == |hist.accepted| && (processorTask.Some? ==> processorTask.value < |tasks|)
      modifies this`queue, this`droppedMessages, this`hist, this`accepted, this`processorTask, this`stopping, this`stopFailed
      ensures accepted == |hist.accepted|
      ensures View() == old(OfferBody(if first then View().(ctl := Clear(Ctl(), tasks)) else View(), m, first, waits))
      ensures taken <==> old(running && !stopping && !(first && stopFailed) && |queue| < MAX_QUEUE_SIZE)
      ensures again <==> old(running && !stopping && !(first && stopFailed) && |queue| >= MAX_QUEUE_SIZE) && waits
      ensures droppedMessages == old(droppedMessages) +
        if old(running && !stopping && !(first && stopFailed) && |queue| >= MAX_QUEUE_SIZE) && !waits then 1 else 0
      ensures queue == if taken then old(queue) + [Ticket(|old(hist.accepted)|, m)] else old(queue)
      ensures hist.accepted == if taken then old(hist.accepted) + [Ticket(|old(hist.accepted)|, m)] else old(hist.accepted)
    {
      if first {
        var _ := ClearFailedStop();
      }
      taken, again := Append(m, first, waits);
    }

    method Append(m: Message, first: bool, waits: bool) returns (taken: bool, again: bool)
      requires accepted == |hist.accepted|
      modifies this`queue, this`droppedMessages, this`hist, this`accepted
      ensures accepted == |hist.accepted| && View() == old(OfferBody(View(), m, first, waits))
      ensures taken <==> running && !stopping && !(first && stopFailed) && |old(queue)| < MAX_QUEUE_SIZE
      ensures again <==> running && !stopping && !(first && stopFailed) && |old(queue)| >= MAX_QUEUE_SIZE && waits
      ensures droppedMessages == old(droppedMessages) +
        if running && !stopping && !(first && stopFailed) && |old(queue)| >= MAX_QUEUE_SIZE && !waits then 1 else 0
      ensures queue == if taken then old(queue) + [Ticket(|old(hist.accepted)|, m)] else old(queue)
      ensures hist.accepted == if taken then old(hist.accepted) + [Ticket(|old(hist.accepted)|, m)] else old(hist.accepted)
    {
      if (first && stopFailed) || !running || stopping {
        return false, false;
      }
      if |queue| >= MAX_QUEUE_SIZE {
        if waits {
          return false, true;
        }
        droppedMessages := droppedMessages + 1;
        hist := hist.(refused := hist.refused + 1);
        return false, false;
      }
      var ticket := Ticket(accepted, m);
      queue := queue + [ticket];
      hist := hist.(accepted := hist.accepted + [ticket]);
      accepted := accepted + 1;
      return true, false;
    }

    method RequeueMessage(m: Ticket) returns (requeued: bool)
      modifies this`queue, this`droppedMessages, this`hist
      ensures requeued == (|old(queue)| < MAX_QUEUE_SIZE)
      ensures requeued ==> queue == [m] + old(queue) && droppedMessages == old(droppedMessages) && hist == old(hist)
      ensures !requeued ==> queue == old(queue) && droppedMessages == old(droppedMessages) + 1
      ensures !requeued ==> hist == old(hist.(settled := hist.settled + [m], fates := hist.fates + [RequeueDropped]))
    {
      if |queue| >= MAX_QUEUE_SIZE {
        droppedMessages := droppedMessages + 1;
        hist := hist.(settled := hist.settled + [m], fates := hist.fates + [RequeueDropped]);
        return false;
      }
      queue := [m] + queue;
      return true;
    }

    /** Back to the head of the queue, with empty hands, then a rest. */
    method PutBack(i: nat)
      requires Holds(View(), i)
      modifies this`queue, this`droppedMessages, this`hist, this`tasks, this`hasCurrent
      ensures View() == old(Requeue(View(), i, tasks[i].held.value))
      ensures tasks == old(tasks)[i := old(tasks[i]).(pc := LoopTop, held := None)] && !hasCurrent
      ensures |old(queue)| < MAX_QUEUE_SIZE ==>
        queue == [old(tasks[i].held.value)] + old(queue) && hist == old(hist) && droppedMessages == old(droppedMessages)
      ensures |old(queue)| >= MAX_QUEUE_SIZE ==>
        && queue == old(queue) && droppedMessages == old(droppedMessages) + 1
        && hist == old(hist.(settled := hist.settled + [tasks[i].held.value], fates := hist.fates + [RequeueDropped]))
    {
      var m := tasks[i].held.value;
      var _ := RequeueMessage(m);
      tasks := tasks[i := tasks[i].(pc := LoopTop, held := None)];
      hasCurrent := false;
    }

    method Goto(i: nat, pc: Pc)
      requires i < |tasks|
      modifies this`tasks
      ensures tasks == old(tasks)[i := old(tasks[i]).(pc := pc)]
    {
      tasks := tasks[i := tasks[i].(pc := pc)];
    }

    /** `while self._running`; leaving the loop with a message in hand loses it. */
    method TestLoop(i: nat)
      requires Valid() && Enabled(View(), LoopTest(i))
      modifies this
      ensures Valid() && sighted == old(sighted)
      ensures old(running) ==> View() == old(View().(
        tasks := tasks[i := tasks[i].(pc := if tasks[i].held.None? then Fetch else CheckReady)]))
      ensures !old(running) ==> View() == old(End(View(), i, Finished, Abandoned))
      ensures !old(running) ==> tasks[i].status.Finished? && EndsWith(i, Abandoned)
    {
      TestKeeps(View(), sighted, i);
      if !running {
        EndCoroutine(i, Finished, Abandoned);
      } else if tasks[i].held.None? {
        Goto(i, Fetch);
      } else {
        Goto(i, CheckReady);
      }
    }

    method TakeNext(i: nat)
      requires Valid() && Enabled(View(), Pop(i))
      modifies this
      ensures Valid() && sighted == old(sighted)
      ensures View() == old(if queue == [] then View().(tasks := tasks[i := tasks[i].(pc := LoopTop)])
        else View().(tasks := tasks[i := tasks[i].(pc := CheckReady, held := Some(queue[0]))], queue := queue[1..], hasCurrent := true))
      ensures old(queue) != [] ==> |hist.settled| < |hist.accepted| && tasks[i].held == Some(hist.accepted[|hist.settled|])
    {
      PopKeeps(View(), sighted, i);
      if queue == [] {
        Goto(i, LoopTop);
      } else {
        tasks := tasks[i := tasks[i].(pc := CheckReady, held := Some(queue[0]))];
        queue := queue[1..];
        hasCurrent := true;
        HeldFact(View(), sighted, i);
      }
    }

    method CheckConnection(i: nat, v: Verdict)
      requires Valid() && Enabled(View(), Check(i, v))
      modifies this
      ensures Valid() && sighted == old(sighted)
      ensures View() == old(View().(tasks := tasks[i := tasks[i].(
        pc := if v.Ready? then Pacing else if v.NotReady? then LoopTop else Backoff)]))
    {
      CheckKeeps(View(), sighted, i, v);
      if v.Raises? {
        Goto(i, Backoff);
      } else if v.NotReady? {
        Goto(i, LoopTop);
      } else {
        Goto(i, Pacing);
      }
    }

    /** A rest until the larger of the two delays has passed since the last send, if it has not. */
    twostate predicate PacedAt(i: nat)
      requires i < |old(tasks)| && old(tasks[i].held).Some?
      reads this
    {
      var since, least := monotonic - lastSendMono, old(tasks[i].held.value.message.minDelay);
      && |tasks| == |old(tasks)| && tasks[i].held == old(tasks[i].held)
      && (tasks[i].pc.Resting? <==>
            lastSendMono > 0.0 && (since < messageDelay || (least.Some? && since < least.value)))
      && (tasks[i].pc.Resting? ==>
            && tasks[i].pc.until >= lastSendMono + messageDelay
            && (least.Some? ==> tasks[i].pc.until >= lastSendMono + least.value)
            && (tasks[i].pc.until == lastSendMono + messageDelay
                || (least.Some? && tasks[i].pc.until == lastSendMono + least.value)))
      && (!tasks[i].pc.Resting? ==> tasks[i].pc == FinalCheck)
    }

    method ComparePace(i: nat)
      requires Valid() && Enabled(View(), Pace(i))
      modifies this
      ensures Valid() && sighted == old(sighted) && View() == old(Paced(View(), i))
      ensures PacedAt(i)
    {
      PaceKeeps(View(), sighted, i);
      if lastSendMono > 0.0 {
        var timeSinceLast := monotonic - lastSendMono;
        var effectiveDelay := messageDelay;
        var minDelay := tasks[i].held.value.message.minDelay;
        if minDelay.Some? {
          effectiveDelay := if minDelay.value > effectiveDelay then minDelay.value else effectiveDelay;
        }
        if timeSinceLast < effectiveDelay {
          var waitTime := effectiveDelay - timeSinceLast;
          Goto(i, Resting(monotonic + waitTime));
          return;
        }
      }
      Goto(i, FinalCheck);
    }

    method AfterRest(i: nat, v: Verdict)
      requires Valid() && Enabled(View(), Wake(i, v))
      modifies this
      ensures Valid() && sighted == old(sighted)
      ensures v.NotReady? ==> View() == old(Requeue(View(), i, tasks[i].held.value))
      ensures v.NotReady? && |old(queue)| < MAX_QUEUE_SIZE ==> queue == [old(tasks[i].held.value)] + old(queue)
      ensures !v.NotReady? ==> View() == old(View().(
        tasks := tasks[i := tasks[i].(pc := if v.Ready? then FinalCheck else Backoff)]))
    {
      WakeKeeps(View(), sighted, i, v);
      if v.Raises? {
        Goto(i, Backoff);
      } else if v.NotReady? {
        PutBack(i);
      } else {
        Goto(i, FinalCheck);
      }
    }

    method BeginSend(i: nat, v: Verdict)
      requires Valid() && Enabled(View(), Final(i, v))
      modifies this
      ensures Valid() && sighted == old(sighted)
      ensures v.NotReady? ==> View() == old(Requeue(View(), i, tasks[i].held.value))
      ensures v.NotReady? && |old(queue)| < MAX_QUEUE_SIZE ==> queue == [old(tasks[i].held.value)] + old(queue)
      ensures v.Raises? ==> View() == old(View().(tasks := tasks[i := tasks[i].(pc := Backoff)]))
      ensures v.Ready? ==> View() == old(Attempted(View(), i)) && tasks[i].pc == Sending(executor, None) && inFlight
      ensures v.Ready? ==> |hist.settled| < |hist.accepted| && hist.attempts == old(hist.attempts) + [hist.accepted[|hist.settled|]]
      ensures v.Ready? ==> forall t :: t in hist.sends ==> monotonic - t >= Gap(messageDelay, old(tasks[i].held.value.message))
    {
      FinalKeeps(View(), sighted, i, v);
      ReadyFact(View(), sighted, i);
      if v.Raises? {
        Goto(i, Backoff);
      } else if v.NotReady? {
        PutBack(i);
      } else {
        CallSend(i);
      }
    }

    /** The message in hand goes to a send function. */
    method CallSend(i: nat)
      requires Holds(View(), i)
      modifies this`hist, this`tasks, this`inFlight
      ensures View() == old(Attempted(View(), i))
      ensures tasks == old(tasks)[i := old(tasks[i]).(pc := Sending(executor, None))] && inFlight
      ensures hist == old(hist.(attempts := hist.attempts + [tasks[i].held.value]))
    {
      inFlight := true;
      hist := hist.(attempts := hist.attempts + [tasks[i].held.value]);
      Goto(i, Sending(executor, None));
    }

    /**
     The coroutine goes on after a call. The answer decides: a rejected message failed, an
     empty answer is recorded as no result and a delivery as sent, both at this time; after
     a lost connection the message heads the queue again, or is dropped if the queue is full.
     */
    method SendCompleted(i: nat, maps: bool)
      requires Valid() && Enabled(View(), SendEnds(i, maps))
      modifies this
      ensures Valid() && sighted == old(sighted)
      ensures old(tasks[i].pc.answer) == Some(Rejected) ==> View() == old(var m := tasks[i].held.value; View().(
        tasks := tasks[i := tasks[i].(pc := LoopTop, held := None)], inFlight := false, hasCurrent := false,
        hist := hist.(settled := hist.settled + [m], fates := hist.fates + [Error], records := hist.records + [Entry(m, Error)])))
      ensures old(tasks[i].pc.answer) == Some(Empty) ==> View() == old(var m := tasks[i].held.value; View().(
        tasks := tasks[i := tasks[i].(pc := LoopTop, held := None)], inFlight := false, hasCurrent := false,
        lastSend := monotonic,
        hist := hist.(settled := hist.settled + [m], fates := hist.fates + [NoResult],
                      records := hist.records + [Entry(m, NoResult)], sends := hist.sends + [monotonic])))
      ensures old(tasks[i].pc.answer) == Some(Delivered) ==> View() == old(var m := tasks[i].held.value; View().(
        tasks := tasks[i := tasks[i].(pc := if maps then Mapping(m) else LoopTop, held := None)],
        inFlight := inFlight && maps, hasCurrent := hasCurrent && maps, lastSend := monotonic,
        hist := hist.(settled := hist.settled + [m], fates := hist.fates + [Sent],
                      records := hist.records + [Entry(m, Sent)], sends := hist.sends + [monotonic])))
      ensures old(tasks[i].pc.answer) == Some(ConnectionLost) ==> View() == old(
        var m, full := tasks[i].held.value, |queue| >= MAX_QUEUE_SIZE; View().(
        tasks := tasks[i := tasks[i].(pc := LoopTop, held := None)], inFlight := false, hasCurrent := false,
        queue := if full then queue else [m] + queue, dropped := droppedMessages + if full then 1 else 0,
        hist := if full then hist.(settled := hist.settled + [m], fates := hist.fates + [RequeueDropped]) else hist))
    {
      ghost var before := View();
      SendKeeps(before, sighted, i, maps);
      AfterSend(i, maps);
      match before.tasks[i].pc.answer.value
      case ConnectionLost => LostGoesBack(before, i, maps);
      case Rejected => RejectedIsError(before, i, maps);
      case Empty => EmptyIsNoResult(before, i, maps);
      case Delivered => DeliveredIsSent(before, i, maps);
    }

    method AfterSend(i: nat, maps: bool)
      requires Holds(View(), i) && tasks[i].pc.Sending? && tasks[i].pc.answer.Some?
      modifies this`queue, this`droppedMessages, this`hist, this`tasks, this`hasCurrent, this`inFlight, this`lastSendMono
      ensures old(tasks[i].pc.answer) == Some(Rejected) ==> View() == old(var m := tasks[i].held.value; View().(
        tasks := tasks[i := tasks[i].(pc := LoopTop, held := None)], inFlight := false, hasCurrent := false,
        hist := hist.(settled := hist.settled + [m], fates := hist.fates + [Error], records := hist.records + [Entry(m, Error)])))
      ensures old(tasks[i].pc.answer) == Some(Empty) ==> View() == old(var m := tasks[i].held.value; View().(
        tasks := tasks[i := tasks[i].(pc := LoopTop, held := None)], inFlight := false, hasCurrent := false,
        lastSend := monotonic,
        hist := hist.(settled := hist.settled + [m], fates := hist.fates + [NoResult],
                      records := hist.records + [Entry(m, NoResult)], sends := hist.sends + [monotonic])))
      ensures old(tasks[i].pc.answer) == Some(Delivered) ==> View() == old(var m := tasks[i].held.value; View().(
        tasks := tasks[i := tasks[i].(pc := if maps then Mapping(m) else LoopTop, held := None)],
        inFlight := inFlight && maps, hasCurrent := hasCurrent && maps, lastSend := monotonic,
        hist := hist.(settled := hist.settled + [m], fates := hist.fates + [Sent],
                      records := hist.records + [Entry(m, Sent)], sends := hist.sends + [monotonic])))
      ensures old(tasks[i].pc.answer) == Some(ConnectionLost) ==> View() == old(
        var m, full := tasks[i].held.value, |queue| >= MAX_QUEUE_SIZE; View().(
        tasks := tasks[i := tasks[i].(pc := LoopTop, held := None)], inFlight := false, hasCurrent := false,
        queue := if full then queue else [m] + queue, dropped := droppedMessages + if full then 1 else 0,
        hist := if full then hist.(settled := hist.settled + [m], fates := hist.fates + [RequeueDropped]) else hist))
    {
      var answer := tasks[i].pc.answer.value;
      if answer.ConnectionLost? {
        PutBack(i);
        inFlight := false;
      } else if answer.Rejected? {
        Tell(i, Error, LoopTop);
        inFlight := false;
        hasCurrent := false;
      } else {
        var mapped := answer.Delivered? && maps;
        NoteSent(i, if answer.Empty? then NoResult else Sent, if mapped then Mapping(tasks[i].held.value) else LoopTop);
        inFlight := inFlight && mapped;
        hasCurrent := hasCurrent && mapped;
      }
    }

    /** The time of the send is taken. */
    method NoteSent(i: nat, fate: Fate, pc: Pc)
      requires Holds(View(), i)
      modifies this`hist, this`tasks, this`lastSendMono
      ensures tasks == old(tasks)[i := old(tasks[i]).(pc := pc, held := None)] && lastSendMono == monotonic
      ensures hist == old(var m := tasks[i].held.value;
        hist.(settled := hist.settled + [m], fates := hist.fates + [fate], records := hist.records + [Entry(m, fate)],
              sends := hist.sends + [monotonic]))
    {
      Tell(i, fate, pc);
      lastSendMono := monotonic;
      hist := hist.(sends := hist.sends + [monotonic]);
    }

    /** `_record_sent_history`, and the message leaves the hand. */
    method Tell(i: nat, fate: Fate, pc: Pc)
      requires Holds(View(), i)
      modifies this`tasks, this`hist
      ensures tasks == old(tasks)[i := old(tasks[i]).(pc := pc, held := None)]
      ensures hist == old(var m := tasks[i].held.value;
        hist.(settled := hist.settled + [m], fates := hist.fates + [fate], records := hist.records + [Entry(m, fate)]))
    {
      var m := tasks[i].held.value;
      hist := hist.(settled := hist.settled + [m], fates := hist.fates + [fate], records := hist.records + [Entry(m, fate)]);
      tasks := tasks[i := tasks[i].(pc := pc, held := None)];
    }

    method MappingDone(i: nat)
      requires Valid() && Enabled(View(), MappingEnds(i))
      modifies this
      ensures Valid() && sighted == old(sighted) && View() == old(View().(
        tasks := tasks[i := tasks[i].(pc := LoopTop)], inFlight := false, hasCurrent := false))
    {
      MappingKeeps(View(), sighted, i);
      inFlight := false;
      hasCurrent := false;
      Goto(i, LoopTop);
    }

    /** `CancelledError` arrives: handled inside the loop's `try`, not before it and not in its exception handler. */
    method DeliverCancellation(i: nat)
      requires Valid() && Enabled(View(), CancelHits(i))
      modifies this
      ensures Valid() && View() == old(Cancel(View(), i, Finished))
      ensures sighted == (old(sighted) && !old(LosesSight(View(), CancelHits(i))))
      ensures hist.settled <= hist.accepted
      ensures CancelledAt(i)
    {
      CancelKeeps(View(), sighted, i);
      ghost var seen := sighted && !LosesSight(View(), CancelHits(i));
      CancelCoroutine(i);
      sighted := seen;
    }

    /**
     Before its first step, and in the pause after an error, a cancellation is not handled:
     the message in hand is lost without a record. Elsewhere it is recorded as cancelled,
     the flags fall, and a message already sent gets a second record.
     */
    twostate predicate CancelledAt(i: nat)
      requires i < |old(tasks)|
      reads this
    {
      var t := old(tasks[i]);
      var caught := !t.pc.Created? && !t.pc.Backoff?;
      var known := if t.held.Some? then t.held else if t.pc.Mapping? then Some(t.pc.sent) else t.left;
      && |tasks| == |old(tasks)| && tasks[i].status.Finished? && tasks[i].held.None?
      && inFlight == (old(inFlight) && !caught) && hasCurrent == (old(hasCurrent) && !caught)
      && hist.settled == old(hist.settled) + (if t.held.Some? then [t.held.value] else [])
      && hist.fates == old(hist.fates) + (if t.held.None? then [] else if caught then [Cancelled] else [Abandoned])
      && hist.records == old(hist.records) + (if caught && known.Some? then [Entry(known.value, Cancelled)] else [])
    }

    method CancelCoroutine(i: nat)
      requires i < |tasks|
      modifies this`tasks, this`orphans, this`hist, this`inFlight, this`hasCurrent
      ensures View() == old(Cancel(View(), i, Finished))
      ensures CancelledAt(i)
    {
      var task := tasks[i];
      if !Catches(task.pc) {
        EndCoroutine(i, Finished, Abandoned);
        return;
      }
      EndCoroutine(i, Finished, Cancelled);
      inFlight := false;
      hasCurrent := false;
      if Remembers(task).Some? {
        hist := hist.(records := hist.records + [Entry(Remembers(task).value, Cancelled)]);
      }
    }

    /** The coroutine has empty hands; what it held has left the queue with this fate, unrecorded. */
    twostate predicate EndsWith(i: nat, fate: Fate)
      requires i < |old(tasks)|
      reads this
    {
      && |tasks| == |old(tasks)| && tasks[i].held.None?
      && hist == if old(tasks[i].held).None? then old(hist)
                 else old(hist).(settled := old(hist.settled) + [old(tasks[i].held.value)], fates := old(hist.fates) + [fate])
    }

    method EndCoroutine(i: nat, status: Status, fate: Fate)
      requires i < |tasks|
      modifies this`tasks, this`orphans, this`hist
      ensures View() == old(End(View(), i, status, fate))
      ensures tasks[i].status == status && EndsWith(i, fate)
    {
      var task := tasks[i];
      LeaveCall(task);
      tasks := tasks[i := task.(status := status, held := None, left := if status.Doomed? then task.held else None)];
      if task.held.Some? {
        hist := hist.(settled := hist.settled + [task.held.value], fates := hist.fates + [fate]);
      }
    }

    /** A call that runs in a pool goes on there. */
    method LeaveCall(task: Task)
      modifies this`orphans
      ensures orphans == old(Orphaned(View(), task))
    {
      if task.held.Some? && Live(task) && task.pc.Sending? && task.pc.answer.None? && task.pc.pool.Some? {
        var x := task.pc.pool.value;
        if x < |pools| && pools[x] && x !in orphans {
          orphans := orphans[x := task.held.value.place];
        }
      }
    }

    // what asyncio, the pools and the clock do

    method AdvanceClock(dt: real)
      requires Valid() && Enabled(View(), Tick(dt))
      modifies this
      ensures Valid() && sighted == old(sighted) && View() == old(View().(now := monotonic + dt))
    {
      StaysAttained(View(), sighted, Tick(dt));
      monotonic := monotonic + dt;
    }

    /** The send function of coroutine `i` returns; a completed one is a message handed over now. */
    method ReturnFromSend(i: nat, r: SendResult)
      requires Valid() && Enabled(View(), Returns(i, r))
      modifies this
      ensures Valid() && sighted == old(sighted)
      ensures tasks == old(tasks)[i := old(tasks[i]).(pc := old(tasks[i].pc).(answer := Some(r)))]
      ensures hist == if r.Delivered? || r.Empty?
                      then old(hist.(completions := hist.completions + [Completion(tasks[i].held.value.place, monotonic)]))
                      else old(hist)
      ensures View() == old(View()).(tasks := tasks, hist := hist)
    {
      ReturnKeeps(View(), sighted, i, r);
      if Completes(r) {
        hist := hist.(completions := hist.completions + [Completion(tasks[i].held.value.place, monotonic)]);
      }
      tasks := tasks[i := tasks[i].(pc := tasks[i].pc.(answer := Some(r)))];
    }

    /** A send function returns for which nobody waits any more. */
    method ReturnUnheard(x: nat, completed: bool)
      requires Valid() && Enabled(View(), OrphanReturns(x, completed))
      modifies this
      ensures Valid() && sighted == old(sighted)
      ensures orphans == old(orphans) - {x} && View() == old(View()).(orphans := orphans, hist := hist)
      ensures hist == if completed then old(hist.(completions := hist.completions + [Completion(orphans[x], monotonic)]))
                      else old(hist)
    {
      UnheardKeeps(View(), sighted, x, completed);
      if completed {
        hist := hist.(completions := hist.completions + [Completion(orphans[x], monotonic)]);
      }
      orphans := orphans - {x};
    }

    method WakeFromBackoff(i: nat)
      requires Valid() && Enabled(View(), BackoffEnds(i))
      modifies this
      ensures Valid() && sighted == old(sighted) && View() == old(View().(tasks := tasks[i := tasks[i].(pc := LoopTop)]))
    {
      StaysAttained(View(), sighted, BackoffEnds(i));
      Goto(i, LoopTop);
    }

    /** Somebody else cancels the coroutine. */
    method CancelFromOutside(i: nat)
      requires Valid() && Enabled(View(), CancelOutside(i))
      modifies this
      ensures Valid() && sighted == old(sighted) && View() == old(View().(tasks := tasks[i := tasks[i].(status := Cancelling)]))
    {
      OutsideKeeps(View(), sighted, i);
      tasks := tasks[i := tasks[i].(status := Cancelling)];
    }

    /** The event loop of the coroutine is closed. */
    method CloseLoop(i: nat)
      requires Valid() && Enabled(View(), LoopCloses(i))
      modifies this
      ensures Valid() && sighted == old(sighted) && View() == old(End(View(), i, Stranded, Abandoned))
      ensures tasks[i].status.Stranded? && EndsWith(i, Abandoned)
    {
      CloseKeeps(View(), sighted, i);
      EndCoroutine(i, Stranded, Abandoned);
    }

    /** `_on_task_done` */
    method NoteTaskDone(k: nat)
      requires Valid() && Enabled(View(), DoneCallback(k))
      modifies this
      ensures Valid() && sighted == old(sighted) && View() == old(View().(ctl := Ctl().(stops := stops[k := stops[k].(taskDone := true)])))
    {
      TaskDoneKeeps(View(), sighted, k, DoneCallback(k));
      stops := stops[k := stops[k].(taskDone := true)];
    }

    /** `stop` finds the loop of its coroutine closed. */
    method NoteClosedLoop(k: nat)
      requires Valid() && Enabled(View(), SeeClosedLoop(k))
      modifies this
      ensures Valid() && sighted == old(sighted) && View() == old(View().(ctl := Ctl().(stops := stops[k := stops[k].(taskDone := true)])))
    {
      TaskDoneKeeps(View(), sighted, k, SeeClosedLoop(k));
      stops := stops[k := stops[k].(taskDone := true)];
    }

    /** `run_until_complete` on a loop at rest: the coroutine ends, or the loop refuses. */
    method DriveToEnd(k: nat, finished: bool)
      requires Valid() && Enabled(View(), RunOut(k, finished))
      modifies this
      ensures Valid() && sighted == old(sighted) && View() == old(RunOutBody(View(), k, finished))
    {
      DriveKeeps(View(), sighted, k, finished);
      DriveNow(k, finished);
    }

    method DriveNow(k: nat, finished: bool)
      requires Awaits(View(), k)
      modifies this`tasks, this`orphans, this`hist, this`inFlight, this`hasCurrent, this`stops
      ensures View() == old(RunOutBody(View(), k, finished))
    {
      Drive(stops[k].task.value, finished);
      stops := stops[k := stops[k].(taskDone := true)];
    }

    method Drive(i: nat, finished: bool)
      requires i < |tasks|
      modifies this`tasks, this`orphans, this`hist, this`inFlight, this`hasCurrent
      ensures View() == old(RanOut(View(), i, finished))
    {
      if tasks[i].status.Finished? {
        return;
      }
      if finished {
        CancelCoroutine(i);
      } else {
        EndCoroutine(i, Doomed, Abandoned);
      }
    }

    /** A watchdog sees a timeout; it latches it later. */
    method SeeTimeout(k: nat)
      requires Valid() && Enabled(View(), TimeoutSeen(k))
      modifies this
      ensures Valid() && sighted == old(sighted) && View() == old(View().(ctl := Ctl().(latches := latches + 1)))
    {
      StaysAttained(View(), sighted, TimeoutSeen(k));
      latches := latches + 1;
    }

    /** The test of `drain`: when it succeeds on a queue nobody deceived, every accepted message is settled. */
    method IsDrained() returns (drained: bool)
      requires Valid()
      ensures drained == Drained(View())
      ensures drained && sighted ==> hist.settled == hist.accepted
    {
      drained := !(queue != [] || inFlight || hasCurrent);
      if drained && sighted { DrainedFact(View(), sighted); }
    }
  }
}
