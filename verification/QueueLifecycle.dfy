/**
 Start and stop of the message queue: at most one processor and one thread pool at a
 time, across timeouts, late watchdogs and restarts, and exactly which event can break it.
 */
module QueueLifecycle {
  import opened Common
  import opened QueueModel

  predicate IsLast(c: Control, k: nat) { k + 1 == |c.stops| }

  /**
   A finalizer of an earlier stop runs again while a later stop is under way. The original
   does not tell the two apart when it clears `_stopping`.
   */
  predicate Stale(s: State, e: Event) {
    && e.Finalize? && e.k < |s.ctl.stops| && !IsLast(s.ctl, e.k) && s.ctl.stopping && !s.ctl.stopFailed
    && s.ctl.stops[e.k].taskDone && s.ctl.stops[e.k].executorDone
  }

  ghost predicate IndicesOk(c: Control, n: nat) {
    && (c.task.Some? ==> c.task.value < n)
    && (c.executor.Some? ==> c.executor.value < |c.pools|)
    && (forall k :: 0 <= k < |c.stops| ==>
          && (c.stops[k].task.Some? ==> c.stops[k].task.value < n)
          && c.stops[k].executor.Some? && c.stops[k].executor.value < |c.pools|)
  }

  /** Different stops concern different coroutines and pools, and none the running ones. */
  ghost predicate StopsDistinct(c: Control) {
    && (forall k, l :: 0 <= k < l < |c.stops| ==>
          && (c.stops[k].task.Some? ==> c.stops[k].task != c.stops[l].task)
          && c.stops[k].executor != c.stops[l].executor)
    && (c.running ==> forall k :: 0 <= k < |c.stops| ==>
          && (c.stops[k].task.Some? ==> c.stops[k].task != c.task)
          && c.stops[k].executor != c.executor)
  }

  /** The three resting points of the life cycle. */
  ghost predicate PhaseOk(c: Control) {
    if c.running then !c.stopping && c.executor.Some?
    else if c.stopping then
      && c.stops != []
      && var last := c.stops[|c.stops| - 1];
      && c.executor == last.executor && (c.task.None? || c.task == last.task)
    else c.executor.None? && c.task.None?
  }

  ghost predicate StopsDone(c: Control) {
    forall k :: 0 <= k < |c.stops| && !(c.stopping && IsLast(c, k)) ==> c.stops[k].taskDone && c.stops[k].executorDone
  }

  /** A coroutine that may still take a message belongs to the running queue or to the open stop. */
  ghost predicate LiveOk(c: Control, tasks: seq<Task>) {
    forall i :: 0 <= i < |tasks| && Live(tasks[i]) ==>
      || (c.running && c.task == Some(i))
      || (c.stopping && c.stops != [] && c.stops[|c.stops| - 1].task == Some(i) && !c.stops[|c.stops| - 1].taskDone)
  }

  ghost predicate PoolsOk(c: Control) {
    forall x :: 0 <= x < |c.pools| ==>
      (c.pools[x] <==>
        && c.executor == Some(x)
        && (c.running || (c.stopping && c.stops != [] && !c.stops[|c.stops| - 1].executorDone)))
  }

  ghost predicate LifeInv(c: Control, tasks: seq<Task>) {
    IndicesOk(c, |tasks|) && StopsDistinct(c) && PhaseOk(c) && StopsDone(c) && LiveOk(c, tasks) && PoolsOk(c)
  }

  // ---------------------------------------------------------------- calm events

  /** No coroutine comes to life. */
  ghost predicate Calm(tasks: seq<Task>, tasks': seq<Task>) {
    |tasks'| == |tasks| && forall i :: 0 <= i < |tasks| && Live(tasks'[i]) ==> Live(tasks[i])
  }

  lemma LifeFrame(c: Control, tasks: seq<Task>, tasks': seq<Task>)
    requires LifeInv(c, tasks) && Calm(tasks, tasks')
    ensures LifeInv(c, tasks')
  {
  }

  predicate IsCoroutineStep(e: Event) {
    || e.LoopTest? || e.Pop? || e.Check? || e.Pace? || e.Wake? || e.Final? || e.Returns? || e.SendEnds? || e.MappingEnds? || e.BackoffEnds?
    || e.CancelHits? || e.CancelOutside? || e.LoopCloses?
  }

  /** The clock, start and stop, and the watchdogs. */
  predicate IsControl(e: Event) {
    || e.Tick? || e.Start? || e.Ensure? || e.StopBegin? || e.CancelHandler? || e.DoneCallback? || e.SeeClosedLoop?
    || e.ExecutorDown? || e.Finalize? || e.TimeoutSeen? || e.Latch? || e.ResetFailed?
  }

  /** They leave messages and sends alone. */
  lemma ControlStands(s: State, e: Event)
    requires Enabled(s, e) && IsControl(e)
    ensures Apply(s, e).hist == s.hist && Apply(s, e).orphans == s.orphans && Apply(s, e).queue == s.queue
  {
  }

  /** Only coroutine `i` moves, and it does not come to life. */
  ghost predicate Touches(s: State, s': State, i: nat) {
    && i < |s.tasks| == |s'.tasks| && s'.ctl == s.ctl
    && s'.tasks == s.tasks[i := s'.tasks[i]] && (Live(s'.tasks[i]) ==> Live(s.tasks[i]))
  }

  lemma RequeueTouches(s: State, i: nat, m: Ticket)
    requires i < |s.tasks|
    ensures Touches(s, Requeue(s, i, m), i)
  {
  }

  lemma EndTouches(s: State, i: nat, status: Status, f: Fate)
    requires i < |s.tasks| && !status.Active? && !status.Cancelling?
    ensures Touches(s, End(s, i, status, f), i)
  {
  }

  lemma SendEndedTouches(s: State, i: nat, maps: bool)
    requires Enabled(s, SendEnds(i, maps))
    ensures Touches(s, SendEnded(s, i, maps), i)
  {
    RequeueTouches(s, i, s.tasks[i].held.value);
  }

  lemma SentHandIsEmpty(s: State, i: nat, maps: bool)
    requires Enabled(s, SendEnds(i, maps))
    ensures |SendEnded(s, i, maps).tasks| == |s.tasks| && SendEnded(s, i, maps).tasks[i].held.None?
  {
  }

  /** A coroutine leaves the life cycle and the other coroutines alone. */
  lemma CoroutineTouches(s: State, e: Event)
    requires Enabled(s, e) && IsCoroutineStep(e)
    ensures Touches(s, Apply(s, e), e.i)
  {
    match e
    case LoopTest(i) => EndTouches(s, i, Finished, Abandoned);
    case Wake(i, _) => RequeueTouches(s, i, s.tasks[i].held.value);
    case Final(i, _) => RequeueTouches(s, i, s.tasks[i].held.value);
    case SendEnds(i, maps) => SendEndedTouches(s, i, maps);
    case CancelHits(i) => EndTouches(s, i, Finished, Abandoned); EndTouches(s, i, Finished, Cancelled);
    case LoopCloses(i) => EndTouches(s, i, Stranded, Abandoned);
    case _ =>
  }

  // ---------------------------------------------------------------- starting and stopping

  /** Outside a finalizer, clearing a failed stop only ever lowers the latch. */
  lemma ClearIsHarmless(c: Control, tasks: seq<Task>)
    requires LifeInv(c, tasks)
    ensures Clear(c, tasks) == c.(stopFailed := Clear(c, tasks).stopFailed) && LifeInv(Clear(c, tasks), tasks)
  {
  }

  lemma StartLife(s: State, delay: real, loop: bool)
    requires LifeInv(s.ctl, s.tasks)
    ensures var s' := StartBody(s, delay, loop); LifeInv(s'.ctl, s'.tasks)
  {
  }

  lemma EnsureLife(s: State, loop: bool)
    requires LifeInv(s.ctl, s.tasks)
    ensures var s' := EnsureBody(s, loop); LifeInv(s'.ctl, s'.tasks)
  {
  }

  lemma StopBeginLife(s: State)
    requires LifeInv(s.ctl, s.tasks) && s.ctl.running
    ensures LifeInv(Apply(s, StopBegin).ctl, s.tasks)
  {
  }

  /** Only the stop that is still open waits for anything. */
  lemma UnfinishedStopIsOpen(c: Control, tasks: seq<Task>, k: nat)
    requires LifeInv(c, tasks) && k < |c.stops| && !(c.stops[k].taskDone && c.stops[k].executorDone)
    ensures c.stopping && IsLast(c, k) && !c.running
  {
  }

  lemma TaskDoneLife(c: Control, tasks: seq<Task>, k: nat)
    requires LifeInv(c, tasks) && k < |c.stops| && !c.stops[k].taskDone
    requires c.stops[k].task.Some? && !Live(tasks[c.stops[k].task.value])
    ensures LifeInv(PutStop(c, k, c.stops[k].(taskDone := true)), tasks)
  {
    UnfinishedStopIsOpen(c, tasks, k);
  }

  lemma ExecutorDownLife(s: State, k: nat)
    requires LifeInv(s.ctl, s.tasks) && Enabled(s, ExecutorDown(k))
    ensures LifeInv(Apply(s, ExecutorDown(k)).ctl, s.tasks)
  {
    UnfinishedStopIsOpen(s.ctl, s.tasks, k);
  }

  lemma EndIsCalm(s: State, i: nat, status: Status, f: Fate)
    requires i < |s.tasks| && !status.Active? && !status.Cancelling?
    ensures var s' := End(s, i, status, f); s'.ctl == s.ctl && Calm(s.tasks, s'.tasks) && !Live(s'.tasks[i])
  {
  }

  lemma RanOutIsCalm(s: State, i: nat, finished: bool)
    requires i < |s.tasks|
    ensures var s' := RanOut(s, i, finished); s'.ctl == s.ctl && Calm(s.tasks, s'.tasks) && !Live(s'.tasks[i])
  {
    EndIsCalm(s, i, Doomed, Abandoned);
    EndIsCalm(s, i, Finished, if Catches(s.tasks[i].pc) then Cancelled else Abandoned);
  }

  /** The stop learns what became of its coroutine. */
  lemma StopReportLife(s: State, e: Event)
    requires LifeInv(s.ctl, s.tasks) && Enabled(s, e)
    requires e.CancelHandler? || e.DoneCallback? || e.SeeClosedLoop? || e.RunOut?
    ensures LifeInv(Apply(s, e).ctl, Apply(s, e).tasks)
  {
    var i := s.ctl.stops[e.k].task.value;
    if e.RunOut? {
      RanOutIsCalm(s, i, e.finished);
      LifeFrame(s.ctl, s.tasks, RanOut(s, i, e.finished).tasks);
      TaskDoneLife(s.ctl, RanOut(s, i, e.finished).tasks, e.k);
    } else if e.CancelHandler? && !s.tasks[i].status.Finished? {
      LifeFrame(s.ctl, s.tasks, Apply(s, e).tasks);
    } else {
      TaskDoneLife(s.ctl, s.tasks, e.k);
    }
  }

  /** The finalizer of the open stop, once both parts are done, leads back to the stopped queue. */
  lemma FinalizeOpenLife(c: Control, tasks: seq<Task>, k: nat)
    requires LifeInv(c, tasks) && c.stopping && IsLast(c, k) && c.stops[k].taskDone && c.stops[k].executorDone
    ensures LifeInv(Finalized(c, tasks, k), tasks)
    ensures var c' := Finalized(c, tasks, k); !c'.stopping && !c'.stopFailed && !c'.running
  {
    assert Finalized(c, tasks, k) == c.(task := None, executor := None, stopping := false, stopFailed := false);
  }

  /** Any other finalizer finds nothing of its own to release. */
  lemma FinalizeAgainLife(s: State, k: nat)
    requires LifeInv(s.ctl, s.tasks) && k < |s.ctl.stops| && !Stale(s, Finalize(k)) && !(s.ctl.stopping && IsLast(s.ctl, k))
    ensures LifeInv(Finalized(s.ctl, s.tasks, k), s.tasks)
  {
    var c, c' := s.ctl, Finalized(s.ctl, s.tasks, k);
    assert c' == c.(stopFailed := c'.stopFailed);
  }

  lemma FinalizeLife(s: State, k: nat)
    requires LifeInv(s.ctl, s.tasks) && k < |s.ctl.stops| && !Stale(s, Finalize(k))
    ensures LifeInv(Finalized(s.ctl, s.tasks, k), s.tasks)
  {
    if s.ctl.stopping && IsLast(s.ctl, k) {
      if s.ctl.stops[k].taskDone && s.ctl.stops[k].executorDone { FinalizeOpenLife(s.ctl, s.tasks, k); }
    } else {
      FinalizeAgainLife(s, k);
    }
  }

  lemma CoroutineLife(s: State, e: Event)
    requires LifeInv(s.ctl, s.tasks) && Enabled(s, e) && IsCoroutineStep(e)
    ensures LifeInv(Apply(s, e).ctl, Apply(s, e).tasks)
  {
    CoroutineTouches(s, e);
    LifeFrame(s.ctl, s.tasks, Apply(s, e).tasks);
  }

  lemma StartStopLife(s: State, e: Event)
    requires LifeInv(s.ctl, s.tasks) && Enabled(s, e) && !Stale(s, e)
    requires e.Start? || e.Ensure? || e.StopBegin? || e.ExecutorDown? || e.Finalize?
    ensures LifeInv(Apply(s, e).ctl, Apply(s, e).tasks)
  {
    match e
    case Start(delay, loop) =>
      ClearIsHarmless(s.ctl, s.tasks);
      StartLife(s.(ctl := Clear(s.ctl, s.tasks)), delay, loop);
    case Ensure(loop) => EnsureLife(s, loop);
    case StopBegin => StopBeginLife(s);
    case ExecutorDown(k) => ExecutorDownLife(s, k);
    case Finalize(k) => FinalizeLife(s, k);
  }

  lemma LatchLife(c: Control, tasks: seq<Task>, stopFailed: bool, latches: nat)
    requires LifeInv(c, tasks)
    ensures LifeInv(c.(stopFailed := stopFailed, latches := latches), tasks)
  {
  }

  predicate IsBystander(e: Event) { e.Offer? || e.Tick? || e.OrphanReturns? || e.TimeoutSeen? || e.Latch? || e.ResetFailed? }

  /** Producers, the clock, forgotten sends and the watchdogs at most move the failed-stop latch. */
  lemma BystanderLife(s: State, e: Event)
    requires LifeInv(s.ctl, s.tasks) && Enabled(s, e) && IsBystander(e)
    ensures LifeInv(Apply(s, e).ctl, Apply(s, e).tasks)
    ensures Apply(s, e).tasks == s.tasks
  {
    ClearIsHarmless(s.ctl, s.tasks);
    LatchLife(s.ctl, s.tasks, Apply(s, e).ctl.stopFailed, Apply(s, e).ctl.latches);
  }

  /** Every event but a stale finalizer keeps the life cycle in order. */
  lemma LifeStep(s: State, e: Event)
    requires LifeInv(s.ctl, s.tasks) && Enabled(s, e) && !Stale(s, e)
    ensures LifeInv(Apply(s, e).ctl, Apply(s, e).tasks)
  {
    if IsCoroutineStep(e) {
      CoroutineLife(s, e);
    } else if e.Start? || e.Ensure? || e.StopBegin? || e.ExecutorDown? || e.Finalize? {
      StartStopLife(s, e);
    } else if IsBystander(e) {
      BystanderLife(s, e);
    } else {
      StopReportLife(s, e);
    }
  }

  /** A stale finalizer does break it, always: the stop under way is forgotten. */
  lemma StaleFinalizerBreaks(s: State, e: Event)
    requires LifeInv(s.ctl, s.tasks) && Enabled(s, e)
    ensures LifeInv(Apply(s, e).ctl, Apply(s, e).tasks) <==> !Stale(s, e)
  {
    if Stale(s, e) {
      var c := Apply(s, e).ctl;
      assert s.ctl.executor == s.ctl.stops[|s.ctl.stops| - 1].executor;
      assert c.executor == s.ctl.executor && !c.stopping && !c.running;
    } else {
      LifeStep(s, e);
    }
  }

  // ---------------------------------------------------------------- whole runs

  /** No finalizer is so late that the next stop has begun meanwhile. */
  ghost predicate Orderly(s: State, es: seq<Event>)
    decreases |es|
  {
    es == [] || (Enabled(s, es[0]) && !Stale(s, es[0]) && Orderly(Apply(s, es[0]), es[1..]))
  }

  lemma {:induction false} LifeRun(s: State, es: seq<Event>, s': State)
    requires LifeInv(s.ctl, s.tasks) && Orderly(s, es) && Run(s, es, s')
    ensures LifeInv(s'.ctl, s'.tasks)
    decreases |es|
  {
    if es != [] {
      LifeStep(s, es[0]);
      LifeRun(Apply(s, es[0]), es[1..], s');
    }
  }

  /** At no time can two processors take messages or two thread pools run. */
  lemma NeverTwo(now: real, es: seq<Event>, s: State, i: nat, j: nat)
    requires Orderly(Initial(now), es) && Run(Initial(now), es, s)
    ensures i < |s.tasks| && j < |s.tasks| && Live(s.tasks[i]) && Live(s.tasks[j]) ==> i == j
    ensures i < |s.ctl.pools| && j < |s.ctl.pools| && s.ctl.pools[i] && s.ctl.pools[j] ==> i == j
  {
    LifeRun(Initial(now), es, s);
  }

  /**
   A stopped queue is activated only when the coroutine of the last stop has ended or can
   never go on, and its thread pool is shut down.
   */
  lemma StartWaitsForCleanup(now: real, es: seq<Event>, s: State, delay: real, loop: bool)
    requires Orderly(Initial(now), es) && Run(Initial(now), es, s)
    requires !s.ctl.running && Apply(s, Start(delay, loop)).ctl.running
    ensures forall i :: 0 <= i < |s.tasks| ==> !Live(s.tasks[i])
    ensures forall x :: 0 <= x < |s.ctl.pools| ==> !s.ctl.pools[x]
    ensures forall k :: 0 <= k < |s.ctl.stops| ==> s.ctl.stops[k].taskDone && s.ctl.stops[k].executorDone
  {
    LifeRun(Initial(now), es, s);
    ClearIsHarmless(s.ctl, s.tasks);
  }

  lemma {:induction false} RunMore(s: State, es: seq<Event>, m: State, e: Event)
    requires Run(s, es, m) && Enabled(m, e)
    ensures Run(s, es + [e], Apply(m, e))
    ensures Orderly(s, es) && !Stale(m, e) ==> Orderly(s, es + [e])
    decreases |es|
  {
    if es == [] {
      assert Run(Apply(m, e), [], Apply(m, e)) && Orderly(Apply(m, e), []);
    } else {
      assert (es + [e])[1..] == es[1..] + [e];
      RunMore(Apply(s, es[0]), es[1..], m, e);
    }
  }

  lemma {:induction false} WithoutMore(bad: (State, Event) -> bool, s: State, es: seq<Event>, m: State, e: Event)
    requires Run(s, es, m) && Enabled(m, e) && Without(bad, s, es) && !bad(m, e)
    ensures Without(bad, s, es + [e])
    decreases |es|
  {
    if es == [] {
      assert Without(bad, Apply(m, e), []);
    } else {
      assert (es + [e])[1..] == es[1..] + [e];
      WithoutMore(bad, Apply(s, es[0]), es[1..], m, e);
    }
  }

  /** Some run from a new queue leads to `s`. */
  ghost predicate Attainable(s: State) {
    exists now: real, es: seq<Event> :: now > 0.0 && Run(Initial(now), es, s)
  }

  /** Some orderly run leads to `s`. */
  ghost predicate Reachable(s: State) {
    exists now: real, es: seq<Event> :: now > 0.0 && Run(Initial(now), es, s) && Orderly(Initial(now), es)
  }

  lemma StartsReachable(now: real)
    requires now > 0.0
    ensures Reachable(Initial(now))
  {
    assert Run(Initial(now), [], Initial(now)) && Orderly(Initial(now), []);
  }

  lemma StaysReachable(s: State, e: Event)
    requires Reachable(s) && Enabled(s, e) && !Stale(s, e)
    ensures Reachable(Apply(s, e))
  {
    var now: real, es: seq<Event> :| now > 0.0 && Run(Initial(now), es, s) && Orderly(Initial(now), es);
    RunMore(Initial(now), es, s, e);
  }

  lemma StaysAttainable(s: State, e: Event)
    requires Attainable(s) && Enabled(s, e)
    ensures Attainable(Apply(s, e))
  {
    var now: real, es: seq<Event> :| now > 0.0 && Run(Initial(now), es, s);
    RunMore(Initial(now), es, s, e);
  }

  lemma ReachableIsAttainable(s: State)
    requires Reachable(s)
    ensures Attainable(s)
  {
  }

  lemma ReachableLife(s: State)
    requires Reachable(s)
    ensures LifeInv(s.ctl, s.tasks)
  {
    var now: real, es: seq<Event> :| now > 0.0 && Run(Initial(now), es, s) && Orderly(Initial(now), es);
    LifeRun(Initial(now), es, s);
  }

  /** One more event of a sample run. */
  lemma Next(s: State, e: Event) returns (s': State)
    requires Reachable(s) && Enabled(s, e) && !Stale(s, e)
    ensures s' == Apply(s, e) && Reachable(s')
  {
    s' := Apply(s, e);
    StaysReachable(s, e);
  }

  const OPEN_STOP := Stop(Some(0), Some(0), false, false)
  const DONE_STOP := Stop(Some(0), Some(0), true, true)
  const ENDED := Task(Finished, Created, None, None)

  /** Apart from the life cycle everything is as in a new queue. */
  predicate Blank(s: State, now: real) {
    s == Initial(now).(ctl := s.ctl, tasks := s.tasks, delay := 2.5)
  }

  /** Started with a running loop and stopped. */
  lemma SampleStop(now: real) returns (s: State)
    requires now > 0.0
    ensures Reachable(s)
    ensures s.ctl == Control(false, true, false, Some(0), Some(0), [true], [OPEN_STOP], 0) && s.tasks == [NEW_TASK]
    ensures Blank(s, now)
  {
    StartsReachable(now);
    s := Next(Initial(now), Start(2.5, true));
    assert s.ctl == Control(true, false, false, Some(0), Some(0), [true], [], 0) && s.tasks == [NEW_TASK];
    s := Next(s, StopBegin);
  }

  /** The coroutine is driven to its end, and the watch over the pool may see a timeout. */
  lemma SampleRanOut(now: real, timeout: bool) returns (s: State)
    requires now > 0.0
    ensures Reachable(s)
    ensures s.ctl == Control(false, true, false, Some(0), Some(0), [true], [Stop(Some(0), Some(0), true, false)], if timeout then 1 else 0)
    ensures s.tasks == [ENDED] && Blank(s, now)
  {
    s := SampleStop(now);
    s := Next(s, RunOut(0, true));
    assert s.tasks == [ENDED] && s.ctl.stops == [Stop(Some(0), Some(0), true, false)];
    if timeout { s := Next(s, TimeoutSeen(0)); }
  }

  /** Then the pool is gone as well. */
  lemma SampleStopped(now: real, timeout: bool) returns (s: State)
    requires now > 0.0
    ensures Reachable(s)
    ensures s.ctl == Control(false, false, false, None, None, [false], [DONE_STOP], if timeout then 1 else 0)
    ensures s.tasks == [ENDED] && Blank(s, now)
  {
    s := SampleRanOut(now, timeout);
    s := Next(s, ExecutorDown(0));
    assert s.ctl == Control(false, true, false, Some(0), Some(0), [false], [DONE_STOP], if timeout then 1 else 0);
    s := Next(s, Finalize(0));
  }

  /** And the queue is started again. */
  lemma SampleRestart(now: real, timeout: bool) returns (s: State)
    requires now > 0.0
    ensures Reachable(s)
    ensures s.ctl == Control(true, false, false, Some(1), Some(1), [false, true], [DONE_STOP], if timeout then 1 else 0)
    ensures s.tasks == [ENDED, NEW_TASK] && Blank(s, now)
  {
    s := SampleStopped(now, timeout);
    s := Next(s, Start(2.5, true));
  }

  // ---------------------------------------------------------------- running with the failed-stop latch

  predicate NotLatched(s: State) { s.ctl.running ==> !s.ctl.stopFailed }

  predicate LatchesRunning(s: State, e: Event) { e.Latch? && s.ctl.running }

  /** One event sets the latch on a running queue if and only if it is a latch that fires while the queue runs. */
  lemma LatchedExactlyByLatch(s: State, e: Event)
    requires LifeInv(s.ctl, s.tasks) && Enabled(s, e) && !Stale(s, e) && NotLatched(s)
    ensures NotLatched(Apply(s, e)) <==> !LatchesRunning(s, e)
  {
    if IsCoroutineStep(e) {
      CoroutineTouches(s, e);
    } else if e.RunOut? {
      RanOutIsCalm(s, s.ctl.stops[e.k].task.value, e.finished);
    }
  }

  /** So over a whole run the queue never runs latched if and only if no latch fires while it runs. */
  lemma {:induction false} NeverLatchedExactly(s: State, es: seq<Event>)
    requires LifeInv(s.ctl, s.tasks) && Orderly(s, es) && NotLatched(s)
    ensures Throughout(NotLatched, s, es) <==> Without(LatchesRunning, s, es)
    decreases |es|
  {
    if es != [] {
      LatchedExactlyByLatch(s, es[0]);
      if NotLatched(Apply(s, es[0])) {
        LifeStep(s, es[0]);
        NeverLatchedExactly(Apply(s, es[0]), es[1..]);
      }
    }
  }

  /** While the queue runs nobody waits for a cleanup, so no further watchdog can see a timeout. */
  lemma NoNewTimeouts(s: State, e: Event)
    requires LifeInv(s.ctl, s.tasks) && Enabled(s, e) && s.ctl.running && s.ctl.latches == 0 && !e.StopBegin?
    ensures Apply(s, e).ctl.running && Apply(s, e).ctl.latches == 0
  {
    if IsCoroutineStep(e) { CoroutineTouches(s, e); }
  }

  /** A queue that starts with no timeout left to latch does not run latched before the next stop. */
  lemma {:induction false} NeverLatchedBeforeNextStop(s: State, es: seq<Event>)
    requires LifeInv(s.ctl, s.tasks) && Orderly(s, es) && NotLatched(s) && s.ctl.running && s.ctl.latches == 0
    requires forall j :: 0 <= j < |es| ==> !es[j].StopBegin?
    ensures Throughout(NotLatched, s, es)
    decreases |es|
  {
    if es != [] {
      LatchedExactlyByLatch(s, es[0]);
      NoNewTimeouts(s, es[0]);
      LifeStep(s, es[0]);
      NeverLatchedBeforeNextStop(Apply(s, es[0]), es[1..]);
    }
  }

  /**
   A watchdog tests and latches in two steps, so a timeout it saw can be latched after the
   cleanup finished and the queue was started again: running with the latch set.
   */
  lemma RunningWithFailedStop(now: real) returns (s: State)
    requires now > 0.0
    ensures Reachable(s) && s.ctl.running && s.ctl.stopFailed
  {
    s := SampleRestart(now, true);
    s := Next(s, Latch);
  }

  // ---------------------------------------------------------------- after a stale finalizer

  ghost predicate SomeLive(tasks: seq<Task>) { exists i :: 0 <= i < |tasks| && Live(tasks[i]) }

  ghost predicate TwoLive(tasks: seq<Task>) { exists i, j :: 0 <= i < j < |tasks| && Live(tasks[i]) && Live(tasks[j]) }

  /**
   A start right after a stale finalizer makes two processors live if and only if the stop
   under way still had one.
   */
  lemma StaleStartDoublesExactly(s: State, e: Event, delay: real)
    requires LifeInv(s.ctl, s.tasks) && Enabled(s, e) && Stale(s, e)
    ensures TwoLive(Apply(Apply(s, e), Start(delay, true)).tasks) <==> SomeLive(s.tasks)
  {
    var tasks := Apply(Apply(s, e), Start(delay, true)).tasks;
    assert tasks == s.tasks + [NEW_TASK];
    if i :| 0 <= i < |s.tasks| && Live(s.tasks[i]) {
      assert Live(tasks[i]) && Live(tasks[|s.tasks|]);
    }
  }

  /**
   And it opens no second pool but takes over the one of the stop under way: the queue then
   runs on an open pool if and only if that stop has not shut it down yet.
   */
  lemma StaleStartReusesPool(s: State, e: Event, delay: real, loop: bool)
    requires LifeInv(s.ctl, s.tasks) && Enabled(s, e) && Stale(s, e)
    ensures var last, c := s.ctl.stops[|s.ctl.stops| - 1], Apply(Apply(s, e), Start(delay, loop)).ctl;
      && c.running && c.pools == s.ctl.pools && c.executor == last.executor && c.executor.Some?
      && (IsOpen(c, c.executor.value) <==> !last.executorDone)
  {
  }

  /** When that stop does shut it down, the running queue is left on a closed pool. */
  lemma StaleStartLosesPool(s: State, e: Event, delay: real, loop: bool)
    requires LifeInv(s.ctl, s.tasks) && Enabled(s, e) && Stale(s, e)
    requires Enabled(Apply(Apply(s, e), Start(delay, loop)), ExecutorDown(|s.ctl.stops| - 1))
    ensures var c := Apply(Apply(Apply(s, e), Start(delay, loop)), ExecutorDown(|s.ctl.stops| - 1)).ctl;
      c.running && c.executor.Some? && !IsOpen(c, c.executor.value)
  {
    StaleStartReusesPool(s, e, delay, loop);
  }

  /**
   With one stale finalizer two processors do run side by side: stop, restart, stop again,
   and a finalizer of the first stop lets a third start in before the cancellation arrived.
   */
  lemma StaleFinalizerAllowsTwoProcessors(now: real) returns (s: State)
    requires now > 0.0
    ensures Attainable(s) && |s.tasks| == 3 && s.tasks[1].status.Active? && s.tasks[2].status.Active?
    ensures !Reachable(s)
  {
    s := SampleRestart(now, false);
    s := Next(s, StopBegin);
    assert s.ctl == Control(false, true, false, Some(1), Some(1), [false, true], [DONE_STOP, Stop(Some(1), Some(1), false, false)], 0);
    ReachableIsAttainable(s);
    StaysAttainable(s, Finalize(0));
    s := Apply(s, Finalize(0));
    assert s.ctl == Control(false, false, false, Some(1), Some(1), [false, true], [DONE_STOP, Stop(Some(1), Some(1), false, false)], 0);
    StaysAttainable(s, Start(2.5, true));
    s := Apply(s, Start(2.5, true));
    assert s.tasks == [ENDED, NEW_TASK, NEW_TASK];
    if Reachable(s) { ReachableLife(s); }
  }
}
