/**
 `drain` looks at the queue and at two flags. When what it sees means that every accepted
 message is settled, and exactly which event can deceive it.
 */
module QueueDrain {
  import opened Common
  import opened QueueModel
  import opened QueueLifecycle
  import opened QueueSamples
  import opened QueueLedger

  /** What makes `drain` return true. */
  predicate Drained(s: State) { s.queue == [] && !s.inFlight && !s.hasCurrent }

  predicate NobodyHolding(s: State) { forall i :: 0 <= i < |s.tasks| ==> s.tasks[i].held.None? }

  predicate Honest(s: State) { Drained(s) ==> NobodyHolding(s) }

  /**
   A coroutine cancelled on a stopped event loop is driven again later: it lowers the flags
   while another one holds the last message.
   */
  predicate LosesSight(s: State, e: Event) {
    && e.CancelHits? && e.i < |s.tasks| && s.tasks[e.i].status.Doomed? && Catches(s.tasks[e.i].pc)
    && s.queue == [] && !NobodyHolding(s)
  }

  /** Honesty is just what a caller of `drain` relies on. */
  lemma HonestMeansSettled(s: State)
    requires LedgerInv(s) && LifeInv(s.ctl, s.tasks)
    ensures Honest(s) <==> (Drained(s) ==> s.hist.settled == s.hist.accepted)
  {
    HeldIsInHand(s);
    if NobodyHolding(s) {
      assert Held(s) == [];
      assert s.hist.settled + [] + [] == s.hist.settled;
    } else {
      assert |Held(s)| == 1;
    }
  }

  // ---------------------------------------------------------------- single events

  /** After these steps the coroutine holds nothing. */
  predicate LetsGo(e: Event) {
    || e.SendEnds? || e.MappingEnds? || e.CancelHits? || e.LoopCloses?
    || (e.Wake? && e.v.NotReady?) || (e.Final? && e.v.NotReady?)
  }

  lemma HandIsEmpty(s: State, e: Event)
    requires Enabled(s, e) && IsCoroutineStep(e) && LetsGo(e) && HandOk(s.tasks[e.i])
    ensures |Apply(s, e).tasks| == |s.tasks| && Apply(s, e).tasks[e.i].held.None?
  {
    if e.SendEnds? {
      SentHandIsEmpty(s, e.i, e.maps);
    } else if e.CancelHits? {
      CancelEnds(s, e.i, Finished);
    } else if e.MappingEnds? {
      assert s.tasks[e.i].held.None?;
    }
  }

  /** The others raise a flag for what they take up and lower none. */
  lemma StepAnnounces(s: State, e: Event)
    requires Enabled(s, e) && IsCoroutineStep(e) && !LetsGo(e)
    ensures |Apply(s, e).tasks| == |s.tasks|
    ensures Apply(s, e).tasks[e.i].held.Some? && Drained(Apply(s, e)) ==> Drained(s) && s.tasks[e.i].held.Some?
  {
  }

  lemma CoroutineHonest(s: State, e: Event)
    requires LedgerInv(s) && LifeInv(s.ctl, s.tasks) && Enabled(s, e) && Honest(s)
    requires IsCoroutineStep(e) && !(e.CancelHits? && s.tasks[e.i].status.Doomed?)
    ensures Honest(Apply(s, e))
  {
    CoroutineTouches(s, e);
    LiveIsAlone(s, e.i);
    if LetsGo(e) { HandIsEmpty(s, e); } else { StepAnnounces(s, e); }
    forall j | 0 <= j < |s.tasks| && j != e.i ensures Apply(s, e).tasks[j].held.None? {
      assert HandOk(s.tasks[j]);
    }
  }

  lemma DoomedHonest(s: State, i: nat)
    requires LedgerInv(s) && Honest(s) && Enabled(s, CancelHits(i)) && s.tasks[i].status.Doomed?
    ensures Honest(Apply(s, CancelHits(i))) <==> !LosesSight(s, CancelHits(i))
  {
    CancelEnds(s, i, Finished);
    var s' := Apply(s, CancelHits(i));
    assert HandOk(s.tasks[i]);
    assert s'.tasks == s.tasks[i := s'.tasks[i]] && s'.tasks[i].held.None? && s'.queue == s.queue;
    assert forall j :: 0 <= j < |s.tasks| ==> s'.tasks[j].held == s.tasks[j].held;
  }

  /** The finalizer of the open stop lowers the flags only when nobody holds anything. */
  lemma FinalizeHonest(s: State, k: nat)
    requires LedgerInv(s) && LifeInv(s.ctl, s.tasks) && k < |s.ctl.stops| && !Stale(s, Finalize(k)) && Honest(s)
    ensures Honest(FinalizeBody(s, k))
  {
    if Owns(s.ctl, k) {
      forall i | 0 <= i < |s.tasks| ensures s.tasks[i].held.None? { assert HandOk(s.tasks[i]); }
    }
  }

  /** A coroutine that is driven to its end, or given up, leaves no message in a hand. */
  lemma RunOutHonest(s: State, i: nat, finished: bool)
    requires LedgerInv(s) && LifeInv(s.ctl, s.tasks) && i < |s.tasks| && Live(s.tasks[i]) && Honest(s)
    ensures Honest(RanOut(s, i, finished))
  {
    LiveIsAlone(s, i);
    if finished { CancelEnds(s, i, Finished); }
    var s' := RanOut(s, i, finished);
    forall j | 0 <= j < |s'.tasks| ensures s'.tasks[j].held.None? {
      if j != i { assert HandOk(s.tasks[j]) && s'.tasks[j] == s.tasks[j]; }
    }
  }

  lemma RestFlags(s: State, e: Event)
    requires Enabled(s, e) && !IsCoroutineStep(e) && !e.Finalize? && !e.RunOut?
    ensures Drained(Apply(s, e)) ==> Drained(s)
  {
  }

  lemma RestHands(s: State, e: Event)
    requires Enabled(s, e) && !IsCoroutineStep(e) && !e.Finalize? && !e.RunOut?
    ensures NobodyHolding(s) ==> NobodyHolding(Apply(s, e))
  {
  }

  /** One event makes `drain` lie if and only if it is such a late cancellation. */
  lemma SightLostExactly(s: State, e: Event)
    requires LedgerInv(s) && LifeInv(s.ctl, s.tasks) && Enabled(s, e) && !Stale(s, e) && Honest(s)
    ensures Honest(Apply(s, e)) <==> !LosesSight(s, e)
  {
    if e.CancelHits? && s.tasks[e.i].status.Doomed? {
      DoomedHonest(s, e.i);
    } else if IsCoroutineStep(e) {
      CoroutineHonest(s, e);
    } else if e.Finalize? {
      FinalizeHonest(s, e.k);
    } else if e.RunOut? {
      var i := s.ctl.stops[e.k].task.value;
      if Live(s.tasks[i]) { RunOutHonest(s, i, e.finished); }
    } else {
      RestFlags(s, e);
      RestHands(s, e);
    }
  }

  // ---------------------------------------------------------------- whole runs

  /** Over a whole run `drain` never lies if and only if no such event happens. */
  lemma {:induction false} DrainHonestExactly(s: State, es: seq<Event>)
    requires LedgerInv(s) && LifeInv(s.ctl, s.tasks) && Orderly(s, es) && Honest(s)
    ensures Throughout(Honest, s, es) <==> Without(LosesSight, s, es)
    decreases |es|
  {
    if es != [] {
      SightLostExactly(s, es[0]);
      if Honest(Apply(s, es[0])) {
        LedgerStep(s, es[0]);
        LifeStep(s, es[0]);
        DrainHonestExactly(Apply(s, es[0]), es[1..]);
      }
    }
  }

  lemma {:induction false} HonestRun(s: State, es: seq<Event>, s': State)
    requires LedgerInv(s) && LifeInv(s.ctl, s.tasks) && Honest(s)
    requires Orderly(s, es) && Run(s, es, s') && Without(LosesSight, s, es)
    ensures Honest(s')
    decreases |es|
  {
    if es != [] {
      SightLostExactly(s, es[0]);
      LedgerStep(s, es[0]);
      LifeStep(s, es[0]);
      HonestRun(Apply(s, es[0]), es[1..], s');
    }
  }

  /** When `drain` returns true every accepted message is settled, unless such an event happened. */
  lemma DrainedMeansSettled(now: real, es: seq<Event>, s: State)
    requires Orderly(Initial(now), es) && Run(Initial(now), es, s) && Without(LosesSight, Initial(now), es)
    requires Drained(s)
    ensures s.hist.settled == s.hist.accepted
  {
    LedgerRun(Initial(now), es, s);
    HonestRun(Initial(now), es, s);
    HonestMeansSettled(s);
  }

  // ---------------------------------------------------------------- a run in which drain lies

  const DOOMED := Task(Doomed, LoopTop, None, None)

  /** A processor that found nothing to do sleeps. */
  lemma SampleIdle(now: real) returns (s: State)
    requires now > 0.0
    ensures Reachable(s) && s.tasks == [NEW_TASK.(pc := LoopTop)]
    ensures s.ctl == Control(true, false, false, Some(0), Some(0), [true], [], 0) && Blank(s, now)
  {
    StartsReachable(now);
    s := Next(Initial(now), Start(2.5, true));
    s := Next(s, LoopTest(0));
    assert s.tasks == [NEW_TASK.(pc := Fetch)];
    s := Next(s, Pop(0));
  }

  /** Then the queue is stopped, on an event loop that cannot be driven. */
  lemma SampleDoomed(now: real) returns (s: State)
    requires now > 0.0
    ensures Reachable(s) && s.tasks == [DOOMED] && Blank(s, now)
    ensures s.ctl == Control(false, true, false, Some(0), Some(0), [true], [Stop(Some(0), Some(0), true, false)], 0)
  {
    s := SampleIdle(now);
    s := Next(s, StopBegin);
    assert s.ctl.stops == [OPEN_STOP];
    s := Next(s, RunOut(0, false));
  }

  /** Cleaned up and started again. */
  lemma SampleSuccessor(now: real) returns (s: State)
    requires now > 0.0
    ensures Reachable(s) && s.tasks == [DOOMED, NEW_TASK] && Blank(s, now)
    ensures s.ctl == Control(true, false, false, Some(1), Some(1), [false, true], [DONE_STOP], 0)
  {
    s := SampleDoomed(now);
    s := Next(s, ExecutorDown(0));
    assert s.ctl == Control(false, true, false, Some(0), Some(0), [false], [DONE_STOP], 0);
    s := Next(s, Finalize(0));
    assert s.ctl == Control(false, false, false, None, None, [false], [DONE_STOP], 0);
    s := Next(s, Start(2.5, true));
  }

  /** The successor takes the message, the doomed coroutine is driven after all: `drain` sees nothing. */
  lemma DrainLies(now: real, m: Message) returns (s: State)
    requires now > 0.0
    ensures Reachable(s) && Drained(s) && s.hist.settled == [] && s.hist.accepted == [Ticket(0, m)]
  {
    s := SampleSuccessor(now);
    ReachableIsAttainable(s);
    s := Accept(s, m);
    s := TakeUp(s, 1);
    assert s.tasks[0] == DOOMED && s.queue == [];
    s := Next(s, CancelHits(0));
  }
}
