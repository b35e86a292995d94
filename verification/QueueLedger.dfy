/**
 Order and conservation of messages over whole runs, with concurrent producers and across
 restarts: what left the queue, what the processor holds and what still waits are together
 exactly what was accepted, in order.
 */
module QueueLedger {
  import opened Common
  import opened QueueModel
  import opened QueueLifecycle
  import opened QueueSamples

  function InHand(t: Task): seq<Ticket> { if t.held.Some? then [t.held.value] else [] }

  /** Where a coroutine has a message in hand and where not. */
  predicate HandOk(t: Task) {
    && (t.held.Some? ==> Live(t) && !t.pc.Created? && !t.pc.Fetch? && !t.pc.Mapping?)
    && (Live(t) && (t.pc.CheckReady? || t.pc.Pacing? || t.pc.Resting? || t.pc.FinalCheck? || t.pc.Sending? || t.pc.Backoff?)
        ==> t.held.Some?)
  }

  ghost predicate HandsOk(s: State) {
    forall i :: 0 <= i < |s.tasks| ==> HandOk(s.tasks[i])
  }

  /** Settled, in hand, waiting: nothing is lost, doubled or out of order. */
  ghost predicate Conserved(s: State) {
    && (forall i :: 0 <= i < |s.tasks| && Live(s.tasks[i]) ==>
          s.hist.settled + InHand(s.tasks[i]) + s.queue == s.hist.accepted)
    && ((forall i :: 0 <= i < |s.tasks| ==> !Live(s.tasks[i])) ==> s.hist.settled + s.queue == s.hist.accepted)
  }

  function Drops(fates: seq<Fate>): nat {
    if fates == [] then 0 else Drops(fates[..|fates| - 1]) + if fates[|fates| - 1].RequeueDropped? then 1 else 0
  }

  ghost predicate CountsOk(s: State) {
    && |s.hist.fates| == |s.hist.settled|
    && |s.queue| <= MAX_QUEUE_SIZE
    && s.dropped == s.hist.refused + Drops(s.hist.fates)
  }

  /** Tickets are numbered in the order of acceptance. */
  ghost predicate PlacesOk(h: History) {
    forall k :: 0 <= k < |h.accepted| ==> h.accepted[k].place == k
  }

  /** Every attempt was for an accepted message, none beyond the first unsettled one, and none goes back. */
  ghost predicate AttemptsOk(h: History) {
    && (forall a :: 0 <= a < |h.attempts| ==>
          h.attempts[a].place <= |h.settled| && h.attempts[a].place < |h.accepted|
          && h.accepted[h.attempts[a].place] == h.attempts[a])
    && (forall a, b :: 0 <= a < b < |h.attempts| ==> h.attempts[a].place <= h.attempts[b].place)
  }

  ghost predicate LedgerInv(s: State) {
    HandsOk(s) && Conserved(s) && CountsOk(s) && PlacesOk(s.hist) && AttemptsOk(s.hist)
  }

  // ---------------------------------------------------------------- steps of the coroutine

  lemma DropsMore(fates: seq<Fate>, f: Fate)
    ensures Drops(fates + [f]) == Drops(fates) + if f.RequeueDropped? then 1 else 0
  {
    assert (fates + [f])[..|fates|] == fates;
  }

  /** Only coroutine `i` is alive, so its hand is the only one. */
  ghost predicate Alone(s: State, i: nat) {
    i < |s.tasks| && Live(s.tasks[i]) && forall j :: 0 <= j < |s.tasks| && Live(s.tasks[j]) ==> j == i
  }

  lemma LiveIsAlone(s: State, i: nat)
    requires LifeInv(s.ctl, s.tasks) && i < |s.tasks| && Live(s.tasks[i])
    ensures Alone(s, i)
  {
  }

  /**
   What a step of the only live coroutine has to show: its own message, the queue and the
   ledger still add up.
   */
  ghost predicate StepAddsUp(s: State, s': State, i: nat) {
    && Touches(s, s', i) && HandOk(s'.tasks[i])
    && s'.hist.accepted == s.hist.accepted
    && s'.hist.settled + InHand(s'.tasks[i]) + s'.queue == s.hist.settled + InHand(s.tasks[i]) + s.queue
    && CountsOk(s') && AttemptsOk(s'.hist)
  }

  lemma AddsUpIsEnough(s: State, s': State, i: nat)
    requires LedgerInv(s) && Alone(s, i) && StepAddsUp(s, s', i)
    ensures LedgerInv(s')
  {
    forall j | 0 <= j < |s'.tasks| && j != i ensures s'.tasks[j] == s.tasks[j] && s'.tasks[j].held.None? && !Live(s'.tasks[j]) {
      assert HandOk(s.tasks[j]);
    }
    if !Live(s'.tasks[i]) {
      assert InHand(s'.tasks[i]) == [];
    }
  }

  lemma MoveAddsUp(s: State, i: nat, pc: Pc)
    requires LedgerInv(s) && Alone(s, i) && HandOk(s.tasks[i].(pc := pc))
    ensures StepAddsUp(s, Go(s, i, pc), i)
  {
  }

  lemma SettleAddsUp(s: State, s': State, i: nat, f: Fate)
    requires LedgerInv(s) && Alone(s, i) && s.tasks[i].held.Some? && Touches(s, s', i)
    requires s'.hist.settled == s.hist.settled + [s.tasks[i].held.value] && s'.hist.fates == s.hist.fates + [f]
    requires s'.hist.accepted == s.hist.accepted && s'.hist.attempts == s.hist.attempts && s'.hist.refused == s.hist.refused
    requires s'.queue == s.queue && s'.tasks[i].held.None? && HandOk(s'.tasks[i])
    requires s'.dropped == s.dropped + if f.RequeueDropped? then 1 else 0
    ensures StepAddsUp(s, s', i)
  {
    DropsMore(s.hist.fates, f);
    var m := s.tasks[i].held.value;
    assert s'.hist.settled + [] + s'.queue == s.hist.settled + [m] + s.queue;
  }

  lemma RequeueAddsUp(s: State, i: nat)
    requires LedgerInv(s) && Alone(s, i) && s.tasks[i].held.Some?
    ensures StepAddsUp(s, Requeue(s, i, s.tasks[i].held.value), i)
  {
    var m := s.tasks[i].held.value;
    var s' := Requeue(s, i, m);
    RequeueTouches(s, i, m);
    if |s.queue| >= MAX_QUEUE_SIZE {
      SettleAddsUp(s, s', i, RequeueDropped);
    } else {
      assert s'.hist.settled + [] + s'.queue == s.hist.settled + [m] + s.queue;
    }
  }

  lemma EndAddsUp(s: State, i: nat, status: Status, f: Fate)
    requires LedgerInv(s) && Alone(s, i) && !status.Active? && !status.Cancelling? && !f.RequeueDropped?
    ensures StepAddsUp(s, End(s, i, status, f), i)
  {
    EndTouches(s, i, status, f);
    if s.tasks[i].held.Some? { SettleAddsUp(s, End(s, i, status, f), i, f); }
  }

  lemma PopAddsUp(s: State, i: nat)
    requires LedgerInv(s) && Alone(s, i) && Enabled(s, Pop(i))
    ensures StepAddsUp(s, Apply(s, Pop(i)), i)
  {
    if s.queue == [] {
      MoveAddsUp(s, i, LoopTop);
    } else {
      var s' := Apply(s, Pop(i));
      assert s.queue == [s.queue[0]] + s.queue[1..];
      assert s'.hist.settled + [s.queue[0]] + s'.queue == s.hist.settled + [] + s.queue;
    }
  }

  /** What the only live coroutine holds is the first unsettled message. */
  lemma HeldIsNext(s: State, i: nat)
    requires LedgerInv(s) && Alone(s, i) && s.tasks[i].held.Some?
    ensures var m := s.tasks[i].held.value;
      |s.hist.settled| < |s.hist.accepted| && s.hist.accepted[|s.hist.settled|] == m && m.place == |s.hist.settled|
  {
    var h := s.hist;
    assert h.settled + InHand(s.tasks[i]) + s.queue == h.accepted;
    assert (h.settled + InHand(s.tasks[i]) + s.queue)[|h.settled|] == s.tasks[i].held.value;
  }

  /** The send function is called with that message. */
  lemma AttemptAddsUp(s: State, i: nat)
    requires LedgerInv(s) && Alone(s, i) && Enabled(s, Final(i, Ready))
    ensures StepAddsUp(s, Attempted(s, i), i)
  {
    HeldIsNext(s, i);
    var a, b := s.hist.attempts, Attempted(s, i).hist.attempts;
    assert forall k :: 0 <= k < |a| ==> b[k] == a[k];
  }

  lemma FinalAddsUp(s: State, i: nat, v: Verdict)
    requires LedgerInv(s) && Alone(s, i) && Enabled(s, Final(i, v))
    ensures StepAddsUp(s, Apply(s, Final(i, v)), i)
  {
    match v
    case Ready => AttemptAddsUp(s, i);
    case NotReady => RequeueAddsUp(s, i);
    case Raises => MoveAddsUp(s, i, Backoff);
  }

  lemma SendEndsAddsUp(s: State, i: nat, maps: bool)
    requires LedgerInv(s) && Alone(s, i) && Enabled(s, SendEnds(i, maps))
    ensures StepAddsUp(s, Apply(s, SendEnds(i, maps)), i)
  {
    SendEndedTouches(s, i, maps);
    var s' := Apply(s, SendEnds(i, maps));
    match s.tasks[i].pc.answer.value
    case ConnectionLost => RequeueAddsUp(s, i);
    case Rejected => SettleAddsUp(s, s', i, Error);
    case Delivered => SettleAddsUp(s, s', i, Sent);
    case Empty => SettleAddsUp(s, s', i, NoResult);
  }

  /** A cancellation ends the coroutine; what is beyond that does not touch the ledger. */
  lemma CancelEnds(s: State, i: nat, status: Status)
    requires i < |s.tasks|
    ensures var f := if Catches(s.tasks[i].pc) then Cancelled else Abandoned;
      var c, e := Cancel(s, i, status), End(s, i, status, f);
      c.ctl == e.ctl && c.tasks == e.tasks && c.queue == e.queue && c.dropped == e.dropped && SameLedger(e.hist, c.hist)
  {
  }

  lemma CancelAddsUp(s: State, i: nat)
    requires LedgerInv(s) && Alone(s, i)
    ensures StepAddsUp(s, Cancel(s, i, Finished), i)
  {
    CancelEnds(s, i, Finished);
    EndAddsUp(s, i, Finished, if Catches(s.tasks[i].pc) then Cancelled else Abandoned);
  }

  /** A coroutine that can no longer do anything else takes note of its cancellation. */
  lemma DoomedLedger(s: State, i: nat)
    requires LedgerInv(s) && i < |s.tasks| && s.tasks[i].status.Doomed?
    ensures LedgerInv(Apply(s, CancelHits(i)))
  {
    CancelEnds(s, i, Finished);
    assert HandOk(s.tasks[i]);
    var s' := Apply(s, CancelHits(i));
    IdleLedger(s, s.(tasks := s'.tasks), i);
    ControlLedger(s.(tasks := s'.tasks), s');
  }

  /** Nothing happens to the ledger when a coroutine that holds nothing and is not live changes. */
  lemma IdleLedger(s: State, s': State, i: nat)
    requires LedgerInv(s) && i < |s.tasks| && !Live(s.tasks[i]) && s' == s.(tasks := s'.tasks)
    requires |s'.tasks| == |s.tasks| && s'.tasks == s.tasks[i := s'.tasks[i]] && !Live(s'.tasks[i]) && s'.tasks[i].held.None?
    ensures LedgerInv(s')
  {
    forall j | 0 <= j < |s'.tasks| ensures HandOk(s'.tasks[j]) {
      if j != i { assert HandOk(s.tasks[j]); }
    }
    if forall j :: 0 <= j < |s'.tasks| ==> !Live(s'.tasks[j]) {
      assert forall j :: 0 <= j < |s.tasks| && j != i ==> s.tasks[j] == s'.tasks[j];
    }
  }

  lemma CoroutineLedger(s: State, e: Event)
    requires LedgerInv(s) && LifeInv(s.ctl, s.tasks) && Enabled(s, e) && IsCoroutineStep(e)
    ensures LedgerInv(Apply(s, e))
  {
    if e.CancelHits? && s.tasks[e.i].status.Doomed? {
      DoomedLedger(s, e.i);
    } else {
      LiveIsAlone(s, e.i);
      CoroutineAddsUp(s, e);
      AddsUpIsEnough(s, Apply(s, e), e.i);
    }
  }

  lemma AskedAddsUp(s: State, e: Event)
    requires LedgerInv(s) && Enabled(s, e) && (e.Check? || e.Wake? || e.Final?) && Alone(s, e.i)
    ensures StepAddsUp(s, Apply(s, e), e.i)
  {
    if e.Final? {
      FinalAddsUp(s, e.i, e.v);
    } else if e.v.Raises? {
      MoveAddsUp(s, e.i, Backoff);
    } else if e.Check? {
      MoveAddsUp(s, e.i, if e.v.Ready? then Pacing else LoopTop);
    } else if e.v.Ready? {
      MoveAddsUp(s, e.i, FinalCheck);
    } else {
      RequeueAddsUp(s, e.i);
    }
  }

  lemma CoroutineAddsUp(s: State, e: Event)
    requires LedgerInv(s) && Enabled(s, e) && IsCoroutineStep(e) && Alone(s, e.i)
    ensures StepAddsUp(s, Apply(s, e), e.i)
  {
    if e.Check? || e.Wake? || e.Final? {
      AskedAddsUp(s, e);
    } else if e.Pop? {
      PopAddsUp(s, e.i);
    } else if e.SendEnds? {
      SendEndsAddsUp(s, e.i, e.maps);
    } else if e.CancelHits? {
      CancelAddsUp(s, e.i);
    } else if e.LoopCloses? {
      EndAddsUp(s, e.i, Stranded, Abandoned);
    } else if e.LoopTest? && !s.ctl.running {
      EndAddsUp(s, e.i, Finished, Abandoned);
    } else {
      MovesAddUp(s, e);
    }
  }

  /** The steps that only move on. */
  lemma MovesAddUp(s: State, e: Event)
    requires (e.LoopTest? && s.ctl.running) || e.Pace? || e.Returns? || e.MappingEnds? || e.BackoffEnds? || e.CancelOutside?
    requires LedgerInv(s) && Enabled(s, e) && Alone(s, e.i)
    ensures StepAddsUp(s, Apply(s, e), e.i)
  {
    assert HandOk(s.tasks[e.i]);
    if e.LoopTest? {
      MoveAddsUp(s, e.i, if s.tasks[e.i].held.None? then Fetch else CheckReady);
    } else if e.Pace? {
      MoveAddsUp(s, e.i, Paced(s, e.i).tasks[e.i].pc);
    } else if e.Returns? {
      MoveAddsUp(s, e.i, s.tasks[e.i].pc.(answer := Some(e.r)));
    } else {
      MoveAddsUp(s, e.i, if e.CancelOutside? then s.tasks[e.i].pc else LoopTop);
    }
  }

  // ---------------------------------------------------------------- everything else

  /** An accepted message joins both the queue and the ledger at the end. */
  lemma AcceptLedger(s: State, m: Ticket)
    requires LedgerInv(s) && |s.queue| < MAX_QUEUE_SIZE && m.place == |s.hist.accepted|
    ensures LedgerInv(s.(queue := s.queue + [m], hist := s.hist.(accepted := s.hist.accepted + [m])))
  {
    forall i | 0 <= i < |s.tasks| && Live(s.tasks[i])
      ensures s.hist.settled + InHand(s.tasks[i]) + (s.queue + [m]) == s.hist.accepted + [m]
    {
      assert s.hist.settled + InHand(s.tasks[i]) + (s.queue + [m]) == (s.hist.settled + InHand(s.tasks[i]) + s.queue) + [m];
    }
    assert s.hist.settled + (s.queue + [m]) == (s.hist.settled + s.queue) + [m];
  }

  lemma OfferLedger(s: State, m: Message, first: bool, waits: bool)
    requires LedgerInv(s)
    ensures LedgerInv(Apply(s, Offer(m, first, waits)))
  {
    var cleared := if first then s.(ctl := Clear(s.ctl, s.tasks)) else s;
    ControlLedger(s, cleared);
    if |s.queue| < MAX_QUEUE_SIZE { AcceptLedger(cleared, Ticket(|s.hist.accepted|, m)); }
  }

  /** A new coroutine starts with empty hands, and only when no other is alive. */
  lemma NewTaskLedger(s: State, s': State)
    requires LedgerInv(s) && forall i :: 0 <= i < |s.tasks| ==> !Live(s.tasks[i])
    requires s'.tasks in [s.tasks, s.tasks + [NEW_TASK]]
    requires s'.queue == s.queue && s'.hist == s.hist && s'.dropped == s.dropped
    ensures LedgerInv(s')
  {
    forall i | 0 <= i < |s'.tasks| ensures HandOk(s'.tasks[i]) && s'.tasks[i].held.None? {
      if i < |s.tasks| { assert HandOk(s.tasks[i]); }
    }
    assert InHand(NEW_TASK) == [] && s.hist.settled + [] == s.hist.settled;
    assert |s'.tasks| > |s.tasks| ==> Live(s'.tasks[|s.tasks|]);
  }

  lemma StartLedger(s: State, delay: real, loop: bool)
    requires LedgerInv(s) && LifeInv(s.ctl, s.tasks)
    ensures LedgerInv(Apply(s, Start(delay, loop)))
  {
    ClearIsHarmless(s.ctl, s.tasks);
    if Starts(Clear(s.ctl, s.tasks)) { NewTaskLedger(s, Apply(s, Start(delay, loop))); }
  }

  lemma EnsureLedger(s: State, loop: bool)
    requires LedgerInv(s) && LifeInv(s.ctl, s.tasks)
    ensures LedgerInv(Apply(s, Ensure(loop)))
  {
    if Apply(s, Ensure(loop)).tasks != s.tasks { NewTaskLedger(s, Apply(s, Ensure(loop))); }
  }

  lemma RunOutLedger(s: State, k: nat, finished: bool)
    requires LedgerInv(s) && LifeInv(s.ctl, s.tasks) && Enabled(s, RunOut(k, finished))
    ensures LedgerInv(Apply(s, RunOut(k, finished)))
  {
    var i := s.ctl.stops[k].task.value;
    var s1 := RanOut(s, i, finished);
    if Live(s.tasks[i]) {
      LiveIsAlone(s, i);
      CancelAddsUp(s, i);
      EndAddsUp(s, i, Doomed, Abandoned);
      AddsUpIsEnough(s, s1, i);
    }
    ControlLedger(s1, Apply(s, RunOut(k, finished)));
  }

  /** The ledger without the record of completions and sends. */
  predicate SameLedger(h: History, h': History) {
    && h'.accepted == h.accepted && h'.settled == h.settled && h'.fates == h.fates && h'.refused == h.refused
    && h'.attempts == h.attempts
  }

  /** The life cycle, the flags and the clock are not part of the ledger. */
  lemma ControlLedger(s: State, s': State)
    requires LedgerInv(s) && s'.tasks == s.tasks && s'.queue == s.queue && SameLedger(s.hist, s'.hist)
    requires s'.dropped == s.dropped
    ensures LedgerInv(s')
  {
  }

  lemma CancelHandlerLedger(s: State, k: nat)
    requires LedgerInv(s) && LifeInv(s.ctl, s.tasks) && Enabled(s, CancelHandler(k))
    ensures LedgerInv(Apply(s, CancelHandler(k)))
  {
    var i := s.ctl.stops[k].task.value;
    var s' := Apply(s, CancelHandler(k));
    if s.tasks[i].status.Finished? {
      ControlLedger(s, s');
    } else {
      LiveIsAlone(s, i);
      MoveAddsUp(s, i, s.tasks[i].pc);
      AddsUpIsEnough(s, s', i);
    }
  }

  lemma LedgerStep(s: State, e: Event)
    requires LedgerInv(s) && LifeInv(s.ctl, s.tasks) && Enabled(s, e) && !Stale(s, e)
    ensures LedgerInv(Apply(s, e))
  {
    if IsCoroutineStep(e) {
      CoroutineLedger(s, e);
    } else if e.Offer? {
      OfferLedger(s, e.m, e.first, e.waits);
    } else if e.Start? {
      StartLedger(s, e.delay, e.loop);
    } else if e.Ensure? {
      EnsureLedger(s, e.loop);
    } else if e.CancelHandler? {
      CancelHandlerLedger(s, e.k);
    } else if e.RunOut? {
      RunOutLedger(s, e.k, e.finished);
    } else {
      ControlLedger(s, Apply(s, e));
    }
  }

  // ---------------------------------------------------------------- whole runs

  lemma {:induction false} LedgerRun(s: State, es: seq<Event>, s': State)
    requires LedgerInv(s) && LifeInv(s.ctl, s.tasks) && Orderly(s, es) && Run(s, es, s')
    ensures LedgerInv(s') && LifeInv(s'.ctl, s'.tasks)
    decreases |es|
  {
    if es != [] {
      LedgerStep(s, es[0]);
      LifeStep(s, es[0]);
      LedgerRun(Apply(s, es[0]), es[1..], s');
    }
  }

  /** What is in somebody's hand: at most one message. */
  ghost function Held(s: State): seq<Ticket> {
    if i :| 0 <= i < |s.tasks| && s.tasks[i].held.Some? then [s.tasks[i].held.value] else []
  }

  lemma HeldIsInHand(s: State)
    requires LedgerInv(s) && LifeInv(s.ctl, s.tasks)
    ensures s.hist.settled + Held(s) + s.queue == s.hist.accepted
  {
    if i :| 0 <= i < |s.tasks| && s.tasks[i].held.Some? {
      assert HandOk(s.tasks[i]);
      LiveIsAlone(s, i);
      HoldersAreAlone(s, i);
    } else {
      NobodyHolds(s);
    }
  }

  lemma HoldersAreAlone(s: State, i: nat)
    requires HandsOk(s) && Alone(s, i) && s.tasks[i].held.Some?
    ensures Held(s) == InHand(s.tasks[i])
  {
    forall j | 0 <= j < |s.tasks| && s.tasks[j].held.Some? ensures j == i { assert HandOk(s.tasks[j]); }
  }

  lemma NobodyHolds(s: State)
    requires Conserved(s) && forall i :: 0 <= i < |s.tasks| ==> s.tasks[i].held.None?
    ensures Held(s) == [] && s.hist.settled + s.queue == s.hist.accepted && s.hist.settled + [] == s.hist.settled
  {
    assert s.hist.settled + [] == s.hist.settled;
    if i :| 0 <= i < |s.tasks| && Live(s.tasks[i]) {
      assert InHand(s.tasks[i]) == [];
    }
  }

  /**
   At every moment of every run the settled messages, the one in hand and the waiting ones
   are the accepted sequence, in order. The bound is kept, and `dropped_messages` counts
   exactly the refused and the unreturnable messages.
   */
  lemma NothingLostOrReordered(now: real, es: seq<Event>, s: State)
    requires Orderly(Initial(now), es) && Run(Initial(now), es, s)
    ensures s.hist.settled + Held(s) + s.queue == s.hist.accepted
    ensures |s.queue| <= MAX_QUEUE_SIZE
    ensures |s.hist.fates| == |s.hist.settled| && s.dropped == s.hist.refused + Drops(s.hist.fates)
  {
    LedgerRun(Initial(now), es, s);
    HeldIsInHand(s);
  }

  /**
   Send functions are called in the accepted order: each attempt hands over an accepted
   message, and once a later one was tried, the earlier is settled and never tried again.
   */
  lemma AttemptsInOrder(now: real, es: seq<Event>, s: State, a: nat, b: nat)
    requires Orderly(Initial(now), es) && Run(Initial(now), es, s) && a < b < |s.hist.attempts|
    ensures var x, y := s.hist.attempts[a], s.hist.attempts[b];
      && x.place <= y.place < |s.hist.accepted| && s.hist.accepted[x.place] == x && s.hist.accepted[y.place] == y
      && (x != y ==> x.place < y.place && x.place < |s.hist.settled| && s.hist.settled[x.place] == x)
  {
    LedgerRun(Initial(now), es, s);
    HeldIsInHand(s);
    if s.hist.attempts[a].place < |s.hist.settled| { SettledFirst(s, s.hist.attempts[a]); }
  }

  lemma SettledFirst(s: State, m: Ticket)
    requires s.hist.settled + Held(s) + s.queue == s.hist.accepted && m.place < |s.hist.settled|
    ensures s.hist.settled[m.place] == s.hist.accepted[m.place]
  {
    assert s.hist.settled[m.place] == (s.hist.settled + Held(s) + s.queue)[m.place];
  }

  // ---------------------------------------------------------------- two processors

  const WAITING := Task(Active, LoopTop, None, None)

  /** A processor waits for the connection with the first of two messages when the queue is stopped. */
  lemma SampleWaiting(now: real, m: Message, n: Message) returns (s: State)
    requires now > 0.0
    ensures Attainable(s) && s.lastSend == 0.0 && s.delay == 2.5
    ensures s.ctl == Control(false, true, false, Some(1), Some(1), [false, true], [DONE_STOP, Stop(Some(1), Some(1), false, false)], 0)
    ensures s.tasks == [ENDED, WAITING.(held := Some(Ticket(0, m)))]
    ensures s.queue == [Ticket(1, n)] && s.hist == Accepting(Initial(now).hist, [Ticket(0, m), Ticket(1, n)])
  {
    s := SampleRestart(now, false);
    ReachableIsAttainable(s);
    s := Accept(s, m);
    s := Accept(s, n);
    s := TakeUp(s, 1);
    s := Follow(s, Check(1, NotReady));
    assert s.tasks == [ENDED, WAITING.(held := Some(Ticket(0, m)))];
    s := Follow(s, StopBegin);
  }

  /** A stale finalizer lets another processor start. */
  lemma SampleTwoProcessors(now: real, m: Message, n: Message) returns (s: State)
    requires now > 0.0
    ensures Attainable(s) && s.lastSend == 0.0 && s.delay == 2.5 && s.ctl.running && s.ctl.executor == Some(1)
    ensures s.tasks == [ENDED, WAITING.(held := Some(Ticket(0, m))), NEW_TASK]
    ensures s.queue == [Ticket(1, n)] && s.hist == Accepting(Initial(now).hist, [Ticket(0, m), Ticket(1, n)])
  {
    s := SampleWaiting(now, m, n);
    s := Follow(s, Finalize(0));
    assert s.ctl == Control(false, false, false, Some(1), Some(1), [false, true], [DONE_STOP, Stop(Some(1), Some(1), false, false)], 0);
    s := Follow(s, Start(2.5, true));
  }

  /** It sends the second message before the first one is sent: the order is broken. */
  lemma TwoProcessorsReorder(now: real, m: Message, n: Message) returns (s: State)
    requires now > 0.0
    ensures Attainable(s) && s.hist.accepted == [Ticket(0, m), Ticket(1, n)] && s.hist.attempts == [Ticket(1, n), Ticket(0, m)]
  {
    s := SampleTwoProcessors(now, m, n);
    s := TakeUp(s, 2);
    s := CallUp(s, 2);
    assert s.hist.attempts == [Ticket(1, n)] && s.tasks[1] == WAITING.(held := Some(Ticket(0, m)));
    s := Follow(s, LoopTest(1));
    s := CallUp(s, 1);
  }
}
