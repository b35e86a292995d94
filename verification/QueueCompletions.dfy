/**
 The sends that really took place, seen by the processor or not. A cancellation that meets a
 call in flight leaves the send function running in the pool; when it completes, nobody
 moves the mark of the rate limit. The distance between completions is then kept exactly as
 long as none follows such a lost one too early.
 */
module QueueCompletions {
  import opened Common
  import opened QueueModel
  import opened QueueLifecycle
  import opened QueueSamples
  import opened QueueLedger
  import opened QueueRate

  /** The message in place `p` is settled, and as sent. */
  predicate Known(fates: seq<Fate>, p: nat) { p < |fates| && (fates[p].Sent? || fates[p].NoResult?) }

  /** It is settled as anything else: cancelled or abandoned, although it may have been sent. */
  predicate Lost(fates: seq<Fate>, p: nat) { p < |fates| && !Known(fates, p) }

  /** Coroutine `t` is about to see that its send completed. */
  predicate Owing(t: Task) {
    Live(t) && t.held.Some? && t.pc.Sending? && t.pc.answer.Some? && Completes(t.pc.answer.value)
  }

  ghost predicate Owed(tasks: seq<Task>, place: nat) {
    exists i :: 0 <= i < |tasks| && Owing(tasks[i]) && tasks[i].held.value.place == place
  }

  /** It lies in the past, is behind the mark once known, and is owed until settled. */
  ghost predicate CompletionOk(s: State, c: Completion) {
    && 0.0 < c.time <= s.now
    && (Known(s.hist.fates, c.place) ==> c.time <= s.lastSend)
    && (c.place >= |s.hist.fates| ==> Owed(s.tasks, c.place))
  }

  ghost predicate CompletionsOk(s: State) {
    forall k :: 0 <= k < |s.hist.completions| ==> CompletionOk(s, s.hist.completions[k])
  }

  /** Forgotten calls run in open pools, for messages that are given up. */
  ghost predicate OrphansOk(s: State) {
    forall x :: x in s.orphans ==> IsOpen(s.ctl, x) && Lost(s.hist.fates, s.orphans[x])
  }

  /** Every completion keeps the distance to the one before it unless that one was lost. */
  ghost predicate SpacedAfterSeen(h: History, d: real) {
    forall k {:trigger h.completions[k]} :: 0 < k < |h.completions| && !Lost(h.fates, h.completions[k - 1].place) ==>
      h.completions[k - 1].time + d <= h.completions[k].time
  }

  /** The last completion, unless lost, is far enough away for another one. */
  ghost predicate Far(s: State, d: real) {
    var n := |s.hist.completions|;
    n > 0 && !Lost(s.hist.fates, s.hist.completions[n - 1].place) ==> s.hist.completions[n - 1].time + d <= s.now
  }

  ghost predicate CompInv(s: State, d: real) {
    && CompletionsOk(s) && OrphansOk(s) && SpacedAfterSeen(s.hist, d)
    && (s.orphans != map[] ==> Far(s, d))
  }

  ghost predicate QueueInv(s: State, d: real) {
    LifeInv(s.ctl, s.tasks) && LedgerInv(s) && PaceInv(s) && SpacingInv(s, d)
  }

  // ---------------------------------------------------------------- no completion

  /** Time passes, messages may be settled unseen; what is still open stays owed. */
  ghost predicate Later(s: State, s': State) {
    && s'.hist.completions == s.hist.completions && s'.lastSend == s.lastSend && s'.now >= s.now
    && s.hist.fates <= s'.hist.fates
    && forall k :: 0 <= k < |s.hist.completions| && s.hist.completions[k].place >= |s.hist.fates| ==>
         StillOpen(s', s.hist.completions[k].place)
  }

  ghost predicate StillOpen(s: State, p: nat) {
    if p < |s.hist.fates| then !Known(s.hist.fates, p) else Owed(s.tasks, p)
  }

  lemma LaterCompletions(s: State, s': State)
    requires CompletionsOk(s) && Later(s, s')
    ensures CompletionsOk(s')
  {
    forall k | 0 <= k < |s'.hist.completions| ensures CompletionOk(s', s'.hist.completions[k]) {
      assert CompletionOk(s, s.hist.completions[k]);
    }
  }

  lemma LaterSpaced(s: State, s': State, d: real)
    requires SpacedAfterSeen(s.hist, d)
    requires s'.hist.completions == s.hist.completions && s'.now >= s.now && s.hist.fates <= s'.hist.fates
    ensures SpacedAfterSeen(s'.hist, d) && (Far(s, d) ==> Far(s', d))
  {
    assert forall p: nat :: Lost(s.hist.fates, p) ==> Lost(s'.hist.fates, p);
  }

  /** The calls nobody waits for are the same, and their pools open. */
  ghost predicate SameOrphans(s: State, s': State) {
    && s'.orphans == s.orphans && s.hist.fates <= s'.hist.fates
    && forall x :: x in s.orphans && IsOpen(s.ctl, x) ==> IsOpen(s'.ctl, x)
  }

  lemma LaterComp(s: State, s': State, d: real)
    requires CompInv(s, d) && Later(s, s') && SameOrphans(s, s')
    ensures CompInv(s', d)
  {
    LaterCompletions(s, s');
    LaterSpaced(s, s', d);
  }

  /** Nothing is settled and whoever owes an answer goes on owing it. */
  ghost predicate Quiet(s: State, s': State) {
    && s'.hist.completions == s.hist.completions && s'.hist.fates == s.hist.fates
    && s'.lastSend == s.lastSend && s'.now >= s.now && |s'.tasks| >= |s.tasks|
    && forall i :: 0 <= i < |s.tasks| && Owing(s.tasks[i]) ==> Owing(s'.tasks[i]) && s'.tasks[i].held == s.tasks[i].held
  }

  lemma QuietIsLater(s: State, s': State)
    requires CompletionsOk(s) && Quiet(s, s')
    ensures Later(s, s')
  {
    forall k | 0 <= k < |s.hist.completions| && s.hist.completions[k].place >= |s.hist.fates|
      ensures Owed(s'.tasks, s.hist.completions[k].place)
    {
      assert CompletionOk(s, s.hist.completions[k]);
      var i :| 0 <= i < |s.tasks| && Owing(s.tasks[i]) && s.tasks[i].held.value.place == s.hist.completions[k].place;
      assert Owing(s'.tasks[i]);
    }
  }

  /** The only live coroutine settles its message otherwise than as sent. */
  ghost predicate SettlesUnseen(s: State, s': State, i: nat, f: Fate) {
    && Alone(s, i) && s.tasks[i].held.Some? && !f.Sent? && !f.NoResult?
    && s'.hist.completions == s.hist.completions && s'.hist.fates == s.hist.fates + [f]
    && s'.lastSend == s.lastSend && s'.now == s.now && s'.ctl == s.ctl
  }

  /** Nothing but the message in hand can be owed. */
  lemma OwedIsInHand(s: State, i: nat, p: nat)
    requires LedgerInv(s) && Alone(s, i) && s.tasks[i].held.Some? && Owed(s.tasks, p)
    ensures p == |s.hist.fates| && Owing(s.tasks[i])
  {
    HeldIsNext(s, i);
  }

  lemma UnseenIsLater(s: State, s': State, i: nat, f: Fate)
    requires CompletionsOk(s) && LedgerInv(s) && SettlesUnseen(s, s', i, f)
    ensures Later(s, s')
  {
    forall k | 0 <= k < |s.hist.completions| && s.hist.completions[k].place >= |s.hist.fates|
      ensures StillOpen(s', s.hist.completions[k].place)
    {
      assert CompletionOk(s, s.hist.completions[k]);
      OwedIsInHand(s, i, s.hist.completions[k].place);
    }
  }

  // ---------------------------------------------------------------- a coroutine goes away

  /** While a call is running, the last completion that was not lost lies far enough back. */
  lemma FarWhileCalling(s: State, i: nat, d: real)
    requires CompletionsOk(s) && LedgerInv(s) && PaceInv(s) && SpacingInv(s, d) && Alone(s, i) && s.tasks[i].held.Some?
    requires s.tasks[i].pc.Sending? && s.tasks[i].pc.answer.None?
    ensures Far(s, d)
  {
    assert PaceOk(s, s.tasks[i]);
    if s.hist.completions != [] {
      var c := s.hist.completions[|s.hist.completions| - 1];
      assert CompletionOk(s, c);
    }
  }

  /** A running call becomes an orphan: its message has waited, so the next completion keeps the distance. */
  lemma OrphanComp(s: State, s': State, i: nat, f: Fate, x: nat, d: real)
    requires CompInv(s, d) && QueueInv(s, d) && SettlesUnseen(s, s', i, f)
    requires Calls(s.tasks[i], x) && IsOpen(s.ctl, x) && s'.orphans == s.orphans[x := s.tasks[i].held.value.place]
    ensures CompInv(s', d)
  {
    UnseenIsLater(s, s', i, f);
    LaterCompletions(s, s');
    FarWhileCalling(s, i, d);
    LaterSpaced(s, s', d);
    HeldIsNext(s, i);
    assert Lost(s'.hist.fates, s.tasks[i].held.value.place);
  }

  lemma EndComp(s: State, i: nat, status: Status, f: Fate, d: real)
    requires CompInv(s, d) && QueueInv(s, d) && Alone(s, i) && !f.Sent? && !f.NoResult?
    requires !status.Active? && !status.Cancelling?
    ensures CompInv(End(s, i, status, f), d)
  {
    EndTouches(s, i, status, f);
    var t, s' := s.tasks[i], End(s, i, status, f);
    if t.held.None? {
      QuietIsLater(s, s');
      LaterComp(s, s', d);
    } else if s'.orphans == s.orphans {
      UnseenIsLater(s, s', i, f);
      LaterComp(s, s', d);
    } else {
      OrphanComp(s, s', i, f, t.pc.pool.value, d);
    }
  }

  /** What a cancellation does beyond ending the coroutine does not matter here. */
  lemma CancelLeaves(s: State, i: nat)
    requires i < |s.tasks|
    ensures var f := if Catches(s.tasks[i].pc) then Cancelled else Abandoned;
      var c, e := Cancel(s, i, Finished), End(s, i, Finished, f);
      c.orphans == e.orphans && c.hist.completions == e.hist.completions && c.lastSend == e.lastSend && c.now == e.now
  {
  }

  lemma CancelComp(s: State, i: nat, d: real)
    requires CompInv(s, d) && QueueInv(s, d) && Alone(s, i)
    ensures CompInv(Cancel(s, i, Finished), d)
  {
    var f := if Catches(s.tasks[i].pc) then Cancelled else Abandoned;
    EndComp(s, i, Finished, f, d);
    CancelEnds(s, i, Finished);
    CancelLeaves(s, i);
    SameComp(End(s, i, Finished, f), Cancel(s, i, Finished), d);
  }

  /** Flags, records, queue and life cycle apart, the state is the same. */
  lemma SameComp(s: State, s': State, d: real)
    requires CompInv(s, d) && s'.tasks == s.tasks && s'.orphans == s.orphans && s'.ctl.pools == s.ctl.pools
    requires s'.hist.completions == s.hist.completions && s'.hist.fates == s.hist.fates
    requires s'.lastSend == s.lastSend && s'.now == s.now
    ensures CompInv(s', d)
  {
    QuietIsLater(s, s');
    LaterComp(s, s', d);
  }

  lemma IdleEnd(s: State, i: nat, status: Status, f: Fate)
    requires i < |s.tasks| && !Live(s.tasks[i]) && s.tasks[i].held.None?
    ensures var e := End(s, i, status, f);
      e == s.(tasks := e.tasks) && |e.tasks| == |s.tasks| && forall j :: 0 <= j < |s.tasks| && j != i ==> e.tasks[j] == s.tasks[j]
  {
  }

  /** A doomed coroutine takes note of its cancellation. */
  lemma DoomedComp(s: State, i: nat, d: real)
    requires CompInv(s, d) && LedgerInv(s) && i < |s.tasks| && s.tasks[i].status.Doomed?
    ensures CompInv(Cancel(s, i, Finished), d)
  {
    assert HandOk(s.tasks[i]);
    var f := if Catches(s.tasks[i].pc) then Cancelled else Abandoned;
    var ended := End(s, i, Finished, f);
    IdleEnd(s, i, Finished, f);
    QuietIsLater(s, ended);
    LaterComp(s, ended, d);
    CancelEnds(s, i, Finished);
    CancelLeaves(s, i);
    SameComp(ended, Cancel(s, i, Finished), d);
  }

  lemma RequeueComp(s: State, i: nat, d: real)
    requires CompInv(s, d) && QueueInv(s, d) && Alone(s, i) && s.tasks[i].held.Some? && !Owing(s.tasks[i])
    ensures CompInv(Requeue(s, i, s.tasks[i].held.value), d)
  {
    var s' := Requeue(s, i, s.tasks[i].held.value);
    RequeueTouches(s, i, s.tasks[i].held.value);
    if |s.queue| >= MAX_QUEUE_SIZE { UnseenIsLater(s, s', i, RequeueDropped); } else { QuietIsLater(s, s'); }
    LaterComp(s, s', d);
  }

  // ---------------------------------------------------------------- completions

  lemma FarEnough(s: State, s': State, c: Completion, d: real)
    requires SpacedAfterSeen(s.hist, d) && Far(s, d) && c.time == s.now
    requires s'.hist.completions == s.hist.completions + [c] && s'.hist.fates == s.hist.fates
    ensures SpacedAfterSeen(s'.hist, d)
  {
  }

  /** A send function returns to a waiting coroutine. */
  lemma ReturnsComp(s: State, i: nat, r: SendResult, d: real)
    requires CompInv(s, d) && QueueInv(s, d) && Enabled(s, Returns(i, r)) && Completes(r)
    ensures CompInv(Returned(s, i, r), d)
  {
    LiveIsAlone(s, i);
    HeldIsNext(s, i);
    FarWhileCalling(s, i, d);
    var s', place := Returned(s, i, r), s.tasks[i].held.value.place;
    var c := Completion(place, s.now);
    FarEnough(s, s', c, d);
    NoOrphanBeside(s, i, r);
    assert Owing(s'.tasks[i]) && s'.tasks[i].held.value.place == place;
    var told := Go(s, i, s'.tasks[i].pc);
    QuietIsLater(s, told);
    LaterCompletions(s, told);
    AddedOk(told, s', c);
  }

  lemma OneOpenPool(c: Control, tasks: seq<Task>, x: nat)
    requires LifeInv(c, tasks) && IsOpen(c, x)
    ensures forall y: nat :: IsOpen(c, y) ==> y == x
  {
  }

  /** The call runs in the one open pool, so nothing else does. */
  lemma NoOrphanBeside(s: State, i: nat, r: SendResult)
    requires OrphansOk(s) && LifeInv(s.ctl, s.tasks) && Enabled(s, Returns(i, r)) && Completes(r)
    ensures s.orphans == map[]
  {
    OneOpenPool(s.ctl, s.tasks, s.tasks[i].pc.pool.value);
  }

  lemma AddedOk(s: State, s': State, c: Completion)
    requires CompletionsOk(s) && CompletionOk(s, c) && s' == s.(hist := s.hist.(completions := s.hist.completions + [c]))
    ensures CompletionsOk(s')
  {
    forall k | 0 <= k < |s'.hist.completions| ensures CompletionOk(s', s'.hist.completions[k]) {
      assert CompletionOk(s, s'.hist.completions[k]);
    }
  }

  /** A forgotten call returns; its message was given up. */
  lemma OrphanReturnsComp(s: State, x: nat, completed: bool, d: real)
    requires CompInv(s, d) && PaceInv(s) && x in s.orphans
    ensures CompInv(OrphanReturned(s, x, completed), d)
  {
    var free := s.(orphans := s.orphans - {x});
    assert CompletionsOk(free) by { QuietIsLater(s, free); LaterCompletions(s, free); }
    if completed {
      var c := Completion(s.orphans[x], s.now);
      FarEnough(s, OrphanReturned(s, x, true), c, d);
      AddedOk(free, OrphanReturned(s, x, true), c);
    }
  }

  lemma SeenState(s: State, i: nat, maps: bool)
    requires Enabled(s, SendEnds(i, maps)) && Sees(s, SendEnds(i, maps))
    ensures var s' := SendEnded(s, i, maps);
      && s'.lastSend == s'.now == s.now && s'.orphans == s.orphans && s'.ctl == s.ctl
      && s'.hist.completions == s.hist.completions
      && s'.hist.fates == s.hist.fates + [if s.tasks[i].pc.answer == Some(Empty) then NoResult else Sent]
  {
  }

  /** The processor sees its send completed: the mark moves up to now. */
  lemma SeenComp(s: State, s': State, i: nat, f: Fate, d: real)
    requires CompInv(s, d) && LedgerInv(s) && Alone(s, i) && s.tasks[i].held.Some?
    requires s'.lastSend == s'.now == s.now && s'.orphans == s.orphans && s'.ctl == s.ctl
    requires s'.hist.completions == s.hist.completions && s'.hist.fates == s.hist.fates + [f] && (f.Sent? || f.NoResult?)
    ensures CompInv(s', d)
  {
    forall k | 0 <= k < |s.hist.completions| ensures CompletionOk(s', s.hist.completions[k]) {
      SeenOne(s, s', i, s.hist.completions[k]);
    }
    LaterSpaced(s, s', d);
  }

  lemma SeenOne(s: State, s': State, i: nat, c: Completion)
    requires LedgerInv(s) && Alone(s, i) && s.tasks[i].held.Some? && CompletionOk(s, c)
    requires s'.lastSend == s'.now == s.now && |s'.hist.fates| == |s.hist.fates| + 1
    ensures CompletionOk(s', c)
  {
    if c.place >= |s.hist.fates| { OwedIsInHand(s, i, c.place); }
  }

  // ---------------------------------------------------------------- every event

  /** The steps of a coroutine that neither settle nor complete anything. */
  lemma MoveComp(s: State, s': State, i: nat, d: real)
    requires CompInv(s, d) && Touches(s, s', i) && s'.orphans == s.orphans
    requires s'.hist.completions == s.hist.completions && s'.hist.fates == s.hist.fates
    requires s'.lastSend == s.lastSend && s'.now == s.now
    requires Owing(s.tasks[i]) ==> Owing(s'.tasks[i]) && s'.tasks[i].held == s.tasks[i].held
    ensures CompInv(s', d)
  {
    forall j | 0 <= j < |s.tasks| && Owing(s.tasks[j]) ensures Owing(s'.tasks[j]) && s'.tasks[j].held == s.tasks[j].held {
      if j != i { assert s'.tasks[j] == s.tasks[j]; }
    }
    QuietIsLater(s, s');
    LaterComp(s, s', d);
  }

  lemma SendEndsComp(s: State, i: nat, maps: bool, d: real)
    requires CompInv(s, d) && QueueInv(s, d) && Enabled(s, SendEnds(i, maps))
    ensures CompInv(SendEnded(s, i, maps), d)
  {
    LiveIsAlone(s, i);
    var s' := SendEnded(s, i, maps);
    if Sees(s, SendEnds(i, maps)) {
      SeenState(s, i, maps);
      SeenComp(s, s', i, if s.tasks[i].pc.answer == Some(Empty) then NoResult else Sent, d);
    } else if s.tasks[i].pc.answer == Some(ConnectionLost) {
      RequeueComp(s, i, d);
      SameComp(Requeue(s, i, s.tasks[i].held.value), s', d);
    } else {
      SendEndedTouches(s, i, maps);
      UnseenIsLater(s, s', i, Error);
      LaterComp(s, s', d);
    }
  }

  /** The steps that only move on. */
  predicate Moves(s: State, e: Event)
    requires Enabled(s, e)
  {
    || (e.LoopTest? && s.ctl.running) || e.Pop? || e.Check? || e.Pace? || e.MappingEnds? || e.BackoffEnds? || e.CancelOutside?
    || ((e.Wake? || e.Final?) && !e.v.NotReady?) || (e.Returns? && !Completes(e.r))
  }

  lemma MoveFacts(s: State, e: Event)
    requires Enabled(s, e) && Moves(s, e)
    ensures var s' := Apply(s, e);
      && s'.orphans == s.orphans && s'.hist.completions == s.hist.completions && s'.hist.fates == s.hist.fates
      && s'.lastSend == s.lastSend && s'.now == s.now
  {
  }

  lemma MoveOwes(s: State, e: Event)
    requires Enabled(s, e) && Moves(s, e)
    ensures |Apply(s, e).tasks| == |s.tasks|
    ensures Owing(s.tasks[e.i]) ==> Owing(Apply(s, e).tasks[e.i]) && Apply(s, e).tasks[e.i].held == s.tasks[e.i].held
  {
  }

  lemma CoroutineComp(s: State, e: Event, d: real)
    requires CompInv(s, d) && QueueInv(s, d) && Enabled(s, e) && IsCoroutineStep(e)
    ensures CompInv(Apply(s, e), d)
  {
    if e.CancelHits? && s.tasks[e.i].status.Doomed? {
      DoomedComp(s, e.i, d);
    } else {
      LiveIsAlone(s, e.i);
      if e.CancelHits? {
        CancelComp(s, e.i, d);
      } else if e.SendEnds? {
        SendEndsComp(s, e.i, e.maps, d);
      } else if Moves(s, e) {
        CoroutineTouches(s, e);
        MoveFacts(s, e);
        MoveOwes(s, e);
        MoveComp(s, Apply(s, e), e.i, d);
      } else if e.Returns? {
        ReturnsComp(s, e.i, e.r, d);
      } else if e.LoopCloses? {
        EndComp(s, e.i, Stranded, Abandoned, d);
      } else if e.LoopTest? {
        EndComp(s, e.i, Finished, Abandoned, d);
      } else {
        RequeueComp(s, e.i, d);
      }
    }
  }

  lemma RanOutComp(s: State, i: nat, finished: bool, d: real)
    requires CompInv(s, d) && QueueInv(s, d) && i < |s.tasks| && (Live(s.tasks[i]) || s.tasks[i].status.Finished?)
    ensures CompInv(RanOut(s, i, finished), d)
  {
    if Live(s.tasks[i]) {
      LiveIsAlone(s, i);
      if finished { CancelComp(s, i, d); } else { EndComp(s, i, Doomed, Abandoned, d); }
    }
  }

  lemma RunOutComp(s: State, k: nat, finished: bool, d: real)
    requires CompInv(s, d) && QueueInv(s, d) && Enabled(s, RunOut(k, finished))
    ensures CompInv(Apply(s, RunOut(k, finished)), d)
  {
    var i := s.ctl.stops[k].task.value;
    RanOutComp(s, i, finished, d);
    RanOutIsCalm(s, i, finished);
    SameComp(RanOut(s, i, finished), Apply(s, RunOut(k, finished)), d);
  }

  /** Producers, the clock and the life cycle. */
  predicate IsRest(e: Event) { !IsCoroutineStep(e) && !e.RunOut? && !e.OrphanReturns? }

  lemma RestFacts(s: State, e: Event)
    requires Enabled(s, e) && IsRest(e)
    ensures var s' := Apply(s, e);
      s'.orphans == s.orphans && s'.hist.completions == s.hist.completions && s'.hist.fates == s.hist.fates
  {
    if IsControl(e) { ControlStands(s, e); }
  }

  lemma RestClock(s: State, e: Event)
    requires Enabled(s, e) && IsRest(e)
    ensures Apply(s, e).lastSend == s.lastSend && Apply(s, e).now >= s.now
  {
  }

  lemma RestTasks(s: State, e: Event)
    requires Enabled(s, e) && IsRest(e)
    ensures var s' := Apply(s, e);
      && |s'.tasks| >= |s.tasks|
      && forall i :: 0 <= i < |s.tasks| && Owing(s.tasks[i]) ==> Owing(s'.tasks[i]) && s'.tasks[i].held == s.tasks[i].held
  {
  }

  /** A pool that is at work is not closed. */
  lemma RestPools(s: State, e: Event)
    requires Enabled(s, e) && IsRest(e)
    ensures forall x :: x in s.orphans && IsOpen(s.ctl, x) ==> IsOpen(Apply(s, e).ctl, x)
  {
  }

  /** Everything else leaves completions and fates alone. */
  lemma RestComp(s: State, e: Event, d: real)
    requires CompInv(s, d) && Enabled(s, e) && IsRest(e)
    ensures CompInv(Apply(s, e), d)
  {
    RestFacts(s, e);
    RestClock(s, e);
    RestTasks(s, e);
    RestPools(s, e);
    QuietIsLater(s, Apply(s, e));
    LaterComp(s, Apply(s, e), d);
  }

  lemma CompStep(s: State, e: Event, d: real)
    requires CompInv(s, d) && QueueInv(s, d) && Enabled(s, e)
    ensures CompInv(Apply(s, e), d)
  {
    if IsCoroutineStep(e) {
      CoroutineComp(s, e, d);
    } else if e.RunOut? {
      RunOutComp(s, e.k, e.finished, d);
    } else if e.OrphanReturns? {
      OrphanReturnsComp(s, e.pool, e.completed, d);
    } else {
      RestComp(s, e, d);
    }
  }

  // ---------------------------------------------------------------- whole runs

  lemma {:induction false} CompRun(s: State, es: seq<Event>, s': State, d: real)
    requires CompInv(s, d) && QueueInv(s, d)
    requires Orderly(s, es) && Run(s, es, s') && DelaysAtLeast(es, d)
    ensures CompInv(s', d) && QueueInv(s', d)
    decreases |es|
  {
    if es != [] {
      CompStep(s, es[0], d);
      LifeStep(s, es[0]);
      LedgerStep(s, es[0]);
      PaceStep(s, es[0]);
      SpacingStep(s, es[0], d);
      CompRun(Apply(s, es[0]), es[1..], s', d);
    }
  }

  /** All completed sends are at least `d` apart. */
  ghost predicate AllSpaced(h: History, d: real) {
    forall k {:trigger h.completions[k]} :: 0 < k < |h.completions| ==> h.completions[k - 1].time + d <= h.completions[k].time
  }

  /** No completed send follows a lost one, a message cancelled or abandoned in flight, too early. */
  ghost predicate NoneTooEarly(h: History, d: real) {
    forall k {:trigger h.completions[k]} :: 0 < k < |h.completions| && Lost(h.fates, h.completions[k - 1].place) ==>
      h.completions[k - 1].time + d <= h.completions[k].time
  }

  lemma SpacedRun(s: State, es: seq<Event>, s': State, d: real)
    requires CompInv(s, d) && QueueInv(s, d)
    requires Orderly(s, es) && Run(s, es, s') && DelaysAtLeast(es, d)
    ensures SpacedAfterSeen(s'.hist, d)
  {
    CompRun(s, es, s', d);
  }

  lemma SplitSpacing(h: History, d: real)
    requires SpacedAfterSeen(h, d)
    ensures AllSpaced(h, d) <==> NoneTooEarly(h, d)
  {
  }

  lemma InitialQueue(now: real, d: real)
    requires now > 0.0
    ensures QueueInv(Initial(now), d)
  {
  }

  lemma InitialComp(now: real, d: real)
    requires now > 0.0
    ensures CompInv(Initial(now), d) && NoneLost(Initial(now))
  {
  }

  /**
   With every start asking for at least `d`, all sends that took place are `d` apart if and
   only if none follows one of a message that was given up in flight within `d`.
   */
  lemma CompletionsSpacedExactly(now: real, es: seq<Event>, s: State, d: real)
    requires now > 0.0 && Orderly(Initial(now), es) && Run(Initial(now), es, s) && DelaysAtLeast(es, d)
    ensures AllSpaced(s.hist, d) <==> NoneTooEarly(s.hist, d)
  {
    InitialQueue(now, d);
    InitialComp(now, d);
    SpacedRun(Initial(now), es, s, d);
    SplitSpacing(s.hist, d);
  }

  // ---------------------------------------------------------------- when nothing is lost

  /** A coroutine goes away, or is given up, with its send function called and not seen back. */
  predicate EndsCall(s: State, e: Event) {
    || ((e.CancelHits? || e.LoopCloses?) && e.i < |s.tasks| && Live(s.tasks[e.i]) && s.tasks[e.i].pc.Sending?)
    || (e.RunOut? && Awaits(s, e.k) && Live(StoppedTask(s, e.k)) && StoppedTask(s, e.k).pc.Sending?)
  }

  /** No send completed for a message that was given up, and none will. */
  ghost predicate NoneLost(s: State) {
    && s.orphans == map[]
    && forall k :: 0 <= k < |s.hist.completions| ==> !Lost(s.hist.fates, s.hist.completions[k].place)
  }

  /** A message without an answer on the way is settled: no completion is concerned. */
  lemma UnseenUnlost(s: State, s': State, i: nat, f: Fate)
    requires CompletionsOk(s) && LedgerInv(s) && SettlesUnseen(s, s', i, f) && !Owing(s.tasks[i])
    requires NoneLost(s) && s'.orphans == map[]
    ensures NoneLost(s')
  {
    forall k | 0 <= k < |s.hist.completions| ensures !Lost(s'.hist.fates, s.hist.completions[k].place) {
      assert CompletionOk(s, s.hist.completions[k]);
      if s.hist.completions[k].place >= |s.hist.fates| { OwedIsInHand(s, i, s.hist.completions[k].place); }
    }
  }

  lemma EndUnlost(s: State, i: nat, status: Status, f: Fate)
    requires CompletionsOk(s) && LedgerInv(s) && Alone(s, i) && NoneLost(s) && !s.tasks[i].pc.Sending?
    requires !f.Sent? && !f.NoResult? && !status.Active? && !status.Cancelling?
    ensures NoneLost(End(s, i, status, f))
  {
    if s.tasks[i].held.Some? { UnseenUnlost(s, End(s, i, status, f), i, f); }
  }

  lemma CancelUnlost(s: State, i: nat)
    requires CompletionsOk(s) && LedgerInv(s) && NoneLost(s) && i < |s.tasks|
    requires (Alone(s, i) && !s.tasks[i].pc.Sending?) || (!Live(s.tasks[i]) && s.tasks[i].held.None?)
    ensures NoneLost(Cancel(s, i, Finished))
  {
    var f := if Catches(s.tasks[i].pc) then Cancelled else Abandoned;
    if Live(s.tasks[i]) { EndUnlost(s, i, Finished, f); } else { IdleEnd(s, i, Finished, f); }
    CancelEnds(s, i, Finished);
    CancelLeaves(s, i);
  }

  lemma RequeueUnlost(s: State, i: nat)
    requires CompletionsOk(s) && LedgerInv(s) && NoneLost(s) && Alone(s, i) && s.tasks[i].held.Some? && !Owing(s.tasks[i])
    ensures NoneLost(Requeue(s, i, s.tasks[i].held.value))
  {
    if |s.queue| >= MAX_QUEUE_SIZE { UnseenUnlost(s, Requeue(s, i, s.tasks[i].held.value), i, RequeueDropped); }
  }

  lemma SendEndsUnlost(s: State, i: nat, maps: bool)
    requires CompletionsOk(s) && LedgerInv(s) && NoneLost(s) && Alone(s, i) && Enabled(s, SendEnds(i, maps))
    ensures NoneLost(SendEnded(s, i, maps))
  {
    if Sees(s, SendEnds(i, maps)) {
      SeenState(s, i, maps);
    } else if s.tasks[i].pc.answer == Some(ConnectionLost) {
      RequeueUnlost(s, i);
    } else {
      UnseenUnlost(s, SendEnded(s, i, maps), i, Error);
    }
  }

  lemma CoroutineUnlost(s: State, e: Event)
    requires CompletionsOk(s) && LifeInv(s.ctl, s.tasks) && LedgerInv(s) && NoneLost(s)
    requires Enabled(s, e) && IsCoroutineStep(e) && !EndsCall(s, e)
    ensures NoneLost(Apply(s, e))
  {
    if e.CancelHits? {
      assert HandOk(s.tasks[e.i]);
      if Live(s.tasks[e.i]) { LiveIsAlone(s, e.i); }
      CancelUnlost(s, e.i);
    } else {
      LiveIsAlone(s, e.i);
      if e.SendEnds? {
        SendEndsUnlost(s, e.i, e.maps);
      } else if Moves(s, e) {
        MoveFacts(s, e);
      } else if e.Returns? {
        HeldIsNext(s, e.i);
      } else if e.LoopCloses? {
        EndUnlost(s, e.i, Stranded, Abandoned);
      } else if e.LoopTest? {
        EndUnlost(s, e.i, Finished, Abandoned);
      } else {
        RequeueUnlost(s, e.i);
      }
    }
  }

  lemma UnlostStep(s: State, e: Event)
    requires CompletionsOk(s) && LifeInv(s.ctl, s.tasks) && LedgerInv(s) && NoneLost(s) && Enabled(s, e) && !EndsCall(s, e)
    ensures NoneLost(Apply(s, e))
  {
    if IsCoroutineStep(e) {
      CoroutineUnlost(s, e);
    } else if e.RunOut? {
      var i := s.ctl.stops[e.k].task.value;
      if Live(s.tasks[i]) {
        LiveIsAlone(s, i);
        if e.finished { CancelUnlost(s, i); } else { EndUnlost(s, i, Doomed, Abandoned); }
      }
    } else if IsRest(e) {
      RestFacts(s, e);
    }
  }

  lemma {:induction false} UnlostRun(s: State, es: seq<Event>, s': State, d: real)
    requires CompInv(s, d) && QueueInv(s, d) && NoneLost(s)
    requires Orderly(s, es) && Run(s, es, s') && DelaysAtLeast(es, d) && Without(EndsCall, s, es)
    ensures NoneLost(s')
    decreases |es|
  {
    if es != [] {
      UnlostStep(s, es[0]);
      CompRun(s, es[..1], Apply(s, es[0]), d);
      UnlostRun(Apply(s, es[0]), es[1..], s', d);
    }
  }

  lemma UnlostSpaced(s: State, d: real)
    requires NoneLost(s) && (AllSpaced(s.hist, d) <==> NoneTooEarly(s.hist, d))
    ensures AllSpaced(s.hist, d)
  {
  }

  /** So as long as no coroutine goes away during a call, all sends that took place are `d` apart. */
  lemma UndisturbedCallsAreSpaced(now: real, es: seq<Event>, s: State, d: real)
    requires now > 0.0 && Orderly(Initial(now), es) && Run(Initial(now), es, s) && DelaysAtLeast(es, d)
    requires Without(EndsCall, Initial(now), es)
    ensures AllSpaced(s.hist, d)
  {
    InitialQueue(now, d);
    InitialComp(now, d);
    UnlostRun(Initial(now), es, s, d);
    CompletionsSpacedExactly(now, es, s, d);
    UnlostSpaced(s, d);
  }

  // ---------------------------------------------------------------- a restart sends too early

  /** Stopped during a call, with the cancellation on its way. */
  lemma SampleCancelling(now: real, m: Message, n: Message) returns (s: State)
    requires now > 0.0
    ensures Reachable(s) && Attainable(s)
    ensures s.ctl == Control(false, true, false, Some(0), Some(0), [true], [OPEN_STOP], 0)
    ensures s.tasks == [Task(Cancelling, CALLING, Some(Ticket(0, m)), None)] && s.queue == [Ticket(1, n)] && s.orphans == map[]
    ensures s.hist.completions == [] && s.hist.fates == [] && s.now == now && s.lastSend == 0.0
  {
    s := SampleCalling(now, m, n);
    s := Follow(s, StopBegin);
    s := Follow(s, CancelHandler(0));
  }

  /** The message is given up, the send function runs on. */
  lemma SampleOrphan(now: real, m: Message, n: Message) returns (s: State)
    requires now > 0.0
    ensures Reachable(s) && Attainable(s)
    ensures s.ctl == Control(false, true, false, Some(0), Some(0), [true], [OPEN_STOP], 0)
    ensures s.tasks == [Task(Finished, CALLING, None, None)] && s.queue == [Ticket(1, n)] && s.orphans == map[0 := 0]
    ensures s.hist.completions == [] && s.hist.fates == [Cancelled] && s.now == now && s.lastSend == 0.0
  {
    s := SampleCancelling(now, m, n);
    s := Follow(s, CancelHits(0));
  }

  /** It completes unseen. */
  lemma SampleUnseen(now: real, m: Message, n: Message) returns (s: State)
    requires now > 0.0
    ensures Reachable(s) && Attainable(s)
    ensures s.ctl == Control(false, true, false, Some(0), Some(0), [true], [Stop(Some(0), Some(0), true, false)], 0)
    ensures s.tasks == [Task(Finished, CALLING, None, None)] && s.queue == [Ticket(1, n)] && s.orphans == map[]
    ensures s.hist.completions == [Completion(0, now)] && s.hist.fates == [Cancelled] && s.now == now && s.lastSend == 0.0
  {
    s := SampleOrphan(now, m, n);
    s := Follow(s, OrphanReturns(0, true));
    s := Follow(s, DoneCallback(0));
  }

  /** The cleanup ends. */
  lemma SampleCleaned(now: real, m: Message, n: Message) returns (s: State)
    requires now > 0.0
    ensures Reachable(s) && Attainable(s)
    ensures s.ctl == Control(false, false, false, None, None, [false], [DONE_STOP], 0)
    ensures s.tasks == [Task(Finished, CALLING, None, None)] && s.queue == [Ticket(1, n)] && s.orphans == map[]
    ensures s.hist.completions == [Completion(0, now)] && s.hist.fates == [Cancelled] && s.now == now && s.lastSend == 0.0
  {
    s := SampleUnseen(now, m, n);
    s := Follow(s, ExecutorDown(0));
    assert s.ctl == Control(false, true, false, Some(0), Some(0), [false], [DONE_STOP], 0);
    s := Follow(s, Finalize(0));
  }

  /** And the queue is started again. */
  lemma SampleRestarted(now: real, m: Message, n: Message) returns (s: State)
    requires now > 0.0
    ensures Reachable(s) && Attainable(s)
    ensures s.ctl.running && s.ctl.executor == Some(1) && s.ctl.pools == [false, true]
    ensures |s.tasks| == 2 && s.tasks[1] == NEW_TASK && s.queue == [Ticket(1, n)] && s.orphans == map[]
    ensures s.hist.completions == [Completion(0, now)] && s.hist.fates == [Cancelled]
    ensures s.now == now && s.lastSend == 0.0 && s.delay == 2.5
  {
    s := SampleCleaned(now, m, n);
    s := Follow(s, Start(2.5, true));
  }

  /** Two sends complete at the same moment, across a stop, with a delay of 2.5 seconds asked for. */
  lemma RestartSendsTooEarly(now: real, m: Message, n: Message) returns (s: State)
    requires now > 0.0
    ensures Reachable(s) && s.delay == 2.5
    ensures s.hist.completions == [Completion(0, now), Completion(1, now)] && s.hist.fates == [Cancelled]
  {
    s := SampleRestarted(now, m, n);
    s := TakeUp(s, 1);
    s := CallUp(s, 1);
    s := Follow(s, Returns(1, Delivered));
  }
}
