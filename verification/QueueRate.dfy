/**
 The rate limit over whole runs, across stops and restarts, for the sends the processor saw
 completed: no send function is called before the configured distance to each of them has
 passed, so they are spaced and a window of time holds only so many. Sends that complete
 behind the processor's back are the subject of `QueueCompletions`.
 */
module QueueRate {
  import opened Common
  import opened QueueModel
  import opened QueueLifecycle

  function Last(sends: seq<real>): real { if sends == [] then 0.0 else sends[|sends| - 1] }

  /** The message in hand has waited long enough. */
  predicate Waited(s: State, m: Message) { s.lastSend == 0.0 || s.now >= s.lastSend + Gap(s.delay, m) }

  /** What a live coroutine knows about the clock at each point after pacing. */
  predicate PaceOk(s: State, t: Task) {
    Live(t) && t.held.Some? ==>
      && (t.pc.Resting? ==> t.pc.until >= s.lastSend + Gap(s.delay, t.held.value.message))
      && (t.pc.FinalCheck? || t.pc.Sending? ==> Waited(s, t.held.value.message))
  }

  ghost predicate SendsOk(s: State) {
    && s.now > 0.0 && s.lastSend == Last(s.hist.sends) <= s.now
    && (forall k :: 0 <= k < |s.hist.sends| ==> 0.0 < s.hist.sends[k] <= s.lastSend)
  }

  ghost predicate PaceInv(s: State) {
    SendsOk(s) && forall i :: 0 <= i < |s.tasks| ==> PaceOk(s, s.tasks[i])
  }

  // ---------------------------------------------------------------- steps of the coroutine

  /** The clock and the record of sends stand still. */
  predicate SameClock(s: State, s': State) {
    s'.now == s.now && s'.lastSend == s.lastSend && s'.delay == s.delay && s'.hist.sends == s.hist.sends
  }

  lemma TouchedPace(s: State, s': State, i: nat)
    requires PaceInv(s) && Touches(s, s', i) && SameClock(s, s') && PaceOk(s', s'.tasks[i])
    ensures PaceInv(s')
  {
    forall j | 0 <= j < |s'.tasks| ensures PaceOk(s', s'.tasks[j]) {
      if j != i { assert s'.tasks[j] == s.tasks[j] && PaceOk(s, s.tasks[j]); }
    }
  }

  /** The processor sees that a send completed. */
  predicate Sees(s: State, e: Event)
    requires Enabled(s, e)
  {
    e.SendEnds? && Completes(s.tasks[e.i].pc.answer.value)
  }

  lemma SentSendsOk(s: State, i: nat, maps: bool)
    requires SendsOk(s) && Enabled(s, SendEnds(i, maps)) && Sees(s, SendEnds(i, maps))
    ensures SendsOk(SendEnded(s, i, maps)) && |SendEnded(s, i, maps).tasks| == |s.tasks|
    ensures SendEnded(s, i, maps).tasks[i].held.None?
  {
  }

  /** That moves the mark, and the sender is the only live coroutine. */
  lemma SentPace(s: State, i: nat, maps: bool)
    requires PaceInv(s) && LifeInv(s.ctl, s.tasks) && Enabled(s, SendEnds(i, maps)) && Sees(s, SendEnds(i, maps))
    ensures PaceInv(SendEnded(s, i, maps))
  {
    var s' := SendEnded(s, i, maps);
    SendEndedTouches(s, i, maps);
    SentSendsOk(s, i, maps);
    forall j | 0 <= j < |s'.tasks| ensures PaceOk(s', s'.tasks[j]) {
      if j != i { assert s'.tasks[j] == s.tasks[j] && !Live(s.tasks[j]); }
    }
  }

  lemma RequeuePace(s: State, i: nat)
    requires PaceInv(s) && Holds(s, i)
    ensures PaceInv(Requeue(s, i, s.tasks[i].held.value))
  {
    RequeueTouches(s, i, s.tasks[i].held.value);
    TouchedPace(s, Requeue(s, i, s.tasks[i].held.value), i);
  }

  lemma MovePace(s: State, i: nat, pc: Pc)
    requires PaceInv(s) && Runs(s, i) && PaceOk(s, s.tasks[i].(pc := pc))
    ensures PaceInv(Go(s, i, pc))
  {
    TouchedPace(s, Go(s, i, pc), i);
  }

  lemma AskedPace(s: State, e: Event)
    requires PaceInv(s) && Enabled(s, e) && (e.Check? || e.Pace? || e.Wake? || e.Final?)
    ensures PaceInv(Apply(s, e))
  {
    assert PaceOk(s, s.tasks[e.i]);
    if e.Pace? {
      MovePace(s, e.i, Paced(s, e.i).tasks[e.i].pc);
    } else if e.v.Raises? {
      MovePace(s, e.i, Backoff);
    } else if e.Check? {
      MovePace(s, e.i, if e.v.Ready? then Pacing else LoopTop);
    } else if e.v.NotReady? {
      RequeuePace(s, e.i);
    } else if e.Wake? {
      MovePace(s, e.i, FinalCheck);
    } else {
      MovePace(s, e.i, Sending(s.ctl.executor, None));
    }
  }

  lemma EndPace(s: State, i: nat, status: Status, f: Fate)
    requires PaceInv(s) && i < |s.tasks| && !status.Active? && !status.Cancelling?
    ensures PaceInv(End(s, i, status, f))
  {
    EndTouches(s, i, status, f);
    TouchedPace(s, End(s, i, status, f), i);
  }

  /** The other steps of a coroutine neither pace nor see a send. */
  predicate IsPlain(s: State, e: Event)
    requires Enabled(s, e)
  {
    IsCoroutineStep(e) && !e.Check? && !e.Pace? && !e.Wake? && !e.Final? && !Sees(s, e)
  }

  lemma PlainClock(s: State, e: Event)
    requires Enabled(s, e) && IsPlain(s, e)
    ensures SameClock(s, Apply(s, e))
  {
  }

  /** The coroutine has not begun to pace, has gone, or stays where it is. */
  predicate KeepsPlace(t: Task, t': Task) {
    || !Live(t') || t'.held.None?
    || (!t'.pc.Resting? && !t'.pc.FinalCheck? && !t'.pc.Sending?)
    || (Live(t) && t'.held == t.held && (t'.pc == t.pc || (t.pc.Sending? && t'.pc.Sending?)))
  }

  /** After these the coroutine has gone. */
  predicate GoesAway(s: State, e: Event) { e.CancelHits? || e.LoopCloses? || (e.LoopTest? && !s.ctl.running) }

  lemma GoneIsNotLive(s: State, e: Event)
    requires Enabled(s, e) && IsCoroutineStep(e) && GoesAway(s, e)
    ensures |Apply(s, e).tasks| == |s.tasks| && !Live(Apply(s, e).tasks[e.i])
  {
    if e.CancelHits? {
      EndIsCalm(s, e.i, Finished, if Catches(s.tasks[e.i].pc) then Cancelled else Abandoned);
    } else if e.LoopCloses? {
      EndIsCalm(s, e.i, Stranded, Abandoned);
    } else {
      EndIsCalm(s, e.i, Finished, Abandoned);
    }
  }

  lemma PlainKeepsPlace(s: State, e: Event)
    requires Enabled(s, e) && IsPlain(s, e) && e.i < |Apply(s, e).tasks|
    ensures KeepsPlace(s.tasks[e.i], Apply(s, e).tasks[e.i])
  {
    if GoesAway(s, e) {
      GoneIsNotLive(s, e);
    } else if e.SendEnds? {
      SentHandIsEmpty(s, e.i, e.maps);
    }
  }

  lemma PlainPace(s: State, e: Event)
    requires PaceInv(s) && Enabled(s, e) && IsPlain(s, e) && Touches(s, Apply(s, e), e.i) && SameClock(s, Apply(s, e))
    ensures PaceOk(Apply(s, e), Apply(s, e).tasks[e.i])
  {
    assert PaceOk(s, s.tasks[e.i]);
    PlainKeepsPlace(s, e);
  }

  lemma CoroutinePace(s: State, e: Event)
    requires PaceInv(s) && LifeInv(s.ctl, s.tasks) && Enabled(s, e) && IsCoroutineStep(e)
    ensures PaceInv(Apply(s, e))
  {
    if e.Check? || e.Pace? || e.Wake? || e.Final? {
      AskedPace(s, e);
    } else if Sees(s, e) {
      SentPace(s, e.i, e.maps);
    } else {
      CoroutineTouches(s, e);
      PlainClock(s, e);
      PlainPace(s, e);
      TouchedPace(s, Apply(s, e), e.i);
    }
  }

  // ---------------------------------------------------------------- everything else

  /** Tasks that are still live kept their place and their message; time may have passed. */
  lemma QuietPace(s: State, s': State)
    requires PaceInv(s) && |s'.tasks| == |s.tasks|
    requires forall i :: 0 <= i < |s.tasks| && Live(s'.tasks[i]) ==>
      Live(s.tasks[i]) && s'.tasks[i].pc == s.tasks[i].pc && s'.tasks[i].held == s.tasks[i].held
    requires s'.now >= s.now && SameClock(s.(now := s'.now), s')
    ensures PaceInv(s')
  {
    forall i | 0 <= i < |s'.tasks| ensures PaceOk(s', s'.tasks[i]) {
      assert PaceOk(s, s.tasks[i]);
    }
  }

  /** A start may change the delay; nobody has paced against the old one. */
  lemma StartPace(s: State, delay: real, loop: bool)
    requires PaceInv(s) && LifeInv(s.ctl, s.tasks)
    ensures PaceInv(Apply(s, Start(delay, loop)))
  {
    ClearIsHarmless(s.ctl, s.tasks);
    var s' := Apply(s, Start(delay, loop));
    forall i | 0 <= i < |s'.tasks| ensures PaceOk(s', s'.tasks[i]) {
      if i < |s.tasks| { assert s'.tasks[i] == s.tasks[i] && PaceOk(s, s.tasks[i]); }
    }
  }

  lemma EnsurePace(s: State, loop: bool)
    requires PaceInv(s)
    ensures PaceInv(Apply(s, Ensure(loop)))
  {
    var s' := Apply(s, Ensure(loop));
    forall i | 0 <= i < |s'.tasks| ensures PaceOk(s', s'.tasks[i]) {
      if i < |s.tasks| { assert s'.tasks[i] == s.tasks[i] && PaceOk(s, s.tasks[i]); }
    }
  }

  lemma RanOutPace(s: State, i: nat, finished: bool)
    requires PaceInv(s) && i < |s.tasks|
    ensures PaceInv(RanOut(s, i, finished))
  {
    if finished && !s.tasks[i].status.Finished? {
      CancelPace(s, i);
    } else {
      EndPace(s, i, Doomed, Abandoned);
    }
  }

  lemma CancelPace(s: State, i: nat)
    requires PaceInv(s) && i < |s.tasks|
    ensures PaceInv(Cancel(s, i, Finished))
  {
    var f := if Catches(s.tasks[i].pc) then Cancelled else Abandoned;
    EndPace(s, i, Finished, f);
    var ended, s' := End(s, i, Finished, f), Cancel(s, i, Finished);
    assert SameClock(ended, s') && s'.tasks == ended.tasks;
    QuietPace(ended, s');
  }

  lemma RunOutPace(s: State, k: nat, finished: bool)
    requires PaceInv(s) && Enabled(s, RunOut(k, finished))
    ensures PaceInv(Apply(s, RunOut(k, finished)))
  {
    var i := s.ctl.stops[k].task.value;
    RanOutPace(s, i, finished);
    QuietPace(RanOut(s, i, finished), Apply(s, RunOut(k, finished)));
  }

  lemma PaceStep(s: State, e: Event)
    requires PaceInv(s) && LifeInv(s.ctl, s.tasks) && Enabled(s, e)
    ensures PaceInv(Apply(s, e))
  {
    if IsCoroutineStep(e) {
      CoroutinePace(s, e);
    } else if e.Start? {
      StartPace(s, e.delay, e.loop);
    } else if e.Ensure? {
      EnsurePace(s, e.loop);
    } else if e.RunOut? {
      RunOutPace(s, e.k, e.finished);
    } else {
      QuietPace(s, Apply(s, e));
    }
  }

  // ---------------------------------------------------------------- spacing

  /** Every start asks for at least `d`. */
  predicate DelaysAtLeast(es: seq<Event>, d: real) {
    forall k :: 0 <= k < |es| && es[k].Start? ==> es[k].delay >= d
  }

  /** The sends seen are at least `d` apart. */
  ghost predicate Spaced(sends: seq<real>, d: real) {
    forall k {:trigger sends[k]} :: 0 < k < |sends| ==> sends[k - 1] + d <= sends[k]
  }

  ghost predicate SpacingInv(s: State, d: real) {
    && Spaced(s.hist.sends, d)
    && (s.ctl.running || s.tasks != [] ==> s.delay >= d)
  }

  /** The sends and the delay are as before, and a coroutine exists only where one did. */
  predicate SameSpacing(s: State, s': State) {
    && s'.hist.sends == s.hist.sends && s'.delay == s.delay
    && (s'.ctl.running ==> s.ctl.running) && (s'.tasks != [] ==> s.ctl.running || s.tasks != [])
  }

  lemma AskedClock(s: State, e: Event)
    requires Enabled(s, e) && (e.Check? || e.Pace? || e.Wake? || e.Final?)
    ensures SameClock(s, Apply(s, e))
  {
  }

  lemma CoroutineSpacing(s: State, e: Event)
    requires Enabled(s, e) && IsCoroutineStep(e) && !Sees(s, e)
    ensures SameSpacing(s, Apply(s, e))
  {
    CoroutineTouches(s, e);
    if IsPlain(s, e) { PlainClock(s, e); } else { AskedClock(s, e); }
  }

  lemma RunOutSpacing(s: State, i: nat, finished: bool)
    requires i < |s.tasks|
    ensures SameSpacing(s, RanOut(s, i, finished))
  {
    RanOutIsCalm(s, i, finished);
  }

  lemma SentSpacing(s: State, i: nat, maps: bool, d: real)
    requires PaceInv(s) && SpacingInv(s, d) && Enabled(s, SendEnds(i, maps)) && Sees(s, SendEnds(i, maps))
    ensures SpacingInv(Apply(s, SendEnds(i, maps)), d)
  {
    assert PaceOk(s, s.tasks[i]);
    SendEndedTouches(s, i, maps);
    var s' := Apply(s, SendEnds(i, maps));
    assert s'.hist.sends == s.hist.sends + [s.now];
  }

  lemma StartSpacing(s: State, delay: real, loop: bool, d: real)
    requires SpacingInv(s, d) && delay >= d
    ensures SpacingInv(Apply(s, Start(delay, loop)), d)
  {
    ControlStands(s, Start(delay, loop));
  }

  lemma SpacingStep(s: State, e: Event, d: real)
    requires PaceInv(s) && SpacingInv(s, d) && Enabled(s, e) && (e.Start? ==> e.delay >= d)
    ensures SpacingInv(Apply(s, e), d)
  {
    if Sees(s, e) {
      SentSpacing(s, e.i, e.maps, d);
    } else if IsCoroutineStep(e) {
      CoroutineSpacing(s, e);
    } else if e.Start? {
      StartSpacing(s, e.delay, e.loop, d);
    } else if e.RunOut? {
      RunOutSpacing(s, s.ctl.stops[e.k].task.value, e.finished);
    } else {
      assert SameSpacing(s, Apply(s, e));
    }
  }

  lemma {:induction false} RateRun(s: State, es: seq<Event>, s': State, d: real)
    requires PaceInv(s) && LifeInv(s.ctl, s.tasks) && SpacingInv(s, d)
    requires Orderly(s, es) && Run(s, es, s') && DelaysAtLeast(es, d)
    ensures PaceInv(s') && SpacingInv(s', d)
    decreases |es|
  {
    if es != [] {
      PaceStep(s, es[0]);
      LifeStep(s, es[0]);
      SpacingStep(s, es[0], d);
      RateRun(Apply(s, es[0]), es[1..], s', d);
    }
  }

  lemma {:induction false} SomeBound(es: seq<Event>) returns (d: real)
    ensures DelaysAtLeast(es, d)
  {
    d := 0.0;
    if es != [] {
      d := SomeBound(es[1..]);
      if es[0].Start? && es[0].delay < d { d := es[0].delay; }
      assert forall k :: 0 < k < |es| ==> es[k] == es[1..][k - 1];
    }
  }

  // ---------------------------------------------------------------- whole runs

  lemma WaitedForAll(s: State, i: nat)
    requires PaceInv(s) && Holds(s, i) && s.tasks[i].pc.FinalCheck?
    ensures forall t :: t in s.hist.sends ==> s.now - t >= Gap(s.delay, s.tasks[i].held.value.message)
  {
    assert PaceOk(s, s.tasks[i]);
  }

  /**
   Whenever a send function is about to be called, every send seen completed lies at least the
   current delay, and at least the message's own minimum, in the past.
   */
  lemma AttemptsWait(now: real, es: seq<Event>, s: State, i: nat)
    requires now > 0.0 && Orderly(Initial(now), es) && Run(Initial(now), es, s) && Enabled(s, Final(i, Ready))
    ensures forall t :: t in s.hist.sends ==> s.now - t >= s.delay
    ensures forall t :: t in s.hist.sends && s.tasks[i].held.value.message.minDelay.Some? ==>
      s.now - t >= s.tasks[i].held.value.message.minDelay.value
  {
    var d := SomeBound(es);
    RateRun(Initial(now), es, s, d);
    WaitedForAll(s, i);
  }

  /** The sends seen completed are at least the smallest configured delay apart. */
  lemma SendsAreSpaced(now: real, es: seq<Event>, s: State, d: real)
    requires now > 0.0 && Orderly(Initial(now), es) && Run(Initial(now), es, s) && DelaysAtLeast(es, d)
    ensures Spaced(s.hist.sends, d)
  {
    RateRun(Initial(now), es, s, d);
  }

  /** How many of the sends fall into a window of time. */
  function Count(sends: seq<real>, from: real, to: real): nat {
    if sends == [] then 0
    else Count(sends[..|sends| - 1], from, to) + if from <= sends[|sends| - 1] <= to then 1 else 0
  }

  /** `n` distances of `d`. */
  function Steps(n: nat, d: real): real { if n == 0 then 0.0 else Steps(n - 1, d) + d }

  lemma {:induction false} StepsAreProduct(n: nat, d: real)
    ensures Steps(n, d) == n as real * d
  {
    if n > 0 {
      StepsAreProduct(n - 1, d);
      var a := (n - 1) as real;
      assert n as real == a + 1.0 && (a + 1.0) * d == a * d + d;
    }
  }

  lemma {:induction false} StepsNonNegative(n: nat, d: real)
    requires d > 0.0
    ensures Steps(n, d) >= 0.0
  {
    if n > 0 { StepsNonNegative(n - 1, d); }
  }

  /** `n` sends in a window span `n - 1` distances, up to the last send of all. */
  lemma {:induction false} CountIsBounded(sends: seq<real>, from: real, to: real, d: real)
    requires d > 0.0 && Spaced(sends, d) && Count(sends, from, to) > 0
    ensures Steps(Count(sends, from, to) - 1, d) <= to - from
    ensures Steps(Count(sends, from, to) - 1, d) <= Last(sends) - from
  {
    var before, x := sends[..|sends| - 1], Last(sends);
    var n: nat := Count(before, from, to);
    if n > 0 {
      CountIsBounded(before, from, to, d);
      StepsNonNegative(n - 1, d);
      assert Last(before) + d <= x by { assert sends[|sends| - 1 - 1] + d <= sends[|sends| - 1]; }
    }
  }

  lemma FloorBound(n: nat, d: real, width: real)
    requires d > 0.0 && n as real * d <= width
    ensures n <= (width / d).Floor
  {
    var q := width / d;
    assert q * d == width;
    assert n as real <= q;
  }

  /** A window of length `width` holds at most `width / d` rounded down, plus one, of them. */
  lemma WindowIsBounded(now: real, es: seq<Event>, s: State, d: real, from: real, width: real)
    requires now > 0.0 && Orderly(Initial(now), es) && Run(Initial(now), es, s)
    requires DelaysAtLeast(es, d) && d > 0.0 && width >= 0.0
    ensures Count(s.hist.sends, from, from + width) <= (width / d).Floor + 1
  {
    SendsAreSpaced(now, es, s, d);
    var n := Count(s.hist.sends, from, from + width);
    if n > 0 {
      CountIsBounded(s.hist.sends, from, from + width, d);
      StepsAreProduct(n - 1, d);
      FloorBound(n - 1, d, width);
    } else {
      FloorBound(0, d, width);
    }
  }
}
