/** Pieces of concrete runs of the message queue, from which the counterexamples are put together. */
module QueueSamples {
  import opened Common
  import opened QueueModel
  import opened QueueLifecycle

  /** One more event, in any run; an orderly run stays orderly unless the event is stale. */
  lemma Follow(s: State, e: Event) returns (s': State)
    requires Attainable(s) && Enabled(s, e)
    ensures s' == Apply(s, e) && Attainable(s') && (Reachable(s) && !Stale(s, e) ==> Reachable(s'))
  {
    s' := Apply(s, e);
    StaysAttainable(s, e);
    if Reachable(s) && !Stale(s, e) { StaysReachable(s, e); }
  }

  /** The history with these messages accepted. */
  function Accepting(h: History, ms: seq<Ticket>): History { h.(accepted := h.accepted + ms) }

  /** A running queue accepts a message. */
  lemma Accept(s: State, m: Message) returns (s': State)
    requires Attainable(s) && s.ctl.running && !s.ctl.stopping && !s.ctl.stopFailed && |s.queue| < MAX_QUEUE_SIZE
    ensures var ticket := Ticket(|s.hist.accepted|, m);
      s' == s.(queue := s.queue + [ticket], hist := Accepting(s.hist, [ticket]))
    ensures Attainable(s') && (Reachable(s) ==> Reachable(s'))
  {
    s' := Follow(s, Offer(m, true, false));
  }

  /** The state after coroutine `i` took the first message. */
  function TakenUp(s: State, i: nat): State
    requires i < |s.tasks| && s.queue != []
  {
    Put(s, i, s.tasks[i].(pc := CheckReady, held := Some(s.queue[0]))).(queue := s.queue[1..], hasCurrent := true)
  }

  lemma TakeUp(s: State, i: nat) returns (s': State)
    requires Attainable(s) && s.ctl.running && s.queue != [] && Runs(s, i) && s.tasks[i].held.None?
    requires s.tasks[i].pc.Created? || s.tasks[i].pc.LoopTop?
    ensures s' == TakenUp(s, i)
    ensures Attainable(s') && (Reachable(s) ==> Reachable(s'))
  {
    s' := Follow(s, LoopTest(i));
    s' := Follow(s', Pop(i));
    assert s'.tasks == TakenUp(s, i).tasks;
  }

  /** The state after coroutine `i` handed its message to a send function. */
  function CalledUp(s: State, i: nat): State
    requires Holds(s, i)
  {
    Attempted(s, i)
  }

  /** With the connection up and nothing sent before, it calls at once. */
  lemma CallUp(s: State, i: nat) returns (s': State)
    requires Attainable(s) && Holds(s, i) && s.tasks[i].pc.CheckReady? && s.lastSend == 0.0
    ensures s' == CalledUp(s, i)
    ensures Attainable(s') && (Reachable(s) ==> Reachable(s'))
  {
    s' := Follow(s, Check(i, Ready));
    s' := Follow(s', Pace(i));
    s' := Follow(s', Final(i, Ready));
    assert s'.tasks == CalledUp(s, i).tasks;
  }

  const CALLING := Sending(Some(0), None)

  /** A queue just started with two messages accepted. */
  lemma SampleAccepted(now: real, m: Message, n: Message) returns (s: State)
    requires now > 0.0
    ensures Reachable(s) && Attainable(s)
    ensures s == Initial(now).(ctl := s.ctl, tasks := [NEW_TASK], queue := [Ticket(0, m), Ticket(1, n)],
                               hist := Accepting(Initial(now).hist, [Ticket(0, m), Ticket(1, n)]))
    ensures s.ctl == Control(true, false, false, Some(0), Some(0), [true], [], 0)
  {
    StartsReachable(now);
    ReachableIsAttainable(Initial(now));
    s := Follow(Initial(now), Start(2.5, true));
    assert s.tasks == [NEW_TASK] && s.ctl == Control(true, false, false, Some(0), Some(0), [true], [], 0);
    s := Accept(s, m);
    s := Accept(s, n);
  }

  /** The first of two messages is in the hands of a send function. */
  lemma SampleCalling(now: real, m: Message, n: Message) returns (s: State)
    requires now > 0.0
    ensures Reachable(s) && Attainable(s)
    ensures s.tasks == [Task(Active, CALLING, Some(Ticket(0, m)), None)] && s.queue == [Ticket(1, n)] && s.orphans == map[]
    ensures s.hist == Initial(now).hist.(accepted := [Ticket(0, m), Ticket(1, n)], attempts := [Ticket(0, m)])
    ensures s.ctl == Control(true, false, false, Some(0), Some(0), [true], [], 0)
    ensures s.now == now && s.lastSend == 0.0 && s.delay == 2.5
  {
    s := SampleAccepted(now, m, n);
    s := TakeUp(s, 0);
    s := CallUp(s, 0);
  }
}
