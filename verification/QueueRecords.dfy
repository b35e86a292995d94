/**
 The sent history against what became of the messages: every message that was sent,
 failed or was cancelled in hand has one record, in order, and exactly which events add
 another. This holds of every run, orderly or not.
 */
module QueueRecords {
  import opened Common
  import opened QueueModel
  import opened QueueLifecycle
  import opened QueueSamples

  /** A message put aside silently has no record. */
  predicate Recorded(f: Fate) { !f.RequeueDropped? && !f.Abandoned? }

  /** The records the settled messages call for. */
  function Due(settled: seq<Ticket>, fates: seq<Fate>): seq<Entry>
    requires |settled| == |fates|
  {
    if settled == [] then []
    else
      var n := |settled| - 1;
      Due(settled[..n], fates[..n]) + if Recorded(fates[n]) then [Entry(settled[n], fates[n])] else []
  }

  predicate RecordsOk(h: History) { |h.settled| == |h.fates| && h.records == Due(h.settled, h.fates) }

  function Excess(h: History): int
    requires |h.settled| == |h.fates|
  {
    |h.records| - |Due(h.settled, h.fates)|
  }

  /** The coroutine that an event delivers a cancellation to. */
  function Delivers(s: State, e: Event): Option<nat> {
    if e.CancelHits? then Some(e.i)
    else if e.RunOut? && e.finished && Awaits(s, e.k) && !StoppedTask(s, e.k).status.Finished? then s.ctl.stops[e.k].task
    else None
  }

  /**
   A cancellation is caught by a coroutine that remembers a message it no longer holds: one
   that was sent and whose mapping is being stored, or one given up when the coroutine was
   doomed.
   */
  predicate RecordsAmiss(s: State, e: Event) {
    && Delivers(s, e).Some? && Delivers(s, e).value < |s.tasks|
    && var t := s.tasks[Delivers(s, e).value];
    Catches(t.pc) && t.held.None? && Remembers(t).Some?
  }

  // ---------------------------------------------------------------- single events

  predicate Unrecorded(h: History, h': History) {
    h'.settled == h.settled && h'.fates == h.fates && h'.records == h.records
  }

  /** One message is settled, with its record. */
  predicate Settles(h: History, h': History, m: Ticket, f: Fate) {
    && h'.settled == h.settled + [m] && h'.fates == h.fates + [f]
    && h'.records == h.records + if Recorded(f) then [Entry(m, f)] else []
  }

  /** Nothing happens, or one message is settled with its record. */
  ghost predicate Paired(h: History, h': History) {
    Unrecorded(h, h') || exists m, f :: Settles(h, h', m, f)
  }

  predicate Extra(h: History, h': History) {
    h'.settled == h.settled && h'.fates == h.fates && |h'.records| == |h.records| + 1
  }

  lemma EndPairs(s: State, i: nat, status: Status)
    requires i < |s.tasks|
    ensures Paired(s.hist, End(s, i, status, Abandoned).hist)
  {
    if s.tasks[i].held.Some? {
      assert Settles(s.hist, End(s, i, status, Abandoned).hist, s.tasks[i].held.value, Abandoned);
    }
  }

  lemma CancelPairs(s: State, i: nat)
    requires i < |s.tasks|
    ensures var t, h := s.tasks[i], Cancel(s, i, Finished).hist;
      if Catches(t.pc) && t.held.None? && Remembers(t).Some? then Extra(s.hist, h) else Paired(s.hist, h)
  {
    if !Catches(s.tasks[i].pc) {
      EndPairs(s, i, Finished);
    } else if s.tasks[i].held.Some? {
      assert Settles(s.hist, Cancel(s, i, Finished).hist, s.tasks[i].held.value, Cancelled);
    }
  }

  lemma RequeuePairs(s: State, i: nat, m: Ticket)
    requires i < |s.tasks|
    ensures Paired(s.hist, Requeue(s, i, m).hist)
  {
    if |s.queue| >= MAX_QUEUE_SIZE { assert Settles(s.hist, Requeue(s, i, m).hist, m, RequeueDropped); }
  }

  lemma SendEndPairs(s: State, i: nat, maps: bool)
    requires Enabled(s, SendEnds(i, maps))
    ensures Paired(s.hist, SendEnded(s, i, maps).hist)
  {
    var m, h := s.tasks[i].held.value, SendEnded(s, i, maps).hist;
    match s.tasks[i].pc.answer.value
    case ConnectionLost => RequeuePairs(s, i, m);
    case Rejected => assert Settles(s.hist, h, m, Error);
    case Empty => assert Settles(s.hist, h, m, NoResult);
    case Delivered => assert Settles(s.hist, h, m, Sent);
  }

  /** The events that settle or record anything. */
  predicate Matters(e: Event) {
    e.CancelHits? || e.RunOut? || e.LoopTest? || e.LoopCloses? || e.Wake? || e.Final? || e.SendEnds?
  }

  lemma RestUnrecorded(s: State, e: Event)
    requires Enabled(s, e) && !Matters(e)
    ensures Unrecorded(s.hist, Apply(s, e).hist)
  {
    if IsControl(e) { ControlStands(s, e); }
  }

  lemma RunOutPairs(s: State, k: nat, finished: bool)
    requires Enabled(s, RunOut(k, finished))
    ensures if RecordsAmiss(s, RunOut(k, finished)) then Extra(s.hist, Apply(s, RunOut(k, finished)).hist)
            else Paired(s.hist, Apply(s, RunOut(k, finished)).hist)
  {
    var i := s.ctl.stops[k].task.value;
    if finished { CancelPairs(s, i); } else { EndPairs(s, i, Doomed); }
  }

  lemma AskedPairs(s: State, e: Event)
    requires Enabled(s, e) && (e.Wake? || e.Final?)
    ensures Paired(s.hist, Apply(s, e).hist)
  {
    RequeuePairs(s, e.i, s.tasks[e.i].held.value);
  }

  lemma EventPairs(s: State, e: Event)
    requires Enabled(s, e)
    ensures if RecordsAmiss(s, e) then Extra(s.hist, Apply(s, e).hist) else Paired(s.hist, Apply(s, e).hist)
  {
    if e.CancelHits? {
      CancelPairs(s, e.i);
    } else if e.RunOut? {
      RunOutPairs(s, e.k, e.finished);
    } else if e.LoopTest? {
      EndPairs(s, e.i, Finished);
    } else if e.LoopCloses? {
      EndPairs(s, e.i, Stranded);
    } else if e.SendEnds? {
      SendEndPairs(s, e.i, e.maps);
    } else if e.Wake? || e.Final? {
      AskedPairs(s, e);
    } else {
      RestUnrecorded(s, e);
    }
  }

  lemma DueMore(settled: seq<Ticket>, fates: seq<Fate>, m: Ticket, f: Fate)
    requires |settled| == |fates|
    ensures Due(settled + [m], fates + [f]) == Due(settled, fates) + if Recorded(f) then [Entry(m, f)] else []
  {
    assert (settled + [m])[..|settled|] == settled && (fates + [f])[..|fates|] == fates;
  }

  /** An event leaves one record too many if and only if it is such a cancellation. */
  lemma ExcessGrowsExactly(s: State, e: Event)
    requires Enabled(s, e) && |s.hist.settled| == |s.hist.fates|
    ensures var h, h' := s.hist, Apply(s, e).hist;
      && |h'.settled| == |h'.fates|
      && Excess(h') == Excess(h) + (if RecordsAmiss(s, e) then 1 else 0)
      && (RecordsOk(h) && !RecordsAmiss(s, e) ==> RecordsOk(h'))
  {
    EventPairs(s, e);
    var h, h' := s.hist, Apply(s, e).hist;
    if m, f :| Settles(h, h', m, f) {
      DueMore(h.settled, h.fates, m, f);
    }
  }

  // ---------------------------------------------------------------- whole runs

  lemma {:induction false} RecordsRun(s: State, es: seq<Event>, s': State)
    requires |s.hist.settled| == |s.hist.fates| && Run(s, es, s')
    ensures |s'.hist.settled| == |s'.hist.fates| && Excess(s'.hist) >= Excess(s.hist)
    ensures Without(RecordsAmiss, s, es) && RecordsOk(s.hist) ==> RecordsOk(s'.hist)
    ensures !Without(RecordsAmiss, s, es) ==> Excess(s'.hist) > Excess(s.hist)
    decreases |es|
  {
    if es != [] {
      ExcessGrowsExactly(s, es[0]);
      RecordsRun(Apply(s, es[0]), es[1..], s');
    }
  }

  /**
   After any run the sent history holds, in order, one record for each message that was
   sent, failed or was cancelled in hand, and nothing else, if and only if no cancellation
   was caught by a coroutine that only remembered its message.
   */
  lemma OneRecordEachExactly(now: real, es: seq<Event>, s: State)
    requires Run(Initial(now), es, s)
    ensures RecordsOk(s.hist) <==> Without(RecordsAmiss, Initial(now), es)
  {
    RecordsRun(Initial(now), es, s);
  }

  /** A message was sent and recorded, and its mapping is being stored. */
  lemma SampleMapping(now: real, m: Message, n: Message) returns (s: State)
    requires now > 0.0
    ensures Reachable(s) && Attainable(s) && s.tasks == [Task(Active, Mapping(Ticket(0, m)), None, None)]
    ensures s.hist.settled == [Ticket(0, m)] && s.hist.fates == [Sent] && s.hist.records == [Entry(Ticket(0, m), Sent)]
  {
    s := SampleCalling(now, m, n);
    s := Follow(s, Returns(0, Delivered));
    assert s.tasks == [Task(Active, Sending(Some(0), Some(Delivered)), Some(Ticket(0, m)), None)];
    s := Follow(s, SendEnds(0, true));
  }

  /** A cancellation meets it: one message, recorded as sent and as cancelled. */
  lemma SentAndCancelled(now: real, m: Message, n: Message) returns (s: State)
    requires now > 0.0
    ensures Reachable(s) && s.hist.settled == [Ticket(0, m)] && s.hist.fates == [Sent]
    ensures s.hist.records == [Entry(Ticket(0, m), Sent), Entry(Ticket(0, m), Cancelled)]
  {
    s := SampleMapping(now, m, n);
    s := Follow(s, CancelOutside(0));
    s := Follow(s, CancelHits(0));
  }
}
