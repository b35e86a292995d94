/**
 What becomes of a message is decided by the last answer the processor heard for it. The
 answers are read off the events of a run, so nothing here depends on how a step acts upon
 one. Everything holds of every run, orderly or not.
 */
module QueueOutcomes {
  import opened Common
  import opened QueueModel
  import opened QueueLifecycle

  // ---------------------------------------------------------------- the answers of a run

  datatype Heard = Heard(ticket: Ticket, answer: SendResult)

  /** `pending`: what the send function of a coroutine returned last; `heard`: what its coroutine went on with. */
  datatype Log = Log(pending: map<nat, SendResult>, heard: seq<Heard>)

  const NO_LOG := Log(map[], [])

  function Logged(s: State, log: Log, e: Event): Log {
    if e.Returns? then log.(pending := log.pending[e.i := e.r])
    else if e.SendEnds? && Holds(s, e.i) && e.i in log.pending
    then log.(heard := log.heard + [Heard(s.tasks[e.i].held.value, log.pending[e.i])])
    else log
  }

  ghost function LogOf(s: State, log: Log, es: seq<Event>): Log
    decreases |es|
  {
    if es == [] || !Enabled(s, es[0]) then log
    else LogOf(Apply(s, es[0]), Logged(s, log, es[0]), es[1..])
  }

  /** The answers heard in a run from the start, in order. */
  ghost function Answers(now: real, es: seq<Event>): seq<Heard> { LogOf(Initial(now), NO_LOG, es).heard }

  function LastAnswer(heard: seq<Heard>, m: Ticket): Option<SendResult> {
    if heard == [] then None
    else if heard[|heard| - 1].ticket == m then Some(heard[|heard| - 1].answer)
    else LastAnswer(heard[..|heard| - 1], m)
  }

  lemma LastAnswerMore(heard: seq<Heard>, h: Heard, m: Ticket)
    ensures LastAnswer(heard + [h], m) == if h.ticket == m then Some(h.answer) else LastAnswer(heard, m)
  {
    assert (heard + [h])[..|heard|] == heard;
  }

  lemma {:induction false} LastWasHeard(heard: seq<Heard>, m: Ticket)
    ensures LastAnswer(heard, m).Some? ==> Heard(m, LastAnswer(heard, m).value) in heard
  {
    if heard != [] {
      LastWasHeard(heard[..|heard| - 1], m);
    }
  }

  // ---------------------------------------------------------------- one step

  /** A rejected message is given up: it failed, and the record says so. */
  lemma RejectedIsError(s: State, i: nat, maps: bool)
    requires Enabled(s, SendEnds(i, maps)) && s.tasks[i].pc.answer == Some(Rejected)
    ensures var m, h := s.tasks[i].held.value, s.hist;
      Apply(s, SendEnds(i, maps)) == s.(
        tasks := s.tasks[i := s.tasks[i].(pc := LoopTop, held := None)], inFlight := false, hasCurrent := false,
        hist := h.(settled := h.settled + [m], fates := h.fates + [Error], records := h.records + [Entry(m, Error)]))
  {
  }

  /** A send without a result is recorded as such, and counts for the pace. */
  lemma EmptyIsNoResult(s: State, i: nat, maps: bool)
    requires Enabled(s, SendEnds(i, maps)) && s.tasks[i].pc.answer == Some(Empty)
    ensures var m, h := s.tasks[i].held.value, s.hist;
      Apply(s, SendEnds(i, maps)) == s.(
        tasks := s.tasks[i := s.tasks[i].(pc := LoopTop, held := None)], inFlight := false, hasCurrent := false,
        lastSend := s.now,
        hist := h.(settled := h.settled + [m], fates := h.fates + [NoResult], records := h.records + [Entry(m, NoResult)],
                   sends := h.sends + [s.now]))
  {
  }

  /** A delivered message is recorded as sent; the flags stay up while its mapping is stored. */
  lemma DeliveredIsSent(s: State, i: nat, maps: bool)
    requires Enabled(s, SendEnds(i, maps)) && s.tasks[i].pc.answer == Some(Delivered)
    ensures var m, h := s.tasks[i].held.value, s.hist;
      Apply(s, SendEnds(i, maps)) == s.(
        tasks := s.tasks[i := s.tasks[i].(pc := if maps then Mapping(m) else LoopTop, held := None)],
        inFlight := s.inFlight && maps, hasCurrent := s.hasCurrent && maps, lastSend := s.now,
        hist := h.(settled := h.settled + [m], fates := h.fates + [Sent], records := h.records + [Entry(m, Sent)],
                   sends := h.sends + [s.now]))
  {
  }

  /** After a lost connection the message heads the queue again, or is dropped if the queue is full. */
  lemma LostGoesBack(s: State, i: nat, maps: bool)
    requires Enabled(s, SendEnds(i, maps)) && s.tasks[i].pc.answer == Some(ConnectionLost)
    ensures var m, h, full := s.tasks[i].held.value, s.hist, |s.queue| >= MAX_QUEUE_SIZE;
      Apply(s, SendEnds(i, maps)) == s.(
        tasks := s.tasks[i := s.tasks[i].(pc := LoopTop, held := None)], inFlight := false, hasCurrent := false,
        queue := if full then s.queue else [m] + s.queue, dropped := s.dropped + if full then 1 else 0,
        hist := if full then h.(settled := h.settled + [m], fates := h.fates + [RequeueDropped]) else h)
  {
  }

  /**
   A call was answered by a lost connection exactly if the message then heads the queue
   again, or was counted as dropped because the queue was full.
   */
  lemma LostExactlyWhenPutBack(s: State, i: nat, maps: bool)
    requires Enabled(s, SendEnds(i, maps))
    ensures var s', m := Apply(s, SendEnds(i, maps)), s.tasks[i].held.value;
      s.tasks[i].pc.answer == Some(ConnectionLost) <==>
        || s'.queue == [m] + s.queue
        || (|s.queue| >= MAX_QUEUE_SIZE && s'.dropped == s.dropped + 1)
  {
    assert |[s.tasks[i].held.value] + s.queue| == |s.queue| + 1;
    match s.tasks[i].pc.answer.value
    case ConnectionLost => LostGoesBack(s, i, maps);
    case Rejected => RejectedIsError(s, i, maps);
    case Empty => EmptyIsNoResult(s, i, maps);
    case Delivered => DeliveredIsSent(s, i, maps);
  }

  // ---------------------------------------------------------------- nothing lost or doubled

  ghost predicate Known(h: History, m: Ticket) { m.place < |h.accepted| && h.accepted[m.place] == m }

  ghost predicate HandHas(s: State, i: nat, m: Ticket) { i < |s.tasks| && s.tasks[i].held == Some(m) }

  /** No message is in two places, or unknown. */
  ghost predicate OnePlace(s: State) {
    && (forall a, b :: 0 <= a < b < |s.queue| ==> s.queue[a] != s.queue[b])
    && (forall a, b :: 0 <= a < b < |s.hist.settled| ==> s.hist.settled[a] != s.hist.settled[b])
    && (forall m :: m in s.queue ==> Known(s.hist, m) && m !in s.hist.settled)
    && (forall m :: m in s.hist.settled ==> Known(s.hist, m))
    && (forall i: nat, m :: HandHas(s, i, m) ==> Known(s.hist, m) && m !in s.queue && m !in s.hist.settled)
    && (forall i: nat, j: nat, m :: HandHas(s, i, m) && HandHas(s, j, m) ==> i == j)
  }

  ghost predicate Somewhere(s: State, m: Ticket) {
    m in s.queue || m in s.hist.settled || exists i: nat :: HandHas(s, i, m)
  }

  ghost predicate NoneMissing(s: State) { forall m :: m in s.hist.accepted ==> Somewhere(s, m) }

  /** Nothing moves; a coroutine may be added with empty hands. */
  ghost predicate Still(s: State, s': State) {
    && s'.queue == s.queue && s'.hist.settled == s.hist.settled && s'.hist.fates == s.hist.fates
    && s'.hist.accepted == s.hist.accepted
    && forall i: nat, m :: HandHas(s', i, m) <==> HandHas(s, i, m)
  }

  /** A message comes in at the end. */
  ghost predicate Joins(s: State, s': State, m: Ticket) {
    && m.place == |s.hist.accepted|
    && s'.queue == s.queue + [m] && s'.hist.accepted == s.hist.accepted + [m]
    && s'.hist.settled == s.hist.settled && s'.hist.fates == s.hist.fates
    && forall i: nat, x :: HandHas(s', i, x) <==> HandHas(s, i, x)
  }

  /** Coroutine `i` takes the first message. */
  ghost predicate Takes(s: State, s': State, i: nat) {
    && s.queue != [] && s'.queue == s.queue[1..] && s'.hist.settled == s.hist.settled && s'.hist.fates == s.hist.fates
    && s'.hist.accepted == s.hist.accepted && (forall m :: !HandHas(s, i, m))
    && forall j: nat, m :: HandHas(s', j, m) <==> (j == i && m == s.queue[0]) || HandHas(s, j, m)
  }

  /** Coroutine `i` lets go of `m`, and it heads the queue. */
  ghost predicate PutsBack(s: State, s': State, i: nat, m: Ticket) {
    && HandHas(s, i, m) && s'.queue == [m] + s.queue
    && s'.hist.settled == s.hist.settled && s'.hist.fates == s.hist.fates && s'.hist.accepted == s.hist.accepted
    && forall j: nat, x :: HandHas(s', j, x) <==> j != i && HandHas(s, j, x)
  }

  /** Coroutine `i` lets go of `m` for good. */
  ghost predicate LetsGo(s: State, s': State, i: nat, m: Ticket, f: Fate) {
    && HandHas(s, i, m) && s'.queue == s.queue
    && s'.hist.settled == s.hist.settled + [m] && s'.hist.fates == s.hist.fates + [f] && s'.hist.accepted == s.hist.accepted
    && forall j: nat, x :: HandHas(s', j, x) <==> j != i && HandHas(s, j, x)
  }

  lemma StillKeeps(s: State, s': State)
    requires OnePlace(s) && NoneMissing(s) && Still(s, s')
    ensures OnePlace(s') && NoneMissing(s')
  {
    forall m | m in s'.hist.accepted ensures Somewhere(s', m) {
      assert Somewhere(s, m);
      if i: nat :| HandHas(s, i, m) { assert HandHas(s', i, m); }
    }
  }

  lemma JoinsKeeps(s: State, s': State, t: Ticket)
    requires OnePlace(s) && NoneMissing(s) && Joins(s, s', t)
    ensures OnePlace(s') && NoneMissing(s')
  {
    forall m | m in s'.hist.accepted ensures Somewhere(s', m) {
      if m in s.hist.accepted {
        assert Somewhere(s, m);
        if i: nat :| HandHas(s, i, m) { assert HandHas(s', i, m); }
      } else {
        assert m == t && s'.queue[|s.queue|] == t;
      }
    }
    assert !Known(s.hist, t) && Known(s'.hist, t);
    assert forall m :: Known(s.hist, m) ==> Known(s'.hist, m) && m != t;
    forall m | m in s'.queue ensures Known(s'.hist, m) && m !in s'.hist.settled {
      assert m in s.queue || m == t;
    }
  }

  lemma TakesKeeps(s: State, s': State, i: nat)
    requires OnePlace(s) && NoneMissing(s) && Takes(s, s', i)
    ensures OnePlace(s') && NoneMissing(s')
  {
    var t := s.queue[0];
    assert s.queue == [t] + s'.queue && t in s.queue;
    assert t !in s'.queue;
    assert forall m :: m in s'.queue ==> m in s.queue;
    forall m | m in s'.hist.accepted ensures Somewhere(s', m) {
      assert Somewhere(s, m);
      if m == t {
        assert HandHas(s', i, m);
      } else if j: nat :| HandHas(s, j, m) {
        assert HandHas(s', j, m);
      } else {
        assert m in [t] + s'.queue || m in s.hist.settled;
      }
    }
  }

  lemma PutsBackKeeps(s: State, s': State, i: nat, t: Ticket)
    requires OnePlace(s) && NoneMissing(s) && PutsBack(s, s', i, t)
    ensures OnePlace(s') && NoneMissing(s')
  {
    forall m | m in s'.hist.accepted ensures Somewhere(s', m) {
      assert Somewhere(s, m);
      if m == t {
        assert s'.queue[0] == t;
      } else if j: nat :| HandHas(s, j, m) {
        assert HandHas(s', j, m);
      }
    }
  }

  lemma LetsGoKeeps(s: State, s': State, i: nat, t: Ticket, f: Fate)
    requires OnePlace(s) && NoneMissing(s) && LetsGo(s, s', i, t, f)
    ensures OnePlace(s') && NoneMissing(s')
  {
    forall m | m in s'.hist.accepted ensures Somewhere(s', m) {
      assert Somewhere(s, m);
      if m == t {
        assert s'.hist.settled[|s.hist.settled|] == t;
      } else if j: nat :| HandHas(s, j, m) {
        assert HandHas(s', j, m);
      }
    }
  }

  // ---------------------------------------------------------------- what each event moves

  /** A fate that a send function's answer decides. */
  predicate Verdictive(f: Fate) { f.Sent? || f.NoResult? || f.Error? }

  /** No record but, at most, a cancellation. */
  ghost predicate NoVerdict(h: History, h': History) {
    h'.records == h.records || exists m :: h'.records == h.records + [Entry(m, Cancelled)]
  }

  /** What an event other than the end of a call moves: it never decides a fate that an answer decides. */
  ghost predicate Silent(s: State, s': State) {
    && NoVerdict(s.hist, s'.hist)
    && (|| Still(s, s') || (exists m :: Joins(s, s', m)) || (exists i: nat :: Takes(s, s', i))
        || (exists i: nat, m :: PutsBack(s, s', i, m))
        || (exists i: nat, m, f :: !Verdictive(f) && LetsGo(s, s', i, m, f)))
  }

  lemma EndSilent(s: State, i: nat, status: Status, f: Fate)
    requires i < |s.tasks| && !Verdictive(f)
    ensures Silent(s, End(s, i, status, f)) && End(s, i, status, f).hist.records == s.hist.records
  {
    var s' := End(s, i, status, f);
    if s.tasks[i].held.Some? {
      assert LetsGo(s, s', i, s.tasks[i].held.value, f);
    } else {
      assert Still(s, s');
    }
  }

  lemma CancelSilent(s: State, i: nat, status: Status)
    requires i < |s.tasks|
    ensures Silent(s, Cancel(s, i, status))
  {
    var t, s' := s.tasks[i], Cancel(s, i, status);
    if !Catches(t.pc) {
      EndSilent(s, i, status, Abandoned);
    } else {
      if t.held.Some? {
        assert LetsGo(s, s', i, t.held.value, Cancelled);
      } else {
        assert Still(s, s');
      }
      if Remembers(t).Some? {
        assert s'.hist.records == s.hist.records + [Entry(Remembers(t).value, Cancelled)];
      }
    }
  }

  lemma RequeueSilent(s: State, i: nat)
    requires Holds(s, i)
    ensures Silent(s, Requeue(s, i, s.tasks[i].held.value))
  {
    var m := s.tasks[i].held.value;
    var s' := Requeue(s, i, m);
    if |s.queue| >= MAX_QUEUE_SIZE {
      assert LetsGo(s, s', i, m, RequeueDropped);
    } else {
      assert PutsBack(s, s', i, m);
    }
  }

  lemma AskedSilent(s: State, e: Event)
    requires Enabled(s, e) && (e.Check? || e.Wake? || e.Final?)
    ensures Silent(s, Apply(s, e))
  {
    if e.v.NotReady? && !e.Check? {
      RequeueSilent(s, e.i);
    } else {
      assert Still(s, Apply(s, e));
    }
  }

  lemma ProducerSilent(s: State, e: Event)
    requires Enabled(s, e) && (e.Offer? || e.Pop?)
    ensures Silent(s, Apply(s, e))
  {
    var s' := Apply(s, e);
    if e.Pop? && s.queue != [] {
      assert Takes(s, s', e.i);
    } else if e.Offer? && s'.queue != s.queue {
      assert Joins(s, s', Ticket(|s.hist.accepted|, e.m));
    } else {
      assert Still(s, s');
    }
  }

  lemma ControlSilent(s: State, e: Event)
    requires Enabled(s, e) && IsControl(e)
    ensures Silent(s, Apply(s, e))
  {
    ControlStands(s, e);
    ControlKeepsHands(s, e);
  }

  lemma ControlKeepsHands(s: State, e: Event)
    requires Enabled(s, e) && IsControl(e)
    ensures forall i: nat, m :: HandHas(Apply(s, e), i, m) <==> HandHas(s, i, m)
  {
  }

  lemma StepSilent(s: State, e: Event)
    requires Enabled(s, e)
    requires e.LoopTest? || e.Pace? || e.Returns? || e.OrphanReturns? || e.MappingEnds? || e.BackoffEnds? || e.CancelOutside?
    ensures Silent(s, Apply(s, e))
  {
    if e.LoopTest? && !s.ctl.running {
      EndSilent(s, e.i, Finished, Abandoned);
    } else {
      assert Still(s, Apply(s, e));
    }
  }

  lemma RunOutSilent(s: State, k: nat, finished: bool)
    requires Enabled(s, RunOut(k, finished))
    ensures Silent(s, Apply(s, RunOut(k, finished)))
  {
    var i, s' := s.ctl.stops[k].task.value, Apply(s, RunOut(k, finished));
    var ran := RanOut(s, i, finished);
    if s.tasks[i].status.Finished? {
      assert Still(s, s');
    } else {
      if finished { CancelSilent(s, i, Finished); } else { EndSilent(s, i, Doomed, Abandoned); }
      SameHistory(s, ran, s');
    }
  }

  lemma SameHistory(s: State, ran: State, s': State)
    requires Silent(s, ran) && s'.hist == ran.hist && s'.queue == ran.queue && s'.tasks == ran.tasks
    ensures Silent(s, s')
  {
    assert forall i: nat, m :: HandHas(s', i, m) <==> HandHas(ran, i, m);
    if m :| Joins(s, ran, m) {
      assert Joins(s, s', m);
    } else if i: nat :| Takes(s, ran, i) {
      assert Takes(s, s', i);
    } else if i: nat, m :| PutsBack(s, ran, i, m) {
      assert PutsBack(s, s', i, m);
    } else if i: nat, m, f :| !Verdictive(f) && LetsGo(s, ran, i, m, f) {
      assert LetsGo(s, s', i, m, f);
    }
  }

  lemma EventSilent(s: State, e: Event)
    requires Enabled(s, e) && !e.SendEnds?
    ensures Silent(s, Apply(s, e))
  {
    if e.CancelHits? {
      CancelSilent(s, e.i, Finished);
    } else if e.LoopCloses? {
      EndSilent(s, e.i, Stranded, Abandoned);
    } else if e.RunOut? {
      RunOutSilent(s, e.k, e.finished);
    } else if e.Check? || e.Wake? || e.Final? {
      AskedSilent(s, e);
    } else if e.Offer? || e.Pop? {
      ProducerSilent(s, e);
    } else if IsControl(e) {
      ControlSilent(s, e);
    } else {
      StepSilent(s, e);
    }
  }

  /** The fate an answer decides, and nothing for a lost connection. */
  predicate Matches(f: Fate, a: Option<SendResult>) {
    && (f.Sent? <==> a == Some(Delivered))
    && (f.NoResult? <==> a == Some(Empty))
    && (f.Error? <==> a == Some(Rejected))
  }

  lemma SendEndMoves(s: State, i: nat, maps: bool)
    requires Enabled(s, SendEnds(i, maps))
    ensures var s', m, a := Apply(s, SendEnds(i, maps)), s.tasks[i].held.value, s.tasks[i].pc.answer.value;
      || (a.ConnectionLost? && PutsBack(s, s', i, m) && s'.hist.records == s.hist.records)
      || exists f :: LetsGo(s, s', i, m, f) && Matches(f, Some(a))
                     && s'.hist.records == s.hist.records + if Verdictive(f) then [Entry(m, f)] else []
  {
    var s', m := Apply(s, SendEnds(i, maps)), s.tasks[i].held.value;
    match s.tasks[i].pc.answer.value
    case ConnectionLost =>
      LostGoesBack(s, i, maps);
      assert |s.queue| < MAX_QUEUE_SIZE || LetsGo(s, s', i, m, RequeueDropped);
    case Rejected =>
      RejectedIsError(s, i, maps);
      assert LetsGo(s, s', i, m, Error);
    case Empty =>
      EmptyIsNoResult(s, i, maps);
      assert LetsGo(s, s', i, m, NoResult);
    case Delivered =>
      DeliveredIsSent(s, i, maps);
      assert LetsGo(s, s', i, m, Sent);
  }

  // ---------------------------------------------------------------- invariant

  /** The returned answers are those the coroutines wait to hear. */
  ghost predicate PendingOk(s: State, log: Log) {
    forall i: nat :: i < |s.tasks| && s.tasks[i].pc.Sending? && s.tasks[i].pc.answer.Some? ==>
      i in log.pending && log.pending[i] == s.tasks[i].pc.answer.value
  }

  ghost predicate HadFate(h: History, m: Ticket, f: Fate) {
    |h.settled| == |h.fates| && exists k :: 0 <= k < |h.settled| && h.settled[k] == m && h.fates[k] == f
  }

  /** Fates and records follow the last answers. */
  ghost predicate FatesFollow(h: History, heard: seq<Heard>) {
    && |h.settled| == |h.fates|
    && (forall k :: 0 <= k < |h.settled| ==> Matches(h.fates[k], LastAnswer(heard, h.settled[k])))
    && (forall x: Heard :: x in heard && !x.answer.ConnectionLost? ==> x.ticket in h.settled)
  }

  ghost predicate RecordsFollow(h: History) {
    forall x: Entry :: Verdictive(x.status) ==> (x in h.records <==> HadFate(h, x.ticket, x.status))
  }

  ghost predicate OutcomeInv(s: State, log: Log) {
    OnePlace(s) && NoneMissing(s) && PendingOk(s, log) && FatesFollow(s.hist, log.heard) && RecordsFollow(s.hist)
  }

  lemma SilentPlaces(s: State, s': State)
    requires OnePlace(s) && NoneMissing(s) && Silent(s, s')
    ensures OnePlace(s') && NoneMissing(s')
  {
    if Still(s, s') {
      StillKeeps(s, s');
    } else if m :| Joins(s, s', m) {
      JoinsKeeps(s, s', m);
    } else if i: nat :| Takes(s, s', i) {
      TakesKeeps(s, s', i);
    } else if i: nat, m :| PutsBack(s, s', i, m) {
      PutsBackKeeps(s, s', i, m);
    } else {
      var i: nat, m, f :| !Verdictive(f) && LetsGo(s, s', i, m, f);
      LetsGoKeeps(s, s', i, m, f);
    }
  }

  lemma HadFateMore(h: History, h': History, m: Ticket, f: Fate)
    requires |h.settled| == |h.fates| && h'.settled == h.settled + [m] && h'.fates == h.fates + [f]
    ensures forall x, g :: HadFate(h', x, g) <==> (HadFate(h, x, g) || (x == m && g == f))
  {
    forall x, g ensures HadFate(h', x, g) <==> (HadFate(h, x, g) || (x == m && g == f)) {
      if HadFate(h, x, g) {
        var k :| 0 <= k < |h.settled| && h.settled[k] == x && h.fates[k] == g;
        assert h'.settled[k] == x && h'.fates[k] == g;
      }
      if x == m && g == f { assert h'.settled[|h.settled|] == x && h'.fates[|h.settled|] == g; }
    }
  }

  /** A message that leaves without an answer had none that decides a fate. */
  lemma UnansweredFate(h: History, heard: seq<Heard>, m: Ticket, f: Fate)
    requires FatesFollow(h, heard) && m !in h.settled && !Verdictive(f)
    ensures Matches(f, LastAnswer(heard, m))
  {
    LastWasHeard(heard, m);
  }

  lemma SilentFates(s: State, s': State, heard: seq<Heard>)
    requires OnePlace(s) && FatesFollow(s.hist, heard) && Silent(s, s')
    ensures FatesFollow(s'.hist, heard)
  {
    if i: nat, m, f :| !Verdictive(f) && LetsGo(s, s', i, m, f) {
      UnansweredFate(s.hist, heard, m, f);
    }
  }

  lemma SilentRecords(s: State, s': State)
    requires |s.hist.settled| == |s.hist.fates| && RecordsFollow(s.hist) && Silent(s, s')
    ensures RecordsFollow(s'.hist)
  {
    assert forall x: Entry :: Verdictive(x.status) ==> (x in s'.hist.records <==> x in s.hist.records);
    if i: nat, m, f :| !Verdictive(f) && LetsGo(s, s', i, m, f) {
      HadFateMore(s.hist, s'.hist, m, f);
    } else {
      assert forall m, f :: HadFate(s'.hist, m, f) <==> HadFate(s.hist, m, f);
    }
  }

  /** Only a return puts an answer in front of a coroutine. */
  lemma PendingStep(s: State, log: Log, e: Event)
    requires Enabled(s, e) && PendingOk(s, log)
    ensures PendingOk(Apply(s, e), Logged(s, log, e))
  {
    if IsControl(e) {
      ControlAnswers(s, e);
    } else if e.Returns? {
    } else {
      CoroutineAnswers(s, e);
    }
  }

  ghost predicate NoNewAnswer(s: State, s': State) {
    forall i: nat :: i < |s'.tasks| && s'.tasks[i].pc.Sending? && s'.tasks[i].pc.answer.Some? ==>
      i < |s.tasks| && s.tasks[i].pc == s'.tasks[i].pc
  }

  lemma ControlAnswers(s: State, e: Event)
    requires Enabled(s, e) && IsControl(e)
    ensures NoNewAnswer(s, Apply(s, e))
  {
  }

  lemma EndAnswers(s: State, i: nat, status: Status, f: Fate)
    requires i < |s.tasks|
    ensures NoNewAnswer(s, End(s, i, status, f))
  {
  }

  lemma CancelAnswers(s: State, i: nat, status: Status)
    requires i < |s.tasks|
    ensures NoNewAnswer(s, Cancel(s, i, status))
  {
    EndAnswers(s, i, status, if Catches(s.tasks[i].pc) then Cancelled else Abandoned);
  }

  lemma RequeueAnswers(s: State, i: nat)
    requires Holds(s, i)
    ensures NoNewAnswer(s, Requeue(s, i, s.tasks[i].held.value))
  {
  }

  lemma SendEndAnswers(s: State, i: nat, maps: bool)
    requires Enabled(s, SendEnds(i, maps))
    ensures NoNewAnswer(s, Apply(s, SendEnds(i, maps)))
  {
    match s.tasks[i].pc.answer.value
    case ConnectionLost => LostGoesBack(s, i, maps);
    case Rejected => RejectedIsError(s, i, maps);
    case Empty => EmptyIsNoResult(s, i, maps);
    case Delivered => DeliveredIsSent(s, i, maps);
  }

  lemma MoveAnswers(s: State, e: Event)
    requires Enabled(s, e)
    requires || e.Offer? || e.Pop? || e.Pace? || e.OrphanReturns? || e.MappingEnds? || e.BackoffEnds?
             || e.CancelOutside? || e.Check?
    ensures NoNewAnswer(s, Apply(s, e))
  {
  }

  lemma AskedAnswers(s: State, e: Event)
    requires Enabled(s, e) && (e.Wake? || e.Final?)
    ensures NoNewAnswer(s, Apply(s, e))
  {
    RequeueAnswers(s, e.i);
  }

  lemma CoroutineAnswers(s: State, e: Event)
    requires Enabled(s, e) && !IsControl(e) && !e.Returns?
    ensures NoNewAnswer(s, Apply(s, e))
  {
    if e.SendEnds? {
      SendEndAnswers(s, e.i, e.maps);
    } else if e.CancelHits? {
      CancelAnswers(s, e.i, Finished);
    } else if e.LoopCloses? {
      EndAnswers(s, e.i, Stranded, Abandoned);
    } else if e.LoopTest? {
      EndAnswers(s, e.i, Finished, Abandoned);
    } else if e.RunOut? {
      RunOutAnswers(s, e.k, e.finished);
    } else if e.Wake? || e.Final? {
      AskedAnswers(s, e);
    } else {
      MoveAnswers(s, e);
    }
  }

  lemma RunOutAnswers(s: State, k: nat, finished: bool)
    requires Enabled(s, RunOut(k, finished))
    ensures NoNewAnswer(s, Apply(s, RunOut(k, finished)))
  {
    var i := s.ctl.stops[k].task.value;
    CancelAnswers(s, i, Finished);
    EndAnswers(s, i, Doomed, Abandoned);
  }

  lemma SendEndKeeps(s: State, log: Log, i: nat, maps: bool)
    requires OutcomeInv(s, log) && Enabled(s, SendEnds(i, maps))
    ensures OutcomeInv(Apply(s, SendEnds(i, maps)), Logged(s, log, SendEnds(i, maps)))
  {
    var s', m, a := Apply(s, SendEnds(i, maps)), s.tasks[i].held.value, s.tasks[i].pc.answer.value;
    PendingStep(s, log, SendEnds(i, maps));
    SendEndMoves(s, i, maps);
    assert HandHas(s, i, m);
    if PutsBack(s, s', i, m) && a.ConnectionLost? {
      PutsBackKeeps(s, s', i, m);
      PutBackFates(s.hist, s'.hist, log.heard, m);
    } else {
      var f :| LetsGo(s, s', i, m, f) && Matches(f, Some(a))
               && s'.hist.records == s.hist.records + if Verdictive(f) then [Entry(m, f)] else [];
      LetsGoKeeps(s, s', i, m, f);
      AnsweredFates(s.hist, s'.hist, log.heard, m, a, f);
    }
  }

  lemma PutBackFates(h: History, h': History, heard: seq<Heard>, m: Ticket)
    requires FatesFollow(h, heard) && RecordsFollow(h) && m !in h.settled
    requires h'.settled == h.settled && h'.fates == h.fates && h'.records == h.records
    ensures FatesFollow(h', heard + [Heard(m, ConnectionLost)]) && RecordsFollow(h')
  {
    forall k | 0 <= k < |h.settled|
      ensures LastAnswer(heard + [Heard(m, ConnectionLost)], h.settled[k]) == LastAnswer(heard, h.settled[k])
    {
      LastAnswerMore(heard, Heard(m, ConnectionLost), h.settled[k]);
    }
    assert forall x, f :: HadFate(h', x, f) <==> HadFate(h, x, f);
  }

  lemma AnsweredFates(h: History, h': History, heard: seq<Heard>, m: Ticket, a: SendResult, f: Fate)
    requires FatesFollow(h, heard) && RecordsFollow(h) && m !in h.settled && Matches(f, Some(a))
    requires h'.settled == h.settled + [m] && h'.fates == h.fates + [f]
    requires h'.records == h.records + if Verdictive(f) then [Entry(m, f)] else []
    ensures FatesFollow(h', heard + [Heard(m, a)]) && RecordsFollow(h')
  {
    forall k | 0 <= k < |h'.settled| ensures Matches(h'.fates[k], LastAnswer(heard + [Heard(m, a)], h'.settled[k])) {
      LastAnswerMore(heard, Heard(m, a), h'.settled[k]);
    }
    HadFateMore(h, h', m, f);
  }

  /** Every event keeps it, whatever the interleaving. */
  lemma OutcomeStep(s: State, log: Log, e: Event)
    requires OutcomeInv(s, log) && Enabled(s, e)
    ensures OutcomeInv(Apply(s, e), Logged(s, log, e))
  {
    if e.SendEnds? {
      SendEndKeeps(s, log, e.i, e.maps);
    } else {
      EventSilent(s, e);
      SilentPlaces(s, Apply(s, e));
      SilentFates(s, Apply(s, e), log.heard);
      SilentRecords(s, Apply(s, e));
      PendingStep(s, log, e);
    }
  }

  lemma {:induction false} OutcomeRun(s: State, log: Log, es: seq<Event>, s': State)
    requires OutcomeInv(s, log) && Run(s, es, s')
    ensures OutcomeInv(s', LogOf(s, log, es))
    decreases |es|
  {
    if es != [] {
      OutcomeStep(s, log, es[0]);
      OutcomeRun(Apply(s, es[0]), Logged(s, log, es[0]), es[1..], s');
    }
  }

  /**
   Over every run: a settled message was sent, gave no result or failed exactly if the last
   answer heard for it was a delivery, an empty one or a rejection, and it has the record
   of that name exactly then; and an answer other than a lost connection settles its message.
   */
  lemma AnswersDecideFates(now: real, es: seq<Event>, s: State, k: nat)
    requires Run(Initial(now), es, s) && k < |s.hist.settled|
    ensures |s.hist.fates| == |s.hist.settled|
    ensures var m, f, last := s.hist.settled[k], s.hist.fates[k], LastAnswer(Answers(now, es), s.hist.settled[k]);
      && (last == Some(Delivered) <==> f == Sent) && (f == Sent <==> Entry(m, Sent) in s.hist.records)
      && (last == Some(Empty) <==> f == NoResult) && (f == NoResult <==> Entry(m, NoResult) in s.hist.records)
      && (last == Some(Rejected) <==> f == Error) && (f == Error <==> Entry(m, Error) in s.hist.records)
    ensures forall x :: x in Answers(now, es) && x.answer != ConnectionLost ==> x.ticket in s.hist.settled
  {
    assert OutcomeInv(Initial(now), NO_LOG);
    OutcomeRun(Initial(now), NO_LOG, es, s);
    forall f | Verdictive(f) ensures Entry(s.hist.settled[k], f) in s.hist.records <==> s.hist.fates[k] == f {
      assert Entry(s.hist.settled[k], f) in s.hist.records <==> HadFate(s.hist, s.hist.settled[k], f);
    }
  }

  /** Over every run, even with two processors: every accepted message is in exactly one place. */
  lemma NothingLostOrDoubled(now: real, es: seq<Event>, s: State)
    requires Run(Initial(now), es, s)
    ensures OnePlace(s) && NoneMissing(s)
  {
    assert OutcomeInv(Initial(now), NO_LOG);
    OutcomeRun(Initial(now), NO_LOG, es, s);
  }
}
