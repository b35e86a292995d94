/**
 `MessageQueue` as a transition system: concurrent producers, the processor coroutine step
 by step, and the start/stop machinery with its watchdogs.

 Each event is a stretch of the original that no other thread can split: a block under
 `_lock`, one deque operation, or the code of the coroutine between two points where
 another thread's action could matter.
 */
module QueueModel {
  import opened Common

  const MAX_QUEUE_SIZE := 500

  datatype Message = Message(payload: nat, minDelay: Option<real>)

  /** An accepted message; `place` is its position in the order of acceptance and tells it from its equals. */
  datatype Ticket = Ticket(place: nat, message: Message)

  /** How an accepted message left the queue for good. */
  datatype Fate =
    | Sent | NoResult | Error    // recorded in the sent history
    | Cancelled                  // dropped in flight by a cancellation
    | RequeueDropped             // could not be put back, the queue was full
    | Abandoned                  // the loop ended, or can never go on, with the message in hand

  datatype SendResult = Delivered | Empty | ConnectionLost | Rejected

  /** Where the coroutine is; see `AtAwait` for the places where it can be cancelled. */
  datatype Pc =
    | Created                    // scheduled, its first step is still to come
    | LoopTop                    // about to test `_running`, perhaps after a sleep
    | Fetch                      // about to pop
    | CheckReady                 // about to ask whether the connection is up
    | Pacing                     // about to compare with the last send
    | Resting(until: real)       // sleeping for the rate limit
    | FinalCheck                 // about to ask a last time
    | Sending(pool: Option<nat>, answer: Option<SendResult>)  // `run_in_executor` pending, or done and not seen yet
    | Mapping(sent: Ticket)      // storing the message mapping after a send
    | Backoff                    // sleeping in the outer exception handler

  datatype Status =
    | Active
    | Cancelling                 // `cancel()` was called, the exception is not delivered yet
    | Finished                   // `done()`
    | Stranded                   // its event loop was closed under it
    | Doomed                     // cancelled, but its loop is not running: it can only ever see the exception

  /** `left` is what a doomed coroutine had in hand and still remembers. */
  datatype Task = Task(status: Status, pc: Pc, held: Option<Ticket>, left: Option<Ticket>)

  /** The closure variables of one `stop()` call. */
  datatype Stop = Stop(task: Option<nat>, executor: Option<nat>, taskDone: bool, executorDone: bool)

  /** What start, stop and their watchdogs share. */
  datatype Control = Control(
    running: bool, stopping: bool, stopFailed: bool,
    task: Option<nat>,           // `_processor_task`, an index into the coroutines
    executor: Option<nat>,       // `_executor`, an index into `pools`
    pools: seq<bool>,            // thread pools ever created; true until shut down
    stops: seq<Stop>,            // every `stop()` that passed its guard
    latches: nat)                // watchdogs that saw a timeout and have not latched it yet

  /** A send function returned without an error. */
  datatype Completion = Completion(place: nat, time: real)

  /** An entry that `_record_sent_history` wrote. */
  datatype Entry = Entry(ticket: Ticket, status: Fate)

  /** What happened so far; the program keeps only the newest records. */
  datatype History = History(
    accepted: seq<Ticket>,       // appended by `enqueue`, in order
    settled: seq<Ticket>,        // left for good, in order
    fates: seq<Fate>,            // and how
    records: seq<Entry>,         // the sent history
    refused: nat,                // turned away because the queue was full
    attempts: seq<Ticket>,       // the messages handed to a send function
    completions: seq<Completion>,  // sends that took place
    sends: seq<real>)            // the times at which the processor saw a send completed

  datatype State = State(
    ctl: Control,
    tasks: seq<Task>,            // every processor coroutine ever created
    orphans: map<nat, nat>,      // pools at work on a send nobody waits for, and the message's place
    queue: seq<Ticket>,
    delay: real, lastSend: real, now: real,
    inFlight: bool, hasCurrent: bool, dropped: nat,
    hist: History)

  datatype Verdict = Ready | NotReady | Raises

  datatype Event =
    | Offer(m: Message, first: bool, waits: bool)  // one turn of the loop in `enqueue`
    | LoopTest(i: nat)
    | Pop(i: nat)
    | Check(i: nat, v: Verdict)
    | Pace(i: nat)
    | Wake(i: nat, v: Verdict)
    | Final(i: nat, v: Verdict)
    | Returns(i: nat, r: SendResult)               // the send function returns in the pool
    | SendEnds(i: nat, maps: bool)                 // and the coroutine goes on; `maps`: there is a mapping to store
    | OrphanReturns(pool: nat, completed: bool)    // a send function returns and nobody waits for it
    | MappingEnds(i: nat)
    | BackoffEnds(i: nat)
    | CancelHits(i: nat)
    | CancelOutside(i: nat)
    | LoopCloses(i: nat)
    | Tick(dt: real)
    | Start(delay: real, loop: bool)
    | Ensure(loop: bool)
    | StopBegin
    | CancelHandler(k: nat)
    | DoneCallback(k: nat)
    | RunOut(k: nat, finished: bool)
    | SeeClosedLoop(k: nat)
    | ExecutorDown(k: nat)
    | Finalize(k: nat)
    | TimeoutSeen(k: nat)
    | Latch
    | ResetFailed

  // ---------------------------------------------------------------- helpers

  const INITIAL_DELAY := 2.5

  function Initial(now: real): State {
    State(Control(false, false, false, None, None, [], [], 0), [], map[], [], INITIAL_DELAY, 0.0, now, false, false, 0,
          History([], [], [], [], 0, [], [], []))
  }

  predicate Live(t: Task) { t.status.Active? || t.status.Cancelling? }

  predicate AtAwait(pc: Pc) {
    pc.Created? || pc.LoopTop? || pc.Resting? || pc.Sending? || pc.Mapping? || pc.Backoff?
  }

  predicate Completes(r: SendResult) { r.Delivered? || r.Empty? }

  /** `effective_delay` */
  function Gap(delay: real, m: Message): real {
    if m.minDelay.Some? && m.minDelay.value > delay then m.minDelay.value else delay
  }

  function Put(s: State, i: nat, t: Task): State
    requires i < |s.tasks|
  {
    s.(tasks := s.tasks[i := t])
  }

  function Go(s: State, i: nat, pc: Pc): State
    requires i < |s.tasks|
  {
    Put(s, i, s.tasks[i].(pc := pc))
  }

  function LetGo(s: State, i: nat, pc: Pc): State
    requires i < |s.tasks|
  {
    Put(s, i, s.tasks[i].(pc := pc, held := None))
  }

  function Settle(s: State, m: Ticket, f: Fate): State {
    s.(hist := s.hist.(settled := s.hist.settled + [m], fates := s.hist.fates + [f]))
  }

  /** `_record_sent_history` */
  function Record(s: State, m: Ticket, f: Fate): State {
    s.(hist := s.hist.(records := s.hist.records + [Entry(m, f)]))
  }

  /** `_requeue_message`, and the coroutine lets go of the message. */
  function Requeue(s: State, i: nat, m: Ticket): State
    requires i < |s.tasks|
  {
    var free := LetGo(s, i, LoopTop).(hasCurrent := false);
    if |s.queue| >= MAX_QUEUE_SIZE then Settle(free, m, RequeueDropped).(dropped := s.dropped + 1)
    else free.(queue := [m] + s.queue)
  }

  /** Coroutine `t` waits for a call in pool `x` that has not returned. */
  predicate Calls(t: Task, x: nat) { Live(t) && t.pc.Sending? && t.pc.pool == Some(x) && t.pc.answer.None? }

  predicate IsOpen(c: Control, x: nat) { x < |c.pools| && c.pools[x] }

  /**
   The send function of `t` runs on without it: a running call cannot be cancelled. Behind
   an earlier orphan it has not begun, and is withdrawn.
   */
  function Orphaned(s: State, t: Task): map<nat, nat> {
    if t.held.Some? && t.pc.Sending? && t.pc.pool.Some? && Calls(t, t.pc.pool.value)
       && IsOpen(s.ctl, t.pc.pool.value) && t.pc.pool.value !in s.orphans
    then s.orphans[t.pc.pool.value := t.held.value.place]
    else s.orphans
  }

  /** The coroutine ends, or can never go on; a message in its hand is lost. */
  function End(s: State, i: nat, status: Status, f: Fate): State
    requires i < |s.tasks|
  {
    var t := s.tasks[i];
    var left := if status.Doomed? then t.held else None;
    var ended := Put(s, i, t.(status := status, held := None, left := left)).(orphans := Orphaned(s, t));
    if t.held.Some? then Settle(ended, t.held.value, f) else ended
  }

  /** Whether a cancellation is caught: inside the loop's `try`, not in its exception handler. */
  predicate Catches(pc: Pc) { !pc.Created? && !pc.Backoff? }

  /** `current_message` */
  function Remembers(t: Task): Option<Ticket> {
    if t.held.Some? then t.held else if t.pc.Mapping? then Some(t.pc.sent) else t.left
  }

  /** A pending cancellation is delivered. */
  function Cancel(s: State, i: nat, status: Status): State
    requires i < |s.tasks|
  {
    var t := s.tasks[i];
    if !Catches(t.pc) then End(s, i, status, Abandoned)
    else
      var ended := End(s, i, status, Cancelled).(inFlight := false, hasCurrent := false);
      if Remembers(t).Some? then Record(ended, Remembers(t).value, Cancelled) else ended
  }

  predicate TaskInactive(c: Control, tasks: seq<Task>) {
    c.task.None? || c.task.value >= |tasks| || tasks[c.task.value].status.Finished?
  }

  predicate Recovered(c: Control, tasks: seq<Task>) {
    c.stopFailed && !c.running && TaskInactive(c, tasks) && c.executor.None?
  }

  /** `_clear_failed_stop_state_if_recovered_locked` */
  function Clear(c: Control, tasks: seq<Task>): Control {
    if Recovered(c, tasks) then c.(task := None, stopping := false, stopFailed := false) else c
  }

  const NEW_TASK := Task(Active, Created, None, None)

  predicate Starts(c: Control) { !c.stopFailed && !c.running && !c.stopping }

  function StartBody(s: State, delay: real, loop: bool): State {
    if !Starts(s.ctl) then s
    else
      var pooled := if s.ctl.executor.Some? then s.ctl
                    else s.ctl.(pools := s.ctl.pools + [true], executor := Some(|s.ctl.pools|));
      var on := pooled.(running := true, task := if loop then Some(|s.tasks|) else pooled.task);
      s.(ctl := on, delay := delay, tasks := if loop then s.tasks + [NEW_TASK] else s.tasks)
  }

  function EnsureBody(s: State, loop: bool): State {
    if !TaskInactive(s.ctl, s.tasks) then s
    else if s.ctl.running && !s.ctl.stopFailed && loop
    then s.(ctl := s.ctl.(task := Some(|s.tasks|)), tasks := s.tasks + [NEW_TASK])
    else s.(ctl := s.ctl.(task := None))
  }

  function PutStop(c: Control, k: nat, st: Stop): Control
    requires k < |c.stops|
  {
    c.(stops := c.stops[k := st])
  }

  /** `_finalize_stop_state` of the k-th stop. */
  function Finalized(c: Control, tasks: seq<Task>, k: nat): Control
    requires k < |c.stops|
  {
    var st := c.stops[k];
    if !(st.taskDone && st.executorDone) then c
    else
      var freed := c.(task := if st.task.Some? && c.task == st.task then None else c.task,
                      executor := if st.executor.Some? && c.executor == st.executor then None else c.executor);
      if c.stopFailed then Clear(freed, tasks) else freed.(stopping := false)
  }

  /** The k-th stop is complete and its coroutine is still the registered one. */
  predicate Owns(c: Control, k: nat)
    requires k < |c.stops|
  {
    c.stops[k].taskDone && c.stops[k].executorDone && c.stops[k].task.Some? && c.task == c.stops[k].task
  }

  function FinalizeBody(s: State, k: nat): State
    requires k < |s.ctl.stops|
  {
    s.(ctl := Finalized(s.ctl, s.tasks, k),
       inFlight := s.inFlight && !Owns(s.ctl, k), hasCurrent := s.hasCurrent && !Owns(s.ctl, k))
  }

  function OfferBody(s: State, m: Message, first: bool, waits: bool): State {
    if (first && s.ctl.stopFailed) || !s.ctl.running || s.ctl.stopping then s
    else if |s.queue| >= MAX_QUEUE_SIZE then
      if waits then s else s.(dropped := s.dropped + 1, hist := s.hist.(refused := s.hist.refused + 1))
    else
      var ticket := Ticket(|s.hist.accepted|, m);
      s.(queue := s.queue + [ticket], hist := s.hist.(accepted := s.hist.accepted + [ticket]))
  }

  // ---------------------------------------------------------------- transitions

  predicate Runs(s: State, i: nat) { i < |s.tasks| && s.tasks[i].status.Active? }

  predicate Holds(s: State, i: nat) { Runs(s, i) && s.tasks[i].held.Some? }

  /** The k-th stop has a coroutine and still waits for it. */
  predicate Awaits(s: State, k: nat) {
    && k < |s.ctl.stops| && s.ctl.stops[k].task.Some? && s.ctl.stops[k].task.value < |s.tasks|
    && !s.ctl.stops[k].taskDone
  }

  function StoppedTask(s: State, k: nat): Task
    requires Awaits(s, k)
  {
    s.tasks[s.ctl.stops[k].task.value]
  }

  predicate Enabled(s: State, e: Event) {
    match e
    case Offer(_, _, _) => true
    case LoopTest(i) => Runs(s, i) && (s.tasks[i].pc.Created? || s.tasks[i].pc.LoopTop?)
    case Pop(i) => Runs(s, i) && s.tasks[i].pc.Fetch? && s.tasks[i].held.None?
    case Check(i, _) => Holds(s, i) && s.tasks[i].pc.CheckReady?
    case Pace(i) => Holds(s, i) && s.tasks[i].pc.Pacing?
    case Wake(i, _) => Holds(s, i) && s.tasks[i].pc.Resting? && s.tasks[i].pc.until <= s.now
    case Final(i, _) => Holds(s, i) && s.tasks[i].pc.FinalCheck?
    case Returns(i, r) =>
      && i < |s.tasks| && Live(s.tasks[i]) && s.tasks[i].held.Some? && s.tasks[i].pc.Sending? && s.tasks[i].pc.answer.None?
      && var pool := s.tasks[i].pc.pool;
      if pool.Some? && IsOpen(s.ctl, pool.value) then pool.value !in s.orphans else r.Rejected?
    case SendEnds(i, _) => Holds(s, i) && s.tasks[i].pc.Sending? && s.tasks[i].pc.answer.Some?
    case OrphanReturns(pool, _) => pool in s.orphans
    case MappingEnds(i) => Runs(s, i) && s.tasks[i].pc.Mapping?
    case BackoffEnds(i) => Runs(s, i) && s.tasks[i].pc.Backoff?
    case CancelHits(i) => i < |s.tasks| && (s.tasks[i].status.Cancelling? || s.tasks[i].status.Doomed?)
    case CancelOutside(i) => Runs(s, i) && AtAwait(s.tasks[i].pc)
    case LoopCloses(i) => i < |s.tasks| && Live(s.tasks[i]) && AtAwait(s.tasks[i].pc)
    case Tick(dt) => dt > 0.0
    case Start(_, _) => true
    case Ensure(_) => true
    case StopBegin => s.ctl.running
    case CancelHandler(k) =>
      Awaits(s, k) && var t := StoppedTask(s, k);
      t.status.Finished? || t.status.Cancelling? || (t.status.Active? && AtAwait(t.pc))
    case DoneCallback(k) => Awaits(s, k) && StoppedTask(s, k).status.Finished?
    case RunOut(k, _) =>
      Awaits(s, k) && var t := StoppedTask(s, k);
      t.status.Finished? || (Live(t) && AtAwait(t.pc))
    case SeeClosedLoop(k) => Awaits(s, k) && StoppedTask(s, k).status.Stranded?
    case ExecutorDown(k) =>
      && k < |s.ctl.stops| && !s.ctl.stops[k].executorDone
      && s.ctl.stops[k].executor.Some? && s.ctl.stops[k].executor.value < |s.ctl.pools|
      && s.ctl.stops[k].executor.value !in s.orphans
      && forall i :: 0 <= i < |s.tasks| ==> !Calls(s.tasks[i], s.ctl.stops[k].executor.value)
    case Finalize(k) => k < |s.ctl.stops|
    case TimeoutSeen(k) => k < |s.ctl.stops| && !(s.ctl.stops[k].taskDone && s.ctl.stops[k].executorDone)
    case Latch => s.ctl.latches > 0
    case ResetFailed => true
  }

  /** A step of coroutine `i` after the connection was asked for. */
  function Asked(s: State, i: nat, v: Verdict, yes: State, no: State): State
    requires i < |s.tasks|
  {
    match v
    case Ready => yes
    case NotReady => no
    case Raises => Go(s, i, Backoff)
  }

  function Paced(s: State, i: nat): State
    requires Holds(s, i)
  {
    var gap := Gap(s.delay, s.tasks[i].held.value.message);
    if s.lastSend > 0.0 && s.now - s.lastSend < gap
    then Go(s, i, Resting(s.now + (gap - (s.now - s.lastSend))))
    else Go(s, i, FinalCheck)
  }

  function Attempted(s: State, i: nat): State
    requires Holds(s, i)
  {
    Go(s, i, Sending(s.ctl.executor, None))
    .(inFlight := true, hist := s.hist.(attempts := s.hist.attempts + [s.tasks[i].held.value]))
  }

  function Completed(s: State, place: nat): State {
    s.(hist := s.hist.(completions := s.hist.completions + [Completion(place, s.now)]))
  }

  function Returned(s: State, i: nat, r: SendResult): State
    requires i < |s.tasks| && s.tasks[i].held.Some? && s.tasks[i].pc.Sending?
  {
    var told := Go(s, i, s.tasks[i].pc.(answer := Some(r)));
    if Completes(r) then Completed(told, s.tasks[i].held.value.place) else told
  }

  function OrphanReturned(s: State, pool: nat, completed: bool): State
    requires pool in s.orphans
  {
    var free := s.(orphans := s.orphans - {pool});
    if completed then Completed(free, s.orphans[pool]) else free
  }

  function Told(s: State, i: nat, m: Ticket, f: Fate, pc: Pc): State
    requires i < |s.tasks|
  {
    Record(Settle(LetGo(s, i, pc), m, f), m, f)
  }

  function SendEnded(s: State, i: nat, maps: bool): State
    requires Holds(s, i) && s.tasks[i].pc.Sending? && s.tasks[i].pc.answer.Some?
  {
    var m := s.tasks[i].held.value;
    match s.tasks[i].pc.answer.value
    case ConnectionLost => Requeue(s, i, m).(inFlight := false)
    case Rejected => Told(s, i, m, Error, LoopTop).(inFlight := false, hasCurrent := false)
    case Empty => Seen(Told(s, i, m, NoResult, LoopTop)).(inFlight := false, hasCurrent := false)
    case Delivered =>
      if maps then Seen(Told(s, i, m, Sent, Mapping(m)))
      else Seen(Told(s, i, m, Sent, LoopTop)).(inFlight := false, hasCurrent := false)
  }

  function Seen(s: State): State { s.(lastSend := s.now, hist := s.hist.(sends := s.hist.sends + [s.now])) }

  /** Coroutine of the k-th stop driven to its end, or cancelled for good. */
  function RanOut(s: State, i: nat, finished: bool): State
    requires i < |s.tasks|
  {
    if s.tasks[i].status.Finished? then s
    else if finished then Cancel(s, i, Finished)
    else End(s, i, Doomed, Abandoned)
  }

  function RunOutBody(s: State, k: nat, finished: bool): State
    requires Awaits(s, k)
  {
    RanOut(s, s.ctl.stops[k].task.value, finished).(ctl := PutStop(s.ctl, k, s.ctl.stops[k].(taskDone := true)))
  }

  function Apply(s: State, e: Event): State
    requires Enabled(s, e)
  {
    match e
    case Offer(m, first, waits) =>
      OfferBody(if first then s.(ctl := Clear(s.ctl, s.tasks)) else s, m, first, waits)
    case LoopTest(i) =>
      if !s.ctl.running then End(s, i, Finished, Abandoned)
      else Go(s, i, if s.tasks[i].held.None? then Fetch else CheckReady)
    case Pop(i) =>
      if s.queue == [] then Go(s, i, LoopTop)
      else Put(s, i, s.tasks[i].(pc := CheckReady, held := Some(s.queue[0]))).(queue := s.queue[1..], hasCurrent := true)
    case Check(i, v) => Asked(s, i, v, Go(s, i, Pacing), Go(s, i, LoopTop))
    case Pace(i) => Paced(s, i)
    case Wake(i, v) => Asked(s, i, v, Go(s, i, FinalCheck), Requeue(s, i, s.tasks[i].held.value))
    case Final(i, v) => Asked(s, i, v, Attempted(s, i), Requeue(s, i, s.tasks[i].held.value))
    case Returns(i, r) => Returned(s, i, r)
    case SendEnds(i, maps) => SendEnded(s, i, maps)
    case OrphanReturns(pool, completed) => OrphanReturned(s, pool, completed)
    case MappingEnds(i) => Go(s, i, LoopTop).(inFlight := false, hasCurrent := false)
    case BackoffEnds(i) => Go(s, i, LoopTop)
    case CancelHits(i) => Cancel(s, i, Finished)
    case CancelOutside(i) => Put(s, i, s.tasks[i].(status := Cancelling))
    case LoopCloses(i) => End(s, i, Stranded, Abandoned)
    case Tick(dt) => s.(now := s.now + dt)
    case Start(delay, loop) => StartBody(s.(ctl := Clear(s.ctl, s.tasks)), delay, loop)
    case Ensure(loop) => EnsureBody(s, loop)
    case StopBegin =>
      s.(ctl := s.ctl.(running := false, stopping := true,
         stops := s.ctl.stops + [Stop(s.ctl.task, s.ctl.executor, s.ctl.task.None?, s.ctl.executor.None?)]))
    case CancelHandler(k) =>
      var i := s.ctl.stops[k].task.value;
      if s.tasks[i].status.Finished? then s.(ctl := PutStop(s.ctl, k, s.ctl.stops[k].(taskDone := true)))
      else Put(s, i, s.tasks[i].(status := Cancelling))
    case DoneCallback(k) => s.(ctl := PutStop(s.ctl, k, s.ctl.stops[k].(taskDone := true)))
    case RunOut(k, finished) => RunOutBody(s, k, finished)
    case SeeClosedLoop(k) => s.(ctl := PutStop(s.ctl, k, s.ctl.stops[k].(taskDone := true)))
    case ExecutorDown(k) =>
      s.(ctl := PutStop(s.ctl, k, s.ctl.stops[k].(executorDone := true))
                .(pools := s.ctl.pools[s.ctl.stops[k].executor.value := false]))
    case Finalize(k) => FinalizeBody(s, k)
    case TimeoutSeen(_) => s.(ctl := s.ctl.(latches := s.ctl.latches + 1))
    case Latch => s.(ctl := s.ctl.(latches := s.ctl.latches - 1, stopFailed := true))
    case ResetFailed => if s.ctl.stopping then s else s.(ctl := Clear(s.ctl, s.tasks))
  }

  ghost predicate Run(s: State, es: seq<Event>, s': State)
    decreases |es|
  {
    if es == [] then s == s'
    else Enabled(s, es[0]) && Run(Apply(s, es[0]), es[1..], s')
  }

  /** `p` holds at the start of the run and after each of its events. */
  ghost predicate Throughout(p: State -> bool, s: State, es: seq<Event>)
    decreases |es|
  {
    p(s) && (es == [] || (Enabled(s, es[0]) && Throughout(p, Apply(s, es[0]), es[1..])))
  }

  /** No event of the run is a `bad` one. */
  ghost predicate Without(bad: (State, Event) -> bool, s: State, es: seq<Event>)
    decreases |es|
  {
    es == [] || (Enabled(s, es[0]) && !bad(s, es[0]) && Without(bad, Apply(s, es[0]), es[1..]))
  }
}
