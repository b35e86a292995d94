/**
 `DatabaseManager` as an object: one method per critical section, updating the fields in
 place. Each method is proved to perform exactly the event of `DbRuntime` it stands for,
 so everything proved there about runs holds of every interleaving of these calls.
 */
module DbManager {
  import opened Common
  import opened DbRuntime

  class DatabaseManager {
    const workers: nat
    var threads: seq<Thread>
    var activeSyncCount: int
    var acceptingSubmissions: bool
    var closing: bool
    var pending: seq<Job>
    var connections: set<Conn>
    var nextConnection: nat
    var nextJob: nat
    ghost var fates: seq<JobFate>
    ghost var released: set<Conn>
    ghost var drained: bool
    ghost var shut: bool
    var closedHandles: set<Conn>  // what SQLite knows about the handles

    ghost function View(): State
      reads this
    {
      State(workers, threads, activeSyncCount, acceptingSubmissions, closing, pending, fates,
            connections, released, nextConnection, drained, shut)
    }

    ghost predicate Valid()
      reads this
    {
      Inv(View()) && closedHandles == released && nextJob == |fates|
    }

    constructor (workers: nat, n: nat)
      requires workers < n
      ensures Valid() && View() == Initial(workers, n)
    {
      this.workers := workers;
      threads := seq(n, i => IDLE)[n - 1 := IDLE.(conn := Some(0))];
      activeSyncCount, acceptingSubmissions, closing := 0, true, false;
      pending, connections, nextConnection, nextJob := [], {0}, 1, 0;
      fates, released, closedHandles, drained, shut := [], {}, {}, false, false;
      new;
      InitialInv(workers, n);
    }

    method EnterActivity(t: nat) returns (raised: bool)
      requires Valid() && Enabled(View(), Enter(t))
      modifies this
      ensures Valid() && View() == old(Apply(View(), Enter(t)))
      ensures raised <==> old(closing && threads[t].saved == [] && threads[t].job.None?)
      ensures raised ==> View() == old(View())
      ensures !raised ==> View() == old(var th := threads[t];
        View().(active := activeSyncCount + 1,
                threads := threads[t := th.(saved := th.saved + [th.admitted], admitted := true)]))
    {
      AdmissionRule(View(), t);
      StepInv(View(), Enter(t));
      var previouslyAdmitted := threads[t].admitted;
      if closing && !previouslyAdmitted {
        return true;
      }
      threads := threads[t := threads[t].(saved := threads[t].saved + [previouslyAdmitted], admitted := true)];
      activeSyncCount := activeSyncCount + 1;
      return false;
    }

    method ExitActivity(t: nat)
      requires Valid() && Enabled(View(), Exit(t))
      modifies this
      ensures Valid() && View() == old(Apply(View(), Exit(t)))
      ensures View() == old(var th, last := threads[t], |threads[t].saved| - 1;
        View().(active := activeSyncCount - 1,
                threads := threads[t := th.(saved := th.saved[..last], admitted := th.saved[last])]))
    {
      StepInv(View(), Exit(t));
      var last := |threads[t].saved| - 1;
      var previouslyAdmitted := threads[t].saved[last];
      activeSyncCount := activeSyncCount - 1;
      threads := threads[t := threads[t].(saved := threads[t].saved[..last], admitted := previouslyAdmitted)];
    }

    /**
     The connection of the thread, if nobody closed it, and then nothing changes; otherwise
     a new one, and the closed one is forgotten.
     `connectFails`: SQLite or a pragma refuses the new connection. Inside an operation the
     closing check of the original never fires, so that branch is dead.
     */
    method GetConnection(t: nat, connectFails: bool) returns (conn: Option<Conn>)
      requires Valid() && Enabled(View(), Connect(t, connectFails))
      modifies this
      ensures Valid() && View() == old(Apply(View(), Connect(t, connectFails)))
      ensures old(threads[t].conn.Some? && threads[t].conn.value !in released) ==>
        conn == old(threads[t].conn) && View() == old(View())
      ensures old(threads[t].conn.None? || threads[t].conn.value in released) ==>
        && connections == old(connections - if threads[t].conn.Some? then {threads[t].conn.value} else {})
                          + (if connectFails then {} else {old(nextConnection)})
        && (if connectFails then conn == None && threads == old(threads) && nextConnection == old(nextConnection)
            else && conn == Some(old(nextConnection)) && nextConnection == old(nextConnection) + 1
                 && threads == old(threads)[t := old(threads[t]).(conn := conn)])
      ensures conn.Some? ==> conn == threads[t].conn && conn.value in connections && conn.value !in released
      ensures released == old(released)
    {
      ghost var before := View();
      assert ThreadOk(before, t);
      StepInv(before, Connect(t, connectFails));
      if closing && !threads[t].admitted {
        assert false;
      }
      conn := threads[t].conn;
      if conn.None? || conn.value in closedHandles {
        conn := Reconnect(t, connectFails);
      }
      assert View() == Connected(before, t, connectFails);
    }

    /** Forget the closed connection, if there is one, and open another. */
    method Reconnect(t: nat, connectFails: bool) returns (conn: Option<Conn>)
      requires t < |threads|
      modifies this`connections, this`nextConnection, this`threads
      ensures connections == old(connections - if threads[t].conn.Some? then {threads[t].conn.value} else {})
                             + (if connectFails then {} else {old(nextConnection)})
      ensures if connectFails then conn == None && threads == old(threads) && nextConnection == old(nextConnection)
              else && conn == Some(old(nextConnection)) && nextConnection == old(nextConnection) + 1
                   && threads == old(threads)[t := old(threads[t]).(conn := conn)]
    {
      if threads[t].conn.Some? {
        connections := connections - {threads[t].conn.value};
      }
      if connectFails {
        return None;
      }
      var created := CreateConnection();
      threads := threads[t := threads[t].(conn := Some(created))];
      return Some(created);
    }

    /** `_create_connection`, when SQLite and the pragmas agree. */
    method CreateConnection() returns (conn: Conn)
      modifies this`connections, this`nextConnection
      ensures conn == old(nextConnection) && nextConnection == conn + 1
      ensures connections == old(connections) + {conn}
    {
      conn := nextConnection;
      connections := connections + {conn};
      nextConnection := nextConnection + 1;
    }

    method SubmitJob() returns (raised: bool, job: Job)
      requires Valid()
      modifies this
      ensures Valid() && View() == old(Apply(View(), Submit))
      ensures raised == old(closing)
      ensures raised ==> View() == old(View())
      ensures !raised ==> View() == old(View()).(queue := old(pending) + [job], fates := old(fates) + [Queued])
      ensures job == |old(fates)|
    {
      StepInv(View(), Submit);
      job := nextJob;
      if !acceptingSubmissions {
        return true, job;
      }
      pending, nextJob := pending + [job], nextJob + 1;
      fates := fates + [Queued];
      return false, job;
    }

    method BeginJob(t: nat)
      requires Valid() && Enabled(View(), StartJob(t))
      modifies this
      ensures Valid() && View() == old(Apply(View(), StartJob(t)))
      ensures View() == old(View().(
        queue := pending[1..], threads := threads[t := threads[t].(job := Some(pending[0]), admitted := true)],
        fates := fates[pending[0] := Running(t)]))
    {
      StepInv(View(), StartJob(t));
      var job := pending[0];
      pending := pending[1..];
      threads := threads[t := threads[t].(job := Some(job), admitted := true)];
      fates := fates[job := Running(t)];
    }

    method EndJob(t: nat)
      requires Valid() && Enabled(View(), FinishJob(t))
      modifies this
      ensures Valid() && View() == old(Apply(View(), FinishJob(t)))
      ensures View() == old(View().(
        threads := threads[t := threads[t].(job := None, admitted := false)],
        fates := fates[threads[t].job.value := Finished]))
    {
      StepInv(View(), FinishJob(t));
      fates := fates[threads[t].job.value := Finished];
      threads := threads[t := threads[t].(job := None, admitted := false)];
    }

    method ShutAdmission(t: nat) returns (raised: bool)
      requires Valid() && Enabled(View(), BeginClose(t))
      modifies this
      ensures Valid() && View() == old(Apply(View(), BeginClose(t)))
      ensures raised <==> old(threads[t].saved != [] || threads[t].job.Some?)
      ensures raised ==> View() == old(View())
      ensures !raised ==> View() == old(View().(
        accepting := false, closing := true, threads := threads[t := threads[t].(phase := AdmissionShut)]))
    {
      assert ThreadOk(View(), t);
      StepInv(View(), BeginClose(t));
      if threads[t].admitted {
        return true;
      }
      acceptingSubmissions := false;
      closing := true;
      threads := threads[t := threads[t].(phase := AdmissionShut)];
      return false;
    }

    method AwaitExecutor(t: nat)
      requires Valid() && Enabled(View(), DrainExecutor(t))
      modifies this
      ensures Valid() && View() == old(Apply(View(), DrainExecutor(t)))
    {
      StepInv(View(), DrainExecutor(t));
      threads := threads[t := threads[t].(phase := ExecutorDrained)];
      drained := true;
    }

    /** The registry is emptied first, then its former members are closed one by one. */
    method CloseTracked(t: nat)
      requires Valid() && Enabled(View(), DbRuntime.CloseConnections(t))
      modifies this
      ensures Valid() && View() == old(Apply(View(), DbRuntime.CloseConnections(t)))
      ensures Quiet(View()) && AllReleased(View())
      ensures View() == old(View().(
        tracked := {}, released := released + connections, shut := true,
        threads := threads[t := threads[t].(phase := DbRuntime.ConnectionsClosed)]))
    {
      assert ThreadOk(View(), t);
      DrainedAndCountedIsQuiet(View());
      StepInv(View(), DbRuntime.CloseConnections(t));
      ghost var final := Apply(View(), DbRuntime.CloseConnections(t));
      var handles := connections;
      connections := {};
      CloseEach(handles);
      threads := threads[t := threads[t].(phase := DbRuntime.ConnectionsClosed)];
      shut := true;
      assert View() == final;
    }

    method CloseEach(handles: set<Conn>)
      modifies this`closedHandles, this`released
      ensures closedHandles == old(closedHandles) + handles && released == old(released) + handles
    {
      var remaining := handles;
      while remaining != {}
        invariant remaining <= handles
        invariant closedHandles == old(closedHandles) + (handles - remaining)
        invariant released == old(released) + (handles - remaining)
        decreases remaining
      {
        var conn :| conn in remaining;
        remaining := remaining - {conn};
        closedHandles := closedHandles + {conn};
        released := released + {conn};
      }
    }

    method ReplaceThreadLocals(t: nat)
      requires Valid() && Enabled(View(), ReplaceLocals(t))
      modifies this
      ensures Valid() && View() == old(Apply(View(), ReplaceLocals(t)))
      ensures View() == old(View()).(threads := threads) && |threads| == |old(threads)|
      ensures forall i :: 0 <= i < |threads| ==>
        && threads[i].conn.None? && !threads[i].admitted
        && threads[i].job == old(threads)[i].job && threads[i].saved == old(threads)[i].saved
        && threads[i].phase == if i == t then NotClosing else old(threads)[i].phase
    {
      StepInv(View(), ReplaceLocals(t));
      threads := seq(|threads|, i requires 0 <= i < |threads| reads this =>
        threads[i].(admitted := false, conn := None, phase := if i == t then NotClosing else threads[i].phase));
      assert View().threads == old(Apply(View(), ReplaceLocals(t))).threads;
    }
  }
}
