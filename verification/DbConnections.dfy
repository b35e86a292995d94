/**
 Who uses which connection. Until `close()` has closed them, every open connection in the
 registry is the thread-local connection of exactly one thread, and a thread keeps the one
 it has for as long as nobody closes it.
 */
module DbConnections {
  import opened Common
  import opened DbRuntime

  ghost predicate Holds(s: State, t: nat, c: Conn) { t < |s.threads| && s.threads[t].conn == Some(c) }

  /** Registered and not closed by anyone. */
  ghost function Open(s: State): set<Conn> { s.tracked - s.released }

  /** No two threads share a connection, and until the final close no open one is without a thread. */
  ghost predicate Owned(s: State) {
    && (forall t: nat, u: nat, c :: Holds(s, t, c) && Holds(s, u, c) ==> t == u)
    && (!s.shut ==> forall c :: c in Open(s) ==> exists t: nat :: Holds(s, t, c))
  }

  lemma InitialOwned(workers: nat, n: nat)
    requires workers < n
    ensures Owned(Initial(workers, n))
  {
    assert Holds(Initial(workers, n), n - 1, 0);
  }

  /** Only connecting changes which connection a thread has, until all are closed. */
  lemma ConnKept(s: State, e: Event, t: nat)
    requires Inv(s) && Enabled(s, e) && t < |s.threads|
    ensures var s' := Apply(s, e);
      && |s'.threads| == |s.threads|
      && (!e.ReplaceLocals? && !(e.Connect? && e.t == t) ==> s'.threads[t].conn == s.threads[t].conn)
      && (e.ReplaceLocals? ==> s'.shut && s'.threads[t].conn.None?)
  {
    if IsThreadEvent(e) {
      OnlyOneThreadActs(s, e);
    } else if e.ReplaceLocals? {
      assert ThreadOk(s, e.t);
    }
  }

  lemma ConnectOwned(s: State, t: nat, fails: bool)
    requires Inv(s) && Owned(s) && Enabled(s, Connect(t, fails))
    ensures Owned(Apply(s, Connect(t, fails)))
  {
    var e := Connect(t, fails);
    var s' := Apply(s, e);
    forall u: nat, v: nat, c | Holds(s', u, c) && Holds(s', v, c) ensures u == v {
      ConnKept(s, e, u);
      ConnKept(s, e, v);
      assert ThreadOk(s, u) && ThreadOk(s, v);
      assert u != t ==> Holds(s, u, c);
      assert v != t ==> Holds(s, v, c);
      assert Holds(s, t, c) || c == s.created || (u != t && v != t);
    }
    forall c | c in Open(s') && !s'.shut ensures exists u: nat :: Holds(s', u, c) {
      if c == s.created && c !in s.tracked {
        assert Holds(s', t, c);
      } else {
        assert c in Open(s);
        var u: nat :| Holds(s, u, c);
        assert Holds(s', u, c);
      }
    }
  }

  lemma OwnedStep(s: State, e: Event)
    requires Inv(s) && Owned(s) && Enabled(s, e)
    ensures Owned(Apply(s, e))
  {
    if e.Connect? {
      ConnectOwned(s, e.t, e.fails);
    } else {
      var s' := Apply(s, e);
      ConnKept(s, e, 0);
      forall t: nat, c | Holds(s', t, c) ensures Holds(s, t, c) {
        ConnKept(s, e, t);
      }
      if !s'.shut {
        forall c | c in Open(s') ensures exists t: nat :: Holds(s', t, c) {
          assert c in Open(s);
          var t: nat :| Holds(s, t, c);
          ConnKept(s, e, t);
          assert Holds(s', t, c);
        }
      }
    }
  }

  lemma {:induction false} OwnedRun(s: State, es: seq<Event>, s': State)
    requires Inv(s) && Owned(s) && Steps(s, es, s')
    ensures Owned(s') && |s'.threads| == |s.threads|
    decreases |es|
  {
    if es != [] {
      OwnedStep(s, es[0]);
      StepInv(s, es[0]);
      ConnKept(s, es[0], 0);
      OwnedRun(Apply(s, es[0]), es[1..], s');
    }
  }

  /** The connections of the first `n` threads. */
  ghost function Held(s: State, n: nat): set<Conn>
    requires n <= |s.threads|
  {
    if n == 0 then {}
    else Held(s, n - 1) + if s.threads[n - 1].conn.Some? then {s.threads[n - 1].conn.value} else {}
  }

  lemma {:induction false} HeldBound(s: State, n: nat)
    requires n <= |s.threads|
    ensures |Held(s, n)| <= n
    ensures forall t: nat, c :: t < n && Holds(s, t, c) ==> c in Held(s, n)
  {
    if n > 0 {
      HeldBound(s, n - 1);
    }
  }

  lemma SubsetCard(a: set<Conn>, b: set<Conn>)
    requires a <= b
    ensures |a| <= |b|
  {
    assert b == a + (b - a);
  }

  /**
   Over every run, until the connections are closed: each open registered connection is
   the one of exactly one thread, so there are never more of them than threads.
   */
  lemma OneOpenConnectionPerThread(workers: nat, n: nat, es: seq<Event>, s: State)
    requires workers < n && Steps(Initial(workers, n), es, s) && !s.shut
    ensures |s.threads| == n && |s.tracked - s.released| <= n
    ensures forall c :: c in s.tracked && c !in s.released ==>
      exists t :: 0 <= t < n && s.threads[t].conn == Some(c) &&
                  forall u :: 0 <= u < n && s.threads[u].conn == Some(c) ==> u == t
  {
    InitialInv(workers, n);
    InitialOwned(workers, n);
    OwnedRun(Initial(workers, n), es, s);
    forall c | c in s.tracked && c !in s.released
      ensures exists t :: 0 <= t < n && s.threads[t].conn == Some(c) &&
                          forall u :: 0 <= u < n && s.threads[u].conn == Some(c) ==> u == t
    {
      assert c in Open(s);
      var t: nat :| Holds(s, t, c);
      assert forall u :: 0 <= u < n && s.threads[u].conn == Some(c) ==> Holds(s, u, c);
    }
    HeldBound(s, n);
    assert s.tracked - s.released <= Held(s, n) by {
      forall c | c in s.tracked - s.released ensures c in Held(s, n) {
        assert c in Open(s);
        var t: nat :| Holds(s, t, c);
      }
    }
    SubsetCard(s.tracked - s.released, Held(s, n));
  }

  lemma ReleasedGrows(s: State, e: Event)
    requires Enabled(s, e)
    ensures s.released <= Apply(s, e).released
  {
  }

  lemma ConnectionKeptStep(s: State, e: Event, t: nat, c: Conn)
    requires Inv(s) && Enabled(s, e) && Holds(s, t, c) && c !in Apply(s, e).released
    ensures Holds(Apply(s, e), t, c) && c !in s.released
  {
    ConnKept(s, e, t);
    ReleasedGrows(s, e);
    assert ThreadOk(s, t);
    StepInv(s, e);
    if e.ReplaceLocals? {
      assert false;
    }
  }

  lemma {:induction false} ReleasedRun(s: State, es: seq<Event>, s': State)
    requires Steps(s, es, s')
    ensures s.released <= s'.released
    decreases |es|
  {
    if es != [] {
      ReleasedGrows(s, es[0]);
      ReleasedRun(Apply(s, es[0]), es[1..], s');
    }
  }

  /** A thread keeps its connection over every run in which nobody closes it. */
  lemma {:induction false} ConnectionKept(s: State, es: seq<Event>, s': State, t: nat, c: Conn)
    requires Inv(s) && Steps(s, es, s') && t < |s.threads| && s.threads[t].conn == Some(c)
    requires c !in s'.released
    ensures t < |s'.threads| && s'.threads[t].conn == Some(c)
    decreases |es|
  {
    if es != [] {
      ReleasedRun(Apply(s, es[0]), es[1..], s');
      assert Holds(s, t, c);
      ConnectionKeptStep(s, es[0], t, c);
      StepInv(s, es[0]);
      ConnectionKept(Apply(s, es[0]), es[1..], s', t, c);
    }
  }
}
