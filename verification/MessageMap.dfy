/**
 Retention in `message_map`: the upsert of `_store_message_map_core` and the pruning of
 `_prune_message_map_core`, over whole runs. What the table must hold is defined on the
 list of operations alone.
 */
module MessageMap {
  import opened Common

  type EventId = string

  datatype Content = Content(meshtasticId: string, room: string, text: string, mesh: Option<string>)

  datatype Row = Row(rowid: int, event: EventId, content: Content)

  datatype Op = Store(event: EventId, content: Content) | Prune(keep: int)

  // ---------------------------------------------------------------- what the operations ask for

  /** What was stored last under `event`. */
  function LastStored(ops: seq<Op>, event: EventId): Option<Content> {
    if ops == [] then None
    else
      var last := ops[|ops| - 1];
      if last.Store? && last.event == event then Some(last.content) else LastStored(ops[..|ops| - 1], event)
  }

  function Surplus(n: nat, keep: int): nat { if n <= keep then 0 else if keep < 0 then n else n - keep }

  /** The events present, each at the place where it was first stored since it was last absent. */
  function Present(ops: seq<Op>): seq<EventId> {
    if ops == [] then []
    else
      var before, last := Present(ops[..|ops| - 1]), ops[|ops| - 1];
      match last
      case Store(event, _) => if event in before then before else before + [event]
      case Prune(keep) => before[Surplus(|before|, keep)..]
  }

  /** All insertions, in order: the stores of events that were not present. */
  function Inserted(ops: seq<Op>): seq<EventId> {
    if ops == [] then []
    else
      var before, last := ops[..|ops| - 1], ops[|ops| - 1];
      Inserted(before) + if last.Store? && last.event !in Present(before) then [last.event] else []
  }

  // ---------------------------------------------------------------- the table

  function IndexOf(rows: seq<Row>, event: EventId): (i: nat)
    ensures i <= |rows| && (i < |rows| ==> rows[i].event == event)
    ensures forall j :: 0 <= j < i ==> rows[j].event != event
  {
    if rows == [] || rows[0].event == event then 0 else 1 + IndexOf(rows[1..], event)
  }

  /** Without AUTOINCREMENT SQLite picks one more than the largest rowid in use. */
  function NextRowid(rows: seq<Row>): int { if rows == [] then 1 else rows[|rows| - 1].rowid + 1 }

  /** Rows in rowid order. */
  function Apply(rows: seq<Row>, op: Op): seq<Row> {
    match op
    case Store(event, content) =>
      var i := IndexOf(rows, event);
      if i < |rows| then rows[i := rows[i].(content := content)] else rows + [Row(NextRowid(rows), event, content)]
    case Prune(keep) => rows[Surplus(|rows|, keep)..]
  }

  function After(ops: seq<Op>): seq<Row> {
    if ops == [] then [] else Apply(After(ops[..|ops| - 1]), ops[|ops| - 1])
  }

  function Events(rows: seq<Row>): seq<EventId> { seq(|rows|, i requires 0 <= i < |rows| => rows[i].event) }

  /** Rowids rise, and no event has two rows. */
  ghost predicate Inv(rows: seq<Row>) {
    && (forall i, j :: 0 <= i < j < |rows| ==> rows[i].rowid < rows[j].rowid)
    && (forall i, j :: 0 <= i < j < |rows| ==> rows[i].event != rows[j].event)
  }

  /** The rows are those of the events present, with what was stored last. */
  ghost predicate Holds(rows: seq<Row>, ops: seq<Op>) {
    && Events(rows) == Present(ops)
    && forall i :: 0 <= i < |rows| ==> LastStored(ops, rows[i].event) == Some(rows[i].content)
  }

  lemma StoreStep(rows: seq<Row>, ops: seq<Op>, event: EventId, content: Content)
    requires Inv(rows) && Holds(rows, ops)
    ensures Inv(Apply(rows, Store(event, content))) && Holds(Apply(rows, Store(event, content)), ops + [Store(event, content)])
  {
    var rows', op := Apply(rows, Store(event, content)), Store(event, content);
    var i := IndexOf(rows, event);
    assert (ops + [op])[..|ops|] == ops;
    forall j | 0 <= j < |rows| ensures rows[j].event == Present(ops)[j] { assert Events(rows)[j] == rows[j].event; }
    if i < |rows| {
      assert event in Present(ops);
      assert forall j :: 0 <= j < |rows| ==> rows'[j].event == rows[j].event && rows'[j].rowid == rows[j].rowid;
      assert Events(rows') == Events(rows);
    } else {
      assert event !in Present(ops);
      assert Events(rows') == Events(rows) + [event];
    }
  }

  lemma PruneStep(rows: seq<Row>, ops: seq<Op>, keep: int)
    requires Inv(rows) && Holds(rows, ops)
    ensures Inv(Apply(rows, Prune(keep))) && Holds(Apply(rows, Prune(keep)), ops + [Prune(keep)])
  {
    var rows', n := Apply(rows, Prune(keep)), Surplus(|rows|, keep);
    assert (ops + [Prune(keep)])[..|ops|] == ops;
    assert forall j :: 0 <= j < |rows'| ==> rows'[j] == rows[n + j];
    assert Events(rows') == Events(rows)[n..];
  }

  /**
   After any run the table has one row for each event present, in the order of their first
   insertion and with what was stored for it last. Updating an event does not move it.
   */
  lemma {:induction false} RowsFollowOperations(ops: seq<Op>)
    ensures Inv(After(ops)) && Holds(After(ops), ops)
  {
    if ops != [] {
      var before, last := ops[..|ops| - 1], ops[|ops| - 1];
      RowsFollowOperations(before);
      assert ops == before + [last];
      match last
      case Store(event, content) => StoreStep(After(before), before, event, content);
      case Prune(keep) => PruneStep(After(before), before, keep);
    }
  }

  /** The events present are the last so many that were inserted. */
  lemma {:induction false} PresentAreTheNewest(ops: seq<Op>)
    ensures |Present(ops)| <= |Inserted(ops)|
    ensures Present(ops) == Inserted(ops)[|Inserted(ops)| - |Present(ops)|..]
  {
    if ops != [] {
      PresentAreTheNewest(ops[..|ops| - 1]);
    }
  }

  lemma {:induction false} EnoughPresent(ops: seq<Op>, k: nat)
    requires forall j :: 0 <= j < |ops| && ops[j].Prune? ==> k <= ops[j].keep
    ensures |Present(ops)| >= if |Inserted(ops)| < k then |Inserted(ops)| else k
  {
    if ops != [] {
      EnoughPresent(ops[..|ops| - 1], k);
      PresentAreTheNewest(ops[..|ops| - 1]);
    }
  }

  /** If every pruning keeps at least `k` rows, the last `k` inserted events always have a row. */
  lemma NewestSurvive(ops: seq<Op>, k: nat, i: nat)
    requires forall j :: 0 <= j < |ops| && ops[j].Prune? ==> k <= ops[j].keep
    requires i < |Inserted(ops)| && |Inserted(ops)| - k <= i
    ensures exists r :: r in After(ops) && r.event == Inserted(ops)[i]
  {
    RowsFollowOperations(ops);
    PresentAreTheNewest(ops);
    EnoughPresent(ops, k);
    var at := i - (|Inserted(ops)| - |Present(ops)|);
    assert After(ops)[at].event == Events(After(ops))[at] == Inserted(ops)[i];
  }

  /** Pruning keeps exactly the newest rows, and at most as many as asked. */
  lemma PruneKeepsNewest(rows: seq<Row>, keep: int)
    requires Inv(rows)
    ensures var rows' := Apply(rows, Prune(keep));
      && |rows'| == (if keep < 0 then 0 else if |rows| < keep then |rows| else keep)
      && (forall r :: r in rows' ==> r in rows)
      && (forall older, newer :: older in rows && older !in rows' && newer in rows' ==> older.rowid < newer.rowid)
  {
  }

  class MappingTable {
    var rows: seq<Row>

    constructor ()
      ensures rows == []
    {
      rows := [];
    }

    /**
     The upsert. The event has the new content; if it had a row, that row keeps its place and
     rowid, otherwise a new one with the largest rowid comes last; all other rows stay.
     */
    method StoreMessageMap(event: EventId, content: Content)
      requires Inv(rows)
      modifies this
      ensures Inv(rows) && rows == old(Apply(rows, Store(event, content)))
      ensures exists i :: 0 <= i < |rows| && rows[i].event == event && rows[i].content == content
      ensures forall i :: 0 <= i < |old(rows)| && old(rows)[i].event != event ==> i < |rows| && rows[i] == old(rows)[i]
      ensures forall i :: 0 <= i < |old(rows)| && old(rows)[i].event == event ==>
        |rows| == |old(rows)| && rows[i] == old(rows)[i].(content := content)
      ensures (forall i :: 0 <= i < |old(rows)| ==> old(rows)[i].event != event) ==>
        |rows| == |old(rows)| + 1 && forall r :: r in old(rows) ==> r.rowid < rows[|old(rows)|].rowid
    {
      var i := 0;
      while i < |rows| && rows[i].event != event
        invariant i <= |rows| && forall j :: 0 <= j < i ==> rows[j].event != event
      {
        i := i + 1;
      }
      if i < |rows| {
        rows := rows[i := rows[i].(content := content)];
        assert rows[i].event == event;
      } else {
        rows := rows + [Row(NextRowid(rows), event, content)];
        assert rows[|old(rows)|].event == event;
      }
    }

    /** Returns the number of rows it asked SQLite to delete; the oldest go. */
    method PruneMessageMap(keep: int) returns (toDelete: int)
      requires Inv(rows)
      modifies this
      ensures Inv(rows) && rows == old(Apply(rows, Prune(keep)))
      ensures toDelete == if |old(rows)| > keep then |old(rows)| - keep else 0
      ensures rows == if toDelete <= |old(rows)| then old(rows)[toDelete..] else []
    {
      var total := |rows|;
      var gone := 0;
      if total > keep {
        toDelete := total - keep;
        gone := if toDelete < total then toDelete else total;
        rows := rows[gone..];
      } else {
        toDelete := 0;
      }
      assert rows == old(rows)[gone..];
    }
  }
}
