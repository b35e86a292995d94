/**
 Keeping the tables `longnames` and `shortnames` in step with node snapshots: the atomic
 sync, the stale-row pruning, the drift check and `sync_name_tables_if_changed`, which
 uses the state it returned last time as a cache.
 */
module NameSync {
  import opened Common
  import opened NameCollector
  import opened PairNameCollector
  import opened SingleNameCollector

  /** One names table; a row may hold NULL. */
  type Table = map<NodeId, Name>

  datatype Tables = Tables(longnames: Table, shortnames: Table)

  function TableOf(db: Tables, f: Field): Table { if f.LongName? then db.longnames else db.shortnames }

  // ---------------------------------------------------------------- intended effect

  /** Exactly the names a state knows. */
  function Projection(state: NameState, f: Field): Table {
    map id | id in state && Of(state[id], f).Some? :: Of(state[id], f)
  }

  /** The rows of ids outside `ids` are gone. */
  function Pruned(t: Table, ids: set<NodeId>): Table {
    map id | id in t && id in ids :: t[id]
  }

  /** A complete state replaces the table, an incomplete one overrides it where it knows a name. */
  function Synced(t: Table, state: NameState, f: Field, complete: bool): Table {
    if complete then Projection(state, f) else t + Projection(state, f)
  }

  /** The table after the ids in `done` have been written. */
  ghost function Overridden(t: Table, state: NameState, f: Field, complete: bool, done: set<NodeId>): Table
    requires done <= state.Keys
  {
    map id | id in t.Keys + done &&
             (id in done ==> Of(state[id], f).Some? || (!complete && id in t)) ::
      if id in done && Of(state[id], f).Some? then Of(state[id], f) else t[id]
  }

  /** The rows of `ids` as the drift check reads them: empty names count as absent. */
  function Readable(t: Table, ids: set<NodeId>): Table {
    map id | id in t && id in ids :: if t[id] == Some("") then None else t[id]
  }

  function SyncedTables(db: Tables, state: NameState, complete: bool): Tables {
    Tables(Synced(db.longnames, state, LongName, complete), Synced(db.shortnames, state, ShortName, complete))
  }

  function PrunedTables(db: Tables, ids: set<NodeId>): Tables {
    Tables(Pruned(db.longnames, ids), Pruned(db.shortnames, ids))
  }

  /** The table holds every name the state knows. */
  predicate Agrees(t: Table, state: NameState, f: Field) {
    forall id :: id in state && Of(state[id], f).Some? ==> id in t && t[id] == Of(state[id], f)
  }

  /** `id` passes the drift check; an empty name never does. */
  predicate PassesAt(t: Table, state: NameState, f: Field, id: NodeId)
    requires id in state
  {
    Of(state[id], f).Some? ==> id in t && t[id] == Of(state[id], f) && Of(state[id], f) != Some("")
  }

  predicate Passes(t: Table, state: NameState, f: Field) {
    forall id :: id in state ==> PassesAt(t, state, f, id)
  }

  predicate TablesAgree(db: Tables, state: NameState) {
    Agrees(db.longnames, state, LongName) && Agrees(db.shortnames, state, ShortName)
  }

  /** An incomplete snapshot keeps what the previous state knew. */
  function WithPrevious(current: NameState, previous: NameState): NameState {
    map id | id in current.Keys + previous.Keys ::
      if id !in previous then current[id]
      else if id !in current then previous[id]
      else Names(Preferred(current[id].longName, previous[id].longName),
                 Preferred(current[id].shortName, previous[id].shortName))
  }

  function Preferred(a: Name, b: Name): Name { if a.Some? then a else b }

  /** The state a non-empty snapshot stands for, given the previous one. */
  function CurrentState(r: Snapshot, previous: Option<NameState>): NameState {
    if !r.complete && previous.Some? then WithPrevious(r.state, previous.value) else r.state
  }

  datatype Outcome = Ignored | Written | Confirmed | Failed

  /** One call of `sync_name_tables_if_changed`; `faulty` when a read or a transaction failed in it. */
  datatype Call = Call(before: Tables, nodes: Option<seq<Node>>, previous: Option<NameState>,
                       after: Tables, result: Option<NameState>, outcome: Outcome, faulty: bool)

  /** The snapshot says nothing that could be acted upon. */
  ghost predicate Uninformative(key: KeyOf, nodes: Option<seq<Node>>, previous: Option<NameState>) {
    || nodes.None? || nodes.value == []
    || (var r := Collect(nodes.value, key); !r.complete && CurrentState(r, previous) == map[])
  }

  /** What a call may do, by the way it ends. */
  ghost predicate SyncCall(key: KeyOf, c: Call) {
    && (c.outcome.Ignored? <==> Uninformative(key, c.nodes, c.previous))
    && (c.outcome.Failed? ==> c.faulty)
    && if c.outcome.Ignored? then c.after == c.before && c.result == c.previous
       else
         var r := Collect(c.nodes.value, key);
         var state := CurrentState(r, c.previous);
         var pruned := if r.complete then PrunedTables(c.before, r.ids) else c.before;
         match c.outcome
         case Written =>
           && c.result == Some(state) && c.after == SyncedTables(c.before, state, r.complete)
           && (c.previous == Some(state) && !c.faulty ==>
                 !(Passes(pruned.longnames, state, LongName) && Passes(pruned.shortnames, state, ShortName)))
         case Confirmed =>
           && c.previous == Some(state) && c.result == c.previous && c.after == pruned
           && Passes(pruned.longnames, state, LongName) && Passes(pruned.shortnames, state, ShortName)
         case Failed =>
           c.result == c.previous && (c.after == c.before || (c.previous == Some(state) && c.after == pruned))
         case Ignored => true
  }

  /** The names a single-field snapshot gives, as table rows. */
  function Known(names: map<NodeId, Name>): Table { map id | id in names && names[id].Some? :: names[id] }

  /** The row of `id` is as the snapshot wants it; without a complete one, nothing is deleted. */
  predicate UpdatedAt(before: Table, after: Table, names: map<NodeId, Name>, complete: bool, id: NodeId)
    requires id in names
  {
    if names[id].Some? then id in after && after[id] == names[id]
    else if complete then id !in after
    else (id in after <==> id in before) && (id in after ==> after[id] == before[id])
  }

  predicate UntouchedAt(before: Table, after: Table, id: NodeId) {
    (id in after <==> id in before) && (id in after ==> after[id] == before[id])
  }

  /** Every row is either as before or as the snapshot wants it. */
  ghost predicate PartlyUpdated(before: Table, after: Table, names: map<NodeId, Name>, complete: bool) {
    forall id :: UntouchedAt(before, after, id) || (id in names && UpdatedAt(before, after, names, complete, id))
  }

  /** The rows of `saved` are as the snapshot wants them, all others as before. */
  ghost predicate FullyUpdated(before: Table, after: Table, names: map<NodeId, Name>, complete: bool, saved: set<NodeId>) {
    && saved <= names.Keys
    && forall id :: if id in saved then UpdatedAt(before, after, names, complete, id) else UntouchedAt(before, after, id)
  }

  function NamedIds(t: Table): set<NodeId> { set id | id in t && t[id].Some? }

  // ---------------------------------------------------------------- the store

  class NameStore {
    const chunkSize: nat
    var longnames: Table
    var shortnames: Table
    /** How often SQLite reported an error. */
    ghost var faults: nat

    constructor (chunkSize: nat, db: Tables)
      requires chunkSize > 0
      ensures View() == db && Valid()
    {
      this.chunkSize := chunkSize;
      longnames, shortnames, faults := db.longnames, db.shortnames, 0;
    }

    predicate Valid() { chunkSize > 0 }

    function View(): Tables
      reads this
    {
      Tables(longnames, shortnames)
    }

    method Upsert(f: Field, id: NodeId, name: Name)
      modifies this`longnames, this`shortnames
      ensures TableOf(View(), f) == old(TableOf(View(), f))[id := name]
      ensures f.LongName? ==> shortnames == old(shortnames)
      ensures f.ShortName? ==> longnames == old(longnames)
    {
      if f.LongName? {
        longnames := longnames[id := name];
      } else {
        shortnames := shortnames[id := name];
      }
    }

    method DeleteRows(f: Field, ids: set<NodeId>)
      modifies this`longnames, this`shortnames
      ensures TableOf(View(), f) == old(TableOf(View(), f)) - ids
      ensures f.LongName? ==> shortnames == old(shortnames)
      ensures f.ShortName? ==> longnames == old(longnames)
    {
      if f.LongName? {
        longnames := longnames - ids;
      } else {
        shortnames := shortnames - ids;
      }
    }

    /** At most `chunkSize` members, as in a slice of the id list. */
    method TakeChunk(ids: set<NodeId>) returns (chunk: set<NodeId>)
      requires Valid() && ids != {}
      ensures chunk <= ids && 0 < |chunk| <= chunkSize
    {
      var id :| id in ids;
      chunk := {id};
      while |chunk| < chunkSize && chunk != ids
        invariant chunk <= ids && 0 < |chunk| <= chunkSize
        decreases |ids - chunk|
      {
        var next :| next in ids - chunk;
        assert ids - (chunk + {next}) == (ids - chunk) - {next};
        chunk := chunk + {next};
      }
    }

    /** `_delete_stale_names_core`, deleting in chunks. */
    method DeleteStaleNames(f: Field, currentIds: set<NodeId>)
      requires Valid()
      modifies this`longnames, this`shortnames
      ensures TableOf(View(), f) == old(Pruned(TableOf(View(), f), currentIds))
      ensures f.LongName? ==> shortnames == old(shortnames)
      ensures f.ShortName? ==> longnames == old(longnames)
    {
      ghost var before := TableOf(View(), f);
      var staleIds := TableOf(View(), f).Keys - currentIds;
      while staleIds != {}
        invariant TableOf(View(), f) == Pruned(before, currentIds + staleIds)
        invariant f.LongName? ==> shortnames == old(shortnames)
        invariant f.ShortName? ==> longnames == old(longnames)
        decreases staleIds
      {
        var chunk := TakeChunk(staleIds);
        DeleteRows(f, chunk);
        PruneChunk(before, currentIds, staleIds, chunk);
        staleIds := staleIds - chunk;
      }
    }

    /** Write the names of one field of a state into its table. */
    method WriteField(f: Field, state: NameState, complete: bool)
      modifies this`longnames, this`shortnames
      ensures TableOf(View(), f) == old(Overridden(TableOf(View(), f), state, f, complete, state.Keys))
      ensures f.LongName? ==> shortnames == old(shortnames)
      ensures f.ShortName? ==> longnames == old(longnames)
    {
      ghost var before := TableOf(View(), f);
      ghost var done: set<NodeId> := {};
      var todo := state.Keys;
      while todo != {}
        invariant done + todo == state.Keys && done !! todo
        invariant TableOf(View(), f) == Overridden(before, state, f, complete, done)
        invariant f.LongName? ==> shortnames == old(shortnames)
        invariant f.ShortName? ==> longnames == old(longnames)
        decreases todo
      {
        var id :| id in todo;
        var name := Of(state[id], f);
        if name.None? {
          if complete {
            DeleteRows(f, {id});
          }
        } else {
          Upsert(f, id, name);
        }
        OverrideOne(before, state, f, complete, done, id);
        done, todo := done + {id}, todo - {id};
      }
    }

    /** A transaction takes effect as a whole, or SQLite reports an error and it is rolled back. */
    method Commit(before: Tables) returns (ok: bool)
      modifies this
      ensures ok ==> View() == old(View()) && faults == old(faults)
      ensures !ok ==> View() == before && faults > old(faults)
    {
      ok := *;
      if !ok {
        longnames, shortnames := before.longnames, before.shortnames;
        faults := faults + 1;
      }
    }

    /** `_sync_name_tables_atomic` */
    method SyncAtomic(state: NameState, ids: set<NodeId>, complete: bool) returns (ok: bool)
      requires Valid() && (complete ==> state.Keys == ids)
      modifies this
      ensures ok ==> View() == old(SyncedTables(View(), state, complete)) && faults == old(faults)
      ensures !ok ==> View() == old(View()) && faults > old(faults)
    {
      var before := View();
      WriteField(LongName, state, complete);
      WriteField(ShortName, state, complete);
      if complete {
        DeleteStaleNames(LongName, ids);
        DeleteStaleNames(ShortName, ids);
      }
      SyncComposes(before.longnames, state, LongName, ids, complete);
      SyncComposes(before.shortnames, state, ShortName, ids, complete);
      ok := Commit(before);
    }

    /** `_prune_stale_name_rows_atomic` */
    method PruneAtomic(ids: set<NodeId>) returns (ok: bool)
      requires Valid()
      modifies this
      ensures ok ==> View() == old(PrunedTables(View(), ids)) && faults == old(faults)
      ensures !ok ==> View() == old(View()) && faults > old(faults)
    {
      var before := View();
      DeleteStaleNames(LongName, ids);
      DeleteStaleNames(ShortName, ids);
      ok := Commit(before);
    }

    /** `_read_name_values_for_ids`; `None` is a database error. */
    method ReadNames(f: Field, ids: set<NodeId>) returns (rows: Option<Table>)
      requires Valid()
      modifies this`faults
      ensures rows.Some? ==> rows.value == Readable(TableOf(View(), f), ids) && faults == old(faults)
      ensures rows.None? ==> faults > old(faults)
    {
      var table := TableOf(View(), f);
      var read: Table := map[];
      var todo := ids;
      while todo != {}
        invariant todo <= ids && read == Readable(table, ids - todo) && faults == old(faults)
        decreases todo
      {
        var chunk := TakeChunk(todo);
        var error: bool := *;
        if error {
          faults := faults + 1;
          return None;
        }
        ReadChunk(table, ids, todo, chunk);
        read := read + Readable(table, chunk);
        todo := todo - chunk;
      }
      assert ids - {} == ids;
      return Some(read);
    }

    /** `_name_table_matches_state`; `failed` when the table could not be read. */
    method TableMatches(f: Field, state: NameState) returns (ok: bool, failed: bool)
      requires Valid()
      modifies this`faults
      ensures ok <==> !failed && Passes(TableOf(View(), f), state, f)
      ensures if failed then faults > old(faults) else faults == old(faults)
    {
      var rows := ReadNames(f, state.Keys);
      if rows.None? {
        return false, true;
      }
      failed := false;
      var todo := state.Keys;
      while todo != {}
        invariant todo <= state.Keys
        invariant forall id :: id in state && id !in todo ==> PassesAt(TableOf(View(), f), state, f, id)
        decreases todo
      {
        var id :| id in todo;
        var expected := Of(state[id], f);
        if expected.Some? {
          if id !in rows.value {
            assert !PassesAt(TableOf(View(), f), state, f, id);
            return false, false;
          }
          var actual := rows.value[id];
          if actual.None? || actual.value == "" || expected != actual {
            assert !PassesAt(TableOf(View(), f), state, f, id);
            return false, false;
          }
        }
        todo := todo - {id};
      }
      ok := true;
    }

    /** `_name_tables_match_state` */
    method TablesMatch(state: NameState) returns (ok: bool, failed: bool)
      requires Valid()
      modifies this`faults
      ensures if failed then faults > old(faults) else faults == old(faults)
      ensures ok ==> Passes(longnames, state, LongName) && Passes(shortnames, state, ShortName)
      ensures !ok && !failed ==> !(Passes(longnames, state, LongName) && Passes(shortnames, state, ShortName))
    {
      ok, failed := TableMatches(LongName, state);
      if ok {
        ok, failed := TableMatches(ShortName, state);
      }
    }

    /** `sync_name_tables_if_changed`; `nodes` is `None` when it is no dictionary. */
    method SyncIfChanged(nodes: Option<seq<Node>>, key: KeyOf, previous: Option<NameState>)
      returns (result: Option<NameState>, outcome: Outcome)
      requires Valid()
      modifies this
      ensures SyncCall(key, Call(old(View()), nodes, previous, View(), result, outcome, faults > old(faults)))
    {
      if nodes.None? || nodes.value == [] {
        return previous, Ignored;
      }
      var currentState, currentIds, complete := CollectNodeNameSnapshot(nodes, key);
      if complete {
        CompleteMeansJoined(nodes.value, key, "");
      }
      if !complete && previous.Some? {
        currentState := WithPrevious(currentState, previous.value);
      }
      if !complete && currentState == map[] {
        return previous, Ignored;
      }
      var ok: bool;
      if previous == Some(currentState) {
        if complete {
          ok := PruneAtomic(currentIds);
          if !ok {
            return previous, Failed;
          }
        }
        var failed;
        ok, failed := TablesMatch(currentState);
        if !ok {
          ok := SyncAtomic(currentState, currentIds, complete);
          return if ok then Some(currentState) else previous, if ok then Written else Failed;
        }
        return Some(currentState), Confirmed;
      }
      ok := SyncAtomic(currentState, currentIds, complete);
      return if ok then Some(currentState) else previous, if ok then Written else Failed;
    }

    /** One single-row transaction of `save_longname`, `delete_longname` and their like. */
    method SaveOrDelete(f: Field, id: NodeId, name: Name) returns (ok: bool)
      modifies this
      ensures ok && name.Some? ==> TableOf(View(), f) == old(TableOf(View(), f))[id := name]
      ensures ok && name.None? ==> TableOf(View(), f) == old(TableOf(View(), f)) - {id}
      ensures !ok ==> View() == old(View())
      ensures if ok then faults == old(faults) else faults > old(faults)
      ensures f.LongName? ==> shortnames == old(shortnames)
      ensures f.ShortName? ==> longnames == old(longnames)
    {
      ok := *;
      if !ok {
        faults := faults + 1;
      } else if name.Some? {
        Upsert(f, id, name);
      } else {
        DeleteRows(f, {id});
      }
    }

    /** Save or delete the rows one by one, going on after a failure. */
    method SaveNames(f: Field, names: map<NodeId, Name>, complete: bool) returns (ok: bool)
      modifies this
      ensures PartlyUpdated(old(TableOf(View(), f)), TableOf(View(), f), names, complete)
      ensures ok ==> FullyUpdated(old(TableOf(View(), f)), TableOf(View(), f), names, complete, names.Keys)
      ensures if ok then faults == old(faults) else faults > old(faults)
      ensures f.LongName? ==> shortnames == old(shortnames)
      ensures f.ShortName? ==> longnames == old(longnames)
    {
      ghost var before := TableOf(View(), f);
      ok := true;
      ghost var saved: set<NodeId> := {};
      var todo := names.Keys;
      while todo != {}
        invariant saved <= names.Keys && todo <= names.Keys && saved !! todo
        invariant FullyUpdated(before, TableOf(View(), f), names, complete, saved)
        invariant ok ==> saved + todo == names.Keys
        invariant if ok then faults == old(faults) else faults > old(faults)
        invariant f.LongName? ==> shortnames == old(shortnames)
        invariant f.ShortName? ==> longnames == old(longnames)
        decreases todo
      {
        var id :| id in todo;
        todo := todo - {id};
        ghost var table := TableOf(View(), f);
        var done := true;
        if names[id].Some? || complete {
          done := SaveOrDelete(f, id, names[id]);
        }
        if !done {
          ok := false;
        } else {
          SavedOne(before, table, TableOf(View(), f), names, complete, saved, id);
          saved := saved + {id};
        }
      }
    }

    /** `_update_names_core`: one field, one transaction per row. */
    method UpdateNames(f: Field, nodes: seq<Node>, key: KeyOf) returns (ok: bool, names: map<NodeId, Name>, complete: bool)
      requires Valid()
      modifies this
      ensures exists ids :: Form(nodes, key, f, names, ids, complete)
      ensures ok && complete && nodes != [] ==> TableOf(View(), f) == Known(names)
      ensures ok && !complete ==> TableOf(View(), f) == old(TableOf(View(), f)) + Known(names)
      ensures !ok || !complete ==> PartlyUpdated(old(TableOf(View(), f)), TableOf(View(), f), names, complete)
      ensures nodes == [] ==> ok && View() == old(View())
      ensures if ok then faults == old(faults) else faults > old(faults)
      ensures f.LongName? ==> shortnames == old(shortnames)
      ensures f.ShortName? ==> longnames == old(longnames)
    {
      var ids;
      names, ids, complete := CollectSingleName(nodes, key, f);
      ok := true;
      if nodes == [] {
        return;
      }
      ghost var before := TableOf(View(), f);
      ok := SaveNames(f, names, complete);
      if ok && !complete {
        SavedAllOverrides(before, TableOf(View(), f), names);
      }
      if complete {
        CompleteListsEveryId(nodes, key, f, names, ids);
      }
      if ids != {} && complete && ok {
        var updated := View();
        DeleteStaleNames(f, ids);
        ok := Commit(updated);
      }
    }
  }

  // ---------------------------------------------------------------- proofs about the tables

  lemma PruneChunk(t: Table, keep: set<NodeId>, rest: set<NodeId>, chunk: set<NodeId>)
    requires chunk <= rest && chunk != {} && keep !! rest
    ensures Pruned(t, keep + rest) - chunk == Pruned(t, keep + (rest - chunk))
    ensures rest - chunk < rest
  {
    var id :| id in chunk;
  }

  lemma OverrideOne(t: Table, state: NameState, f: Field, complete: bool, done: set<NodeId>, id: NodeId)
    requires done <= state.Keys && id in state && id !in done
    ensures var before, after := Overridden(t, state, f, complete, done), Overridden(t, state, f, complete, done + {id});
      && (Of(state[id], f).Some? ==> after == before[id := Of(state[id], f)])
      && (Of(state[id], f).None? && complete ==> after == before - {id})
      && (Of(state[id], f).None? && !complete ==> after == before)
  {
  }

  lemma SyncComposes(t: Table, state: NameState, f: Field, ids: set<NodeId>, complete: bool)
    requires complete ==> state.Keys == ids
    ensures var written := Overridden(t, state, f, complete, state.Keys);
      Synced(t, state, f, complete) == if complete then Pruned(written, ids) else written
  {
  }

  lemma ReadChunk(t: Table, ids: set<NodeId>, todo: set<NodeId>, chunk: set<NodeId>)
    requires chunk <= todo <= ids && chunk != {}
    ensures Readable(t, ids - todo) + Readable(t, chunk) == Readable(t, ids - (todo - chunk))
    ensures todo - chunk < todo
  {
    var id :| id in chunk;
  }

  lemma SavedOne(before: Table, table: Table, after: Table, names: map<NodeId, Name>, complete: bool, saved: set<NodeId>, id: NodeId)
    requires FullyUpdated(before, table, names, complete, saved) && id in names && id !in saved
    requires after == if names[id].Some? then table[id := names[id]] else if complete then table - {id} else table
    ensures FullyUpdated(before, after, names, complete, saved + {id})
  {
    forall i ensures if i in saved + {id} then UpdatedAt(before, after, names, complete, i) else UntouchedAt(before, after, i) {
      assert if i in saved then UpdatedAt(before, table, names, complete, i) else UntouchedAt(before, table, i);
    }
  }

  lemma SavedAllOverrides(before: Table, after: Table, names: map<NodeId, Name>)
    requires FullyUpdated(before, after, names, false, names.Keys)
    ensures after == before + Known(names)
  {
    forall id
      ensures id in after <==> id in before + Known(names)
      ensures id in after ==> after[id] == (before + Known(names))[id]
    {
      assert if id in names.Keys then UpdatedAt(before, after, names, false, id) else UntouchedAt(before, after, id);
    }
  }

  lemma CompleteListsEveryId(nodes: seq<Node>, key: KeyOf, f: Field, names: map<NodeId, Name>, ids: set<NodeId>)
    requires Form(nodes, key, f, names, ids, true) && nodes != []
    ensures names.Keys == ids && ids != {}
  {
    forall id ensures id in names <==> id in ids {
      assert FormAt(nodes, key, f, names, ids, id);
    }
    assert NamesReadable(nodes[0], f) && Mentions(nodes, key, key(nodes[0].id));
    assert FormAt(nodes, key, f, names, ids, key(nodes[0].id));
  }

  // ---------------------------------------------------------------- what one call guarantees

  /**
   A call that ends in success leaves both tables with every name of the state it returns,
   and, if the snapshot was complete, with no row for an id outside the snapshot. A call
   that fails returns the previous state and has at most removed rows.
   */
  lemma SuccessAgrees(key: KeyOf, c: Call, f: Field)
    requires SyncCall(key, c)
    ensures c.outcome.Written? || c.outcome.Confirmed? ==> c.result.Some? && TablesAgree(c.after, c.result.value)
    ensures (c.outcome.Written? || c.outcome.Confirmed?) && Collect(c.nodes.value, key).complete ==>
      TableOf(c.after, f).Keys <= Collect(c.nodes.value, key).ids
    ensures c.outcome.Failed? ==> c.result == c.previous
    ensures c.outcome.Failed? ==> forall id :: id in TableOf(c.after, f) ==> UntouchedAt(TableOf(c.before, f), TableOf(c.after, f), id)
  {
    if c.nodes.Some? && Collect(c.nodes.value, key).complete {
      CompleteMeansJoined(c.nodes.value, key, "");
    }
  }

  /**
   What the snapshot says arrives: after a successful call both tables hold every name it
   gives, whatever the previous state said, and the state returned has it too.
   */
  lemma SnapshotReachesTables(key: KeyOf, c: Call, id: NodeId)
    requires SyncCall(key, c) && (c.outcome.Written? || c.outcome.Confirmed?) && id in Collect(c.nodes.value, key).state
    ensures var said := Collect(c.nodes.value, key).state[id];
      && c.result.Some? && id in c.result.value
      && (said.longName.Some? ==>
            id in c.after.longnames && c.after.longnames[id] == said.longName == c.result.value[id].longName)
      && (said.shortName.Some? ==>
            id in c.after.shortnames && c.after.shortnames[id] == said.shortName == c.result.value[id].shortName)
  {
    SuccessAgrees(key, c, LongName);
    var state := c.result.value;
    assert Of(state[id], LongName).Some? ==> c.after.longnames[id] == Of(state[id], LongName);
    assert Of(state[id], ShortName).Some? ==> c.after.shortnames[id] == Of(state[id], ShortName);
  }

  /**
   The state a successful call returns: the snapshot's if it was complete, and otherwise
   every id of either, with the snapshot's name where it gives one and the previous name
   where it does not.
   */
  lemma ResultFromSnapshot(key: KeyOf, c: Call, id: NodeId)
    requires SyncCall(key, c) && (c.outcome.Written? || c.outcome.Confirmed?)
    ensures var r, known := Collect(c.nodes.value, key), c.previous.Some? && id in c.previous.value;
      && c.result.Some?
      && (r.complete || c.previous.None? ==> c.result.value == r.state)
      && (!r.complete ==> (id in c.result.value <==> id in r.state || known))
      && (!r.complete && id in r.state && known ==>
            && c.result.value[id].longName ==
                 (if r.state[id].longName.Some? then r.state[id].longName else c.previous.value[id].longName)
            && c.result.value[id].shortName ==
                 (if r.state[id].shortName.Some? then r.state[id].shortName else c.previous.value[id].shortName))
      && (!r.complete && id in r.state && !known ==> c.result.value[id] == r.state[id])
      && (!r.complete && id !in r.state && known ==> c.result.value[id] == c.previous.value[id])
  {
  }

  /**
   A call changes nothing exactly when it has no snapshot, an empty one, or an incomplete
   one that together with the previous state knows no id.
   */
  lemma IgnoredExactly(key: KeyOf, c: Call)
    requires SyncCall(key, c)
    ensures c.outcome.Ignored? <==>
      || c.nodes.None? || c.nodes.value == []
      || (!Collect(c.nodes.value, key).complete && Collect(c.nodes.value, key).state == map[]
          && (c.previous.None? || c.previous.value == map[]))
    ensures c.outcome.Ignored? ==> c.after == c.before && c.result == c.previous
  {
    if c.nodes.Some? && c.nodes.value != [] && c.previous.Some? {
      var r := Collect(c.nodes.value, key);
      var merged := WithPrevious(r.state, c.previous.value);
      if id :| id in r.state {
        assert id in merged;
      }
      if id :| id in c.previous.value {
        assert id in merged;
      }
    }
  }

  /** The snapshot leaves what is known of `id` as it is. */
  ghost predicate NoNews(r: Snapshot, previous: NameState, id: NodeId) {
    && (r.complete ==> (id in r.state <==> id in previous))
    && (id in r.state ==>
          && id in previous
          && (r.complete || r.state[id].longName.Some? ==> r.state[id].longName == previous[id].longName)
          && (r.complete || r.state[id].shortName.Some? ==> r.state[id].shortName == previous[id].shortName))
  }

  /** Both tables have the names known of `id`, and none of these is empty. */
  ghost predicate NoDrift(db: Tables, previous: NameState, id: NodeId) {
    id in previous ==>
      && (previous[id].longName.Some? ==>
            id in db.longnames && db.longnames[id] == previous[id].longName && previous[id].longName != Some(""))
      && (previous[id].shortName.Some? ==>
            id in db.shortnames && db.shortnames[id] == previous[id].shortName && previous[id].shortName != Some(""))
  }

  lemma NewsExactly(key: KeyOf, nodes: seq<Node>, previous: NameState)
    ensures CurrentState(Collect(nodes, key), Some(previous)) == previous <==>
      forall id :: NoNews(Collect(nodes, key), previous, id)
  {
    var r := Collect(nodes, key);
    var state := CurrentState(r, Some(previous));
    if state == previous {
      forall id ensures NoNews(r, previous, id) {
        assert id in state <==> id in previous;
      }
    }
    if forall id :: NoNews(r, previous, id) {
      forall id ensures (id in state <==> id in previous) && (id in state ==> state[id] == previous[id]) {
        assert NoNews(r, previous, id);
      }
      assert state == previous;
    }
  }

  lemma DriftExactly(db: Tables, state: NameState, ids: set<NodeId>, complete: bool)
    requires complete ==> state.Keys == ids
    ensures var pruned := if complete then PrunedTables(db, ids) else db;
      Passes(pruned.longnames, state, LongName) && Passes(pruned.shortnames, state, ShortName) <==>
      forall id :: NoDrift(db, state, id)
  {
    var pruned := if complete then PrunedTables(db, ids) else db;
    forall id | id in state
      ensures NoDrift(db, state, id) <==>
              PassesAt(pruned.longnames, state, LongName, id) && PassesAt(pruned.shortnames, state, ShortName, id)
    {
    }
    if forall id :: NoDrift(db, state, id) {
      forall id | id in state ensures PassesAt(pruned.longnames, state, LongName, id) && PassesAt(pruned.shortnames, state, ShortName, id) {
        assert NoDrift(db, state, id);
      }
    } else {
      var id :| !NoDrift(db, state, id);
    }
  }

  /**
   Without database errors a call that had something to act upon succeeds, and it takes
   the unchanged path exactly when the snapshot brings no news of any id and no table has
   drifted from the names known; otherwise it writes.
   */
  lemma OutcomeExactly(key: KeyOf, c: Call)
    requires SyncCall(key, c) && !c.faulty && !c.outcome.Ignored?
    ensures c.outcome.Confirmed? <==>
      && c.previous.Some?
      && (forall id :: NoNews(Collect(c.nodes.value, key), c.previous.value, id))
      && (forall id :: NoDrift(c.before, c.previous.value, id))
    ensures c.outcome.Confirmed? || c.outcome.Written?
  {
    if c.previous.Some? {
      var r := Collect(c.nodes.value, key);
      if r.complete {
        CompleteMeansJoined(c.nodes.value, key, "");
      }
      NewsExactly(key, c.nodes.value, c.previous.value);
      if CurrentState(r, c.previous) == c.previous.value {
        DriftExactly(c.before, c.previous.value, r.ids, r.complete);
      }
    }
  }

  /** When the sync ran on a complete snapshot, a table is exactly the names of the state. */
  lemma CompleteSyncIsExact(key: KeyOf, c: Call, f: Field)
    requires SyncCall(key, c) && c.outcome.Written? && Collect(c.nodes.value, key).complete
    ensures TableOf(c.after, f) == Projection(c.result.value, f)
    ensures c.result.value.Keys == Collect(c.nodes.value, key).ids
  {
    CompleteMeansJoined(c.nodes.value, key, "");
  }

  /** From an incomplete snapshot a table is overridden where a name is known, and loses no row. */
  lemma IncompleteSyncOverrides(key: KeyOf, c: Call, f: Field, id: NodeId)
    requires SyncCall(key, c) && c.outcome.Written? && !Collect(c.nodes.value, key).complete
    ensures var state, t, t' := c.result.value, TableOf(c.before, f), TableOf(c.after, f);
      && (id in state && Of(state[id], f).Some? ==> id in t' && t'[id] == Of(state[id], f))
      && (!(id in state && Of(state[id], f).Some?) ==> UntouchedAt(t, t', id))
  {
  }

  /**
   On the unchanged path the drift check skips ids without a name. The tables then equal
   the state's names exactly when such ids had no row to begin with.
   */
  lemma ConfirmedIsExactIff(key: KeyOf, c: Call, f: Field)
    requires SyncCall(key, c) && c.outcome.Confirmed? && Collect(c.nodes.value, key).complete
    ensures TableOf(c.after, f) == Projection(c.result.value, f) <==>
      forall id :: id in c.result.value && Of(c.result.value[id], f).None? ==> id !in TableOf(c.before, f)
  {
    var state, t, t' := c.result.value, TableOf(c.before, f), TableOf(c.after, f);
    CompleteMeansJoined(c.nodes.value, key, "");
    assert t' == Pruned(t, state.Keys);
    if id :| id in state && Of(state[id], f).None? && id in t {
      assert id in t' && id !in Projection(state, f);
    }
  }

  /** A call on the unchanged path that leaves a long name for a node without one. */
  lemma ConfirmedLeavesRow() returns (c: Call)
    ensures SyncCall(PlainKey, c) && c.outcome.Confirmed? && Collect(c.nodes.value, PlainKey).complete
    ensures c.result == Some(map["!1" := Names(None, Some("B"))]) && c.after.longnames == map["!1" := Some("Old")]
  {
    var node := User(TextId("!1"), NoName, TextName("B"));
    var state: NameState := map["!1" := Names(None, Some("B"))];
    var db := Tables(map["!1" := Some("Old")], map["!1" := Some("B")]);
    c := Call(db, Some([node]), Some(state), db, Some(state), Confirmed, false);
    CollectMore([], node, PlainKey);
    assert [] + [node] == [node];
    assert Collect([node], PlainKey) == Snapshot(state, {"!1"}, {}, true);
    assert PrunedTables(db, {"!1"}) == db;
  }

  // ---------------------------------------------------------------- whole runs

  /** Successive calls: each gets the state the last one returned. */
  ghost predicate Run(key: KeyOf, calls: seq<Call>) {
    && (forall i :: 0 <= i < |calls| ==> SyncCall(key, calls[i]))
    && (forall i :: 0 < i < |calls| ==> calls[i].previous == calls[i - 1].result)
  }

  /** Nobody else writes the tables between the calls. */
  ghost predicate Undisturbed(calls: seq<Call>) {
    forall i :: 0 < i < |calls| ==> calls[i].before == calls[i - 1].after
  }

  ghost predicate Coherent(db: Tables, state: Option<NameState>) {
    state.Some? ==> TablesAgree(db, state.value)
  }

  lemma CallKeepsCoherence(key: KeyOf, c: Call)
    requires SyncCall(key, c) && Coherent(c.before, c.previous)
    ensures Coherent(c.after, c.result)
  {
    SuccessAgrees(key, c, LongName);
    if c.outcome.Failed? && Collect(c.nodes.value, key).complete {
      CompleteMeansJoined(c.nodes.value, key, "");
    }
  }

  /**
   The cached state is never ahead of the tables: over any run of snapshots and failed
   transactions, both tables hold every name of the state returned last.
   */
  lemma {:induction false} CacheStaysCoherent(key: KeyOf, calls: seq<Call>)
    requires Run(key, calls) && Undisturbed(calls) && calls != []
    requires Coherent(calls[0].before, calls[0].previous)
    ensures Coherent(calls[|calls| - 1].after, calls[|calls| - 1].result)
    decreases |calls|
  {
    if |calls| > 1 {
      CacheStaysCoherent(key, calls[..|calls| - 1]);
    }
    CallKeepsCoherence(key, calls[|calls| - 1]);
  }

  /** A snapshot that must not cause deletions: missing, empty or incomplete. */
  ghost predicate Partial(key: KeyOf, nodes: Option<seq<Node>>) {
    nodes.None? || nodes.value == [] || !Collect(nodes.value, key).complete
  }

  lemma PartialCallKeepsNames(key: KeyOf, c: Call, f: Field)
    requires SyncCall(key, c) && Partial(key, c.nodes)
    ensures NamedIds(TableOf(c.before, f)) <= NamedIds(TableOf(c.after, f))
    ensures c.previous.Some? ==> c.result.Some? && c.previous.value.Keys <= c.result.value.Keys
  {
  }

  /** Over any run of partial snapshots no named id is ever lost, from the tables or the state. */
  lemma {:induction false} PartialRunsKeepNames(key: KeyOf, calls: seq<Call>, f: Field)
    requires Run(key, calls) && Undisturbed(calls) && calls != []
    requires forall i :: 0 <= i < |calls| ==> Partial(key, calls[i].nodes)
    ensures var last := calls[|calls| - 1];
      && NamedIds(TableOf(calls[0].before, f)) <= NamedIds(TableOf(last.after, f))
      && (calls[0].previous.Some? ==> last.result.Some? && calls[0].previous.value.Keys <= last.result.value.Keys)
    decreases |calls|
  {
    PartialCallKeepsNames(key, calls[|calls| - 1], f);
    if |calls| > 1 {
      PartialRunsKeepNames(key, calls[..|calls| - 1], f);
    }
  }
}
