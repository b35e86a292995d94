/**
 `_initialize` as a method that changes the tables in place. Every statement may be the
 last one: SQLite can report an error, or the process can die. The postconditions speak
 of the state at that very moment, so they cover every interruption.
 */
module SchemaStore {
  import opened Common
  import opened SchemaRepair

  /** How a statement, or the whole routine, ended. */
  datatype Outcome = Done | SqlError | Killed {
    predicate IsFailure() { !Done? }
    function PropagateFailure(): Outcome { this }
  }

  class Database {
    var messageMap: Option<Table>
    var temp: Option<Table>
    var stale: Option<Table>
    var legacy: Option<Table>
    /** How often SQLite reported an error for which the tables give no reason. */
    ghost var faults: nat

    function View(): Db
      reads this
    {
      Db(messageMap, temp, stale, legacy)
    }

    constructor (db: Db)
      ensures View() == db
    {
      messageMap, temp, stale, legacy, faults := db.messageMap, db.temp, db.stale, db.legacy, 0;
    }

    /** One SQL statement. It takes effect as a whole or not at all. */
    method Execute(stmt: Stmt) returns (o: Outcome)
      modifies this
      ensures o.Done? ==> Exec(old(View()), stmt) == Some(View())
      ensures !o.Done? ==> View() == old(View())
      ensures if o.SqlError? then faults > old(faults) || Exec(old(View()), stmt).None? else faults == old(faults)
      ensures faults >= old(faults)
    {
      var after := Exec(View(), stmt);
      var killed: bool, ioError: bool := *, *;
      if killed {
        return Killed;
      }
      if ioError || after.None? {
        if ioError { faults := faults + 1; }
        return SqlError;
      }
      messageMap, temp, stale, legacy :=
        after.value.messageMap, after.value.temp, after.value.stale, after.value.legacy;
      return Done;
    }

    predicate IdIs(column: IdColumn)
      reads this
    {
      messageMap.Some? && messageMap.value.idColumn == column
    }

    method Prepare() returns (o: Outcome)
      requires WellFormed(View())
      modifies this
      ensures Progress(old(View()), View())
      ensures o.Done? ==> HasMesh(messageMap) && temp == old(temp) && stale == old(stale) && legacy == old(legacy)
      ensures o.Done? ==> Rebuilds(View()) == old(Rebuilds(View()))
      ensures o.Done? ==> (HasIds(View()) <==> old(HasIds(View())))
      ensures faults >= old(faults) && (o.SqlError? && faults == old(faults) ==> !old(HasIds(View())))
      ensures o.Done? ==> forall e :: At(messageMap, e) == old(At(messageMap, e))
      ensures o.Done? && old(Settled(View())) ==> View() == old(View())
    {
      o := CreateMapTable();
      if !o.Done? { return; }
      if !messageMap.value.hasMesh {
        :- Execute(AddMeshColumn);
      }
      return Done;
    }

    method CreateMapTable() returns (o: Outcome)
      requires WellFormed(View())
      modifies this
      ensures !o.Done? ==> View() == old(View())
      ensures o.Done? ==> messageMap == (if old(messageMap).Some? then old(messageMap) else Some(EMPTY_MAP))
      ensures o.Done? ==> temp == old(temp) && stale == old(stale) && legacy == old(legacy)
      ensures Progress(old(View()), View())
      ensures faults >= old(faults) && (o.SqlError? ==> faults > old(faults))
    {
      ghost var a := View();
      o := Execute(CreateMapIfMissing);
      assert forall e :: ProgressAt(a, View(), e);
    }

    method MergeStale() returns (o: Outcome)
      requires WellFormed(View()) && HasMesh(messageMap)
      modifies this
      ensures Progress(old(View()), View())
      ensures o.Done? ==> (HasIds(View()) <==> old(HasIds(View())))
      ensures faults >= old(faults) && (o.SqlError? && faults == old(faults) ==> !old(HasIds(View())))
      ensures o.Done? ==> stale.None? && HasMesh(messageMap) && legacy == old(legacy)
      ensures o.Done? ==> messageMap.value.idColumn == old(messageMap.value.idColumn)
      ensures o.Done? ==> forall e :: At(messageMap, e) == Front(old(View()), e) && At(temp, e) == Behind(old(View()), e)
      ensures o.Done? && old(Settled(View())) ==> View() == old(View())
    {
      ghost var a := View();
      if stale.Some? && temp.None? {
        RenameStaleProgress(a);
        :- Execute(RenameStaleToTemp);
      } else if stale.Some? && temp.Some? {
        if temp.value.hasMesh {
          if stale.value.hasMesh {
            :- Execute(CopyStaleToTemp(true));
          } else {
            :- Execute(CopyStaleToTemp(false));
          }
        } else {
          if stale.value.hasMesh {
            :- Execute(CopyToMap(Stale, true, false, true));
          } else {
            :- Execute(CopyStaleToTemp(false));
          }
        }
        if MeshOnlyInStale(a) { MergeIntoMapProgress(a, View()); } else { MergeIntoTempProgress(a, View()); }
        :- Execute(DropTable(Stale));
      }
      return Done;
    }

    method AbsorbTemp() returns (o: Outcome)
      requires WellFormed(View()) && HasMesh(messageMap) && stale.None?
      modifies this
      ensures Progress(old(View()), View())
      ensures o.Done? ==> stale.None? && HasMesh(messageMap) && legacy == old(legacy)
      ensures o.Done? ==> messageMap.value.idColumn == old(messageMap.value.idColumn)
      ensures o.Done? ==> (HasIds(View()) <==> old(HasIds(View())))
      ensures faults >= old(faults) && (o.SqlError? && faults == old(faults) ==> !old(HasIds(View())))
      ensures o.Done? && IdIs(TextColumn) ==>
        temp.None? && forall e :: At(messageMap, e) == old(OrElse(At(messageMap, e), At(temp, e)))
      ensures o.Done? && !IdIs(TextColumn) ==> View() == old(View())
      ensures o.Done? && old(Settled(View())) ==> View() == old(View())
    {
      ghost var a := View();
      if temp.Some? && IdIs(TextColumn) {
        :- Execute(CopyToMap(Temp, temp.value.hasMesh, true, true));
        AbsorbProgress(a, View(), Temp);
        :- Execute(DropTable(Temp));
      }
      return Done;
    }

    method AbsorbLegacy() returns (o: Outcome)
      requires WellFormed(View()) && HasMesh(messageMap) && stale.None?
      requires IdIs(TextColumn) ==> temp.None?
      modifies this
      ensures Progress(old(View()), View())
      ensures o.Done? ==> stale.None? && HasMesh(messageMap) && temp == old(temp)
      ensures o.Done? ==> messageMap.value.idColumn == old(messageMap.value.idColumn)
      ensures o.Done? ==> (HasIds(View()) <==> old(HasIds(View())))
      ensures faults >= old(faults) && (o.SqlError? && faults == old(faults) ==> !old(HasIds(View())))
      ensures o.Done? && IdIs(TextColumn) ==>
        legacy.None? && forall e :: At(messageMap, e) == old(OrElse(At(messageMap, e), At(legacy, e)))
      ensures o.Done? && !IdIs(TextColumn) ==> View() == old(View())
      ensures o.Done? && old(Settled(View())) ==> View() == old(View())
    {
      ghost var a := View();
      if legacy.Some? && !IdIs(OtherColumn) {
        :- Execute(CopyToMap(Legacy, legacy.value.hasMesh, true, true));
        AbsorbProgress(a, View(), Legacy);
        :- Execute(DropTable(Legacy));
      }
      return Done;
    }

    predicate TextMap()
      reads this
    {
      IdIs(TextColumn) && messageMap.value.hasMesh
    }

    /** Set the old table aside and copy it into a fresh TEXT table. */
    method CopyIntoFreshTable() returns (o: Outcome)
      requires WellFormed(View()) && HasMesh(messageMap) && stale.None? && IdIs(OtherColumn)
      modifies this
      ensures Progress(old(View()), View())
      ensures o.Done? ==> (HasIds(View()) <==> old(HasIds(View())))
      ensures faults >= old(faults) && (o.SqlError? && faults == old(faults) ==> !old(HasIds(View())))
      ensures o.Done? ==> WellFormed(View()) && TextMap()
      ensures o.Done? ==> temp == old(messageMap) && stale == old(temp) && legacy == old(legacy)
      ensures o.Done? ==> forall e :: At(messageMap, e) == Rebuilt(old(View()), e, false, false)
    {
      ghost var a := View();
      if temp.Some? {
        :- Execute(DropTable(Stale));
        RenameTempProgress(a);
        :- Execute(RenameTempToStale);
      }
      RenamedStage(a, a.(messageMap := None, temp := a.messageMap, stale := a.temp));
      RenamedStage(a, a.(messageMap := Some(EMPTY_MAP), temp := a.messageMap, stale := a.temp));
      :- Execute(RenameMapToTemp);
      :- Execute(CreateMap);
      MergedRows(EMPTY_MAP, temp.value, true, true);
      :- Execute(CopyToMap(Temp, true, true, false));
      CopiedStage(a, View(), false, false);
      return Done;
    }

    /** Bring the legacy rows into the fresh table and drop the old one. */
    method AbsorbLegacyIntoFresh(ghost a: Db) returns (o: Outcome)
      requires WellFormed(a) && Rebuilds(a) && HasMesh(a.messageMap) && a.stale.None?
      requires WellFormed(View()) && TextMap() && temp == a.messageMap && stale == a.temp && legacy == a.legacy
      requires forall e :: At(messageMap, e) == Rebuilt(a, e, false, false)
      modifies this
      ensures Progress(a, View())
      ensures o.Done? ==> (HasIds(View()) <==> old(HasIds(View())))
      ensures faults >= old(faults) && (o.SqlError? && faults == old(faults) ==> !old(HasIds(View())))
      ensures o.Done? ==> HasId(legacy)
      ensures o.Done? ==> WellFormed(View()) && TextMap() && temp.None? && stale == a.temp && legacy == a.legacy
      ensures o.Done? ==> forall e :: At(messageMap, e) == Rebuilt(a, e, true, false)
    {
      CopiedStage(a, View(), false, false);
      if legacy.Some? {
        MergedRows(messageMap.value, legacy.value, legacy.value.hasMesh, true);
        :- Execute(CopyToMap(Legacy, legacy.value.hasMesh, true, true));
      }
      CopiedStage(a, View(), true, false);
      :- Execute(DropTable(Temp));
      CopiedStage(a, View(), true, false);
      return Done;
    }

    /** Merge the earlier temporary back, unless SQLite refuses, and drop what is used up. */
    method MergeBackStale(ghost a: Db) returns (o: Outcome, mergeFailed: bool)
      requires WellFormed(a) && Rebuilds(a) && HasMesh(a.messageMap) && a.stale.None?
      requires WellFormed(View()) && TextMap() && temp.None? && stale == a.temp && legacy == a.legacy && HasId(legacy)
      requires forall e :: At(messageMap, e) == Rebuilt(a, e, true, false)
      modifies this
      ensures Progress(a, View())
      ensures o.Done? && !mergeFailed ==> Settled(View())
      ensures o.Done? && !mergeFailed ==> forall e :: At(messageMap, e) == Rebuilt(a, e, true, true)
      ensures o.Done? && mergeFailed ==> stale == a.temp
      ensures o.Done? && !mergeFailed ==> old(HasIds(View()))
      ensures faults >= old(faults)
      ensures !o.Killed? && faults == old(faults) ==> (o.Done? && !mergeFailed <==> old(HasIds(View())))
    {
      mergeFailed := false;
      CopiedStage(a, View(), true, false);
      if stale.Some? {
        MergedRows(messageMap.value, stale.value, stale.value.hasMesh, false);
        o := Execute(CopyToMap(Stale, stale.value.hasMesh, false, true));
        if o.Killed? {
          return;
        }
        if o.Done? {
          CopiedStage(a, View(), true, true);
          :- Execute(DropTable(Stale));
        } else {
          mergeFailed := true;
        }
      }
      CopiedStage(a, View(), true, !mergeFailed);
      :- Execute(DropTable(Legacy));
      CopiedStage(a, View(), true, !mergeFailed);
      return Done, mergeFailed;
    }

    /**
     The rebuild of a table whose id column is not TEXT. `mergeFailed` reports that the
     preserved temporary could not be merged back; it then stays for the next start.
     */
    method Rebuild() returns (o: Outcome, mergeFailed: bool)
      requires WellFormed(View()) && HasMesh(messageMap) && stale.None? && IdIs(OtherColumn)
      modifies this
      ensures Progress(old(View()), View())
      ensures o.Done? && !mergeFailed ==> Settled(View())
      ensures o.Done? && !mergeFailed ==> forall e :: At(messageMap, e) == Final(old(View()), e)
      ensures faults >= old(faults)
      ensures !o.Killed? && faults == old(faults) ==> (o.Done? && !mergeFailed <==> old(HasIds(View())))
    {
      ghost var a := View();
      mergeFailed := false;
      :- CopyIntoFreshTable();
      :- AbsorbLegacyIntoFresh(a);
      o, mergeFailed := MergeBackStale(a);
      if o.Done? && !mergeFailed {
        assert forall e :: Final(a, e) == Rebuilt(a, e, true, true);
      }
    }

    /**
     The whole routine, from any state of the four tables. Left alone by the operating
     system it completes exactly if every table there is has a column for the node id.
     */
    method Initialize() returns (o: Outcome, mergeFailed: bool)
      requires WellFormed(View())
      modifies this
      ensures Progress(old(View()), View())
      ensures o.Done? && !mergeFailed ==> Settled(View())
      ensures o.Done? && !mergeFailed ==> forall e :: At(messageMap, e) == Final(old(View()), e)
      ensures o.Done? && old(Settled(View())) ==> View() == old(View())
      ensures !o.Killed? && faults == old(faults) ==> (o.Done? && !mergeFailed <==> old(HasIds(View())))
    {
      ghost var a := View();
      mergeFailed := false;
      :- Prepare();
      ghost var b := View();
      o := MergeStale();
      ProgressTransitive(a, b, View());
      if !o.Done? { return; }
      ghost var c := View();
      o := AbsorbTemp();
      ProgressTransitive(a, c, View());
      if !o.Done? { return; }
      ghost var d := View();
      o := AbsorbLegacy();
      ProgressTransitive(a, d, View());
      if !o.Done? { return; }
      if IdIs(OtherColumn) {
        ghost var r := View();
        o, mergeFailed := Rebuild();
        ProgressTransitive(a, r, View());
        if !o.Done? { return; }
      }
      :- Execute(CreateIndex);
      return Done, mergeFailed;
    }
  }
}
