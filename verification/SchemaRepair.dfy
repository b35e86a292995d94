/**
 Repair of the `message_map` schema at start-up (`initialize_database`).

 The database holds up to four tables that may carry mapping rows: `message_map`, the
 two temporaries `message_map_old_temp` and `message_map_stale_temp`, and
 `message_map_legacy`. The repair moves rows between them, statement by statement, and
 any statement can be the last one a run executes.
 */
module SchemaRepair {
  import opened Common

  type EventId = string

  datatype MeshId = Number(n: int) | Text(s: string)

  function CastText(id: MeshId): MeshId {
    match id
    case Number(n) => Text(Decimal(n))
    case Text(_) => id
  }

  datatype Row = Row(id: MeshId, room: string, text: string, mesh: Option<string>)

  /** What must survive of a row: everything, with the node id compared as text. */
  function Canonical(row: Row): Row { row.(id := CastText(row.id)) }

  datatype IdColumn = NoIdColumn | TextColumn | OtherColumn

  /** Rows are keyed by `matrix_event_id`; without a meshnet column they have no meshnet. */
  datatype Table = Table(idColumn: IdColumn, hasMesh: bool, rows: map<EventId, Row>)

  datatype Side = Temp | Stale | Legacy

  datatype Db = Db(messageMap: Option<Table>, temp: Option<Table>, stale: Option<Table>, legacy: Option<Table>)

  ghost predicate TableOk(t: Option<Table>) {
    t.Some? && !t.value.hasMesh ==> forall e :: e in t.value.rows ==> t.value.rows[e].mesh.None?
  }

  ghost predicate WellFormed(db: Db) {
    TableOk(db.messageMap) && TableOk(db.temp) && TableOk(db.stale) && TableOk(db.legacy)
  }

  predicate HasId(t: Option<Table>) { t.Some? ==> !t.value.idColumn.NoIdColumn? }

  /** Every table there is has a column for the node id. */
  predicate HasIds(db: Db) { HasId(db.messageMap) && HasId(db.temp) && HasId(db.stale) && HasId(db.legacy) }

  // ---------------------------------------------------------------- statements

  datatype Stmt =
    | CreateMapIfMissing
    | AddMeshColumn
    | RenameStaleToTemp
    | RenameTempToStale
    | RenameMapToTemp
    | CreateMap
    | CopyStaleToTemp(withMesh: bool)                              // INSERT OR IGNORE
    | CopyToMap(from: Side, withMesh: bool, cast: bool, ignore: bool)  // INSERT [OR IGNORE]
    | DropTable(side: Side)
    | CreateIndex

  const EMPTY_MAP := Table(TextColumn, true, map[])

  function SideTable(db: Db, side: Side): Option<Table> {
    match side
    case Temp => db.temp
    case Stale => db.stale
    case Legacy => db.legacy
  }

  /** A row of `src` as `dst` stores it: text columns turn ids into text. */
  function Stored(dst: Table, row: Row, withMesh: bool, cast: bool): Row {
    var id := if cast || dst.idColumn.TextColumn? then CastText(row.id) else row.id;
    Row(id, row.room, row.text, if withMesh then row.mesh else None)
  }

  /** `dst` with the rows of `src` it did not have yet. */
  function Merged(dst: Table, src: Table, withMesh: bool, cast: bool): Table {
    dst.(rows := map e | e in dst.rows.Keys + src.rows.Keys ::
      if e in dst.rows then dst.rows[e] else Stored(dst, src.rows[e], withMesh, cast))
  }

  /** The effect of one statement; `None` is an SQLite error, which changes nothing. */
  function Exec(db: Db, stmt: Stmt): Option<Db> {
    match stmt
    case CreateMapIfMissing => Some(if db.messageMap.Some? then db else db.(messageMap := Some(EMPTY_MAP)))
    case AddMeshColumn =>
      if db.messageMap.None? || db.messageMap.value.hasMesh then None
      else Some(db.(messageMap := Some(db.messageMap.value.(hasMesh := true))))
    case RenameStaleToTemp =>
      if db.stale.None? || db.temp.Some? then None else Some(db.(temp := db.stale, stale := None))
    case RenameTempToStale =>
      if db.temp.None? || db.stale.Some? then None else Some(db.(stale := db.temp, temp := None))
    case RenameMapToTemp =>
      if db.messageMap.None? || db.temp.Some? then None else Some(db.(temp := db.messageMap, messageMap := None))
    case CreateMap => if db.messageMap.Some? then None else Some(db.(messageMap := Some(EMPTY_MAP)))
    case CopyStaleToTemp(withMesh) =>
      if db.temp.None? || db.stale.None? then None
      else
        var dst, src := db.temp.value, db.stale.value;
        if dst.idColumn.NoIdColumn? || src.idColumn.NoIdColumn? then None
        else if withMesh && !(dst.hasMesh && src.hasMesh) then None
        else Some(db.(temp := Some(Merged(dst, src, withMesh, false))))
    case CopyToMap(from, withMesh, cast, ignore) =>
      if db.messageMap.None? || SideTable(db, from).None? then None
      else
        var dst, src := db.messageMap.value, SideTable(db, from).value;
        if dst.idColumn.NoIdColumn? || src.idColumn.NoIdColumn? || !dst.hasMesh then None
        else if withMesh && !src.hasMesh then None
        else if !ignore && exists e :: e in dst.rows && e in src.rows then None
        else Some(db.(messageMap := Some(Merged(dst, src, withMesh, cast))))
    case DropTable(side) =>
      Some(match side
           case Temp => db.(temp := None)
           case Stale => db.(stale := None)
           case Legacy => db.(legacy := None))
    case CreateIndex =>
      if db.messageMap.None? || db.messageMap.value.idColumn.NoIdColumn? then None else Some(db)
  }

  // ---------------------------------------------------------------- what a database holds

  function At(t: Option<Table>, e: EventId): (r: Option<Row>) {
    if t.Some? && e in t.value.rows then Some(Canonical(t.value.rows[e])) else None
  }

  function OrElse(a: Option<Row>, b: Option<Row>): Option<Row> { if a.Some? then a else b }

  predicate HasMesh(t: Option<Table>) { t.Some? && t.value.hasMesh }

  /** Both temporaries exist and only the stale one knows meshnets. */
  predicate MeshOnlyInStale(db: Db) {
    db.temp.Some? && db.stale.Some? && !HasMesh(db.temp) && HasMesh(db.stale)
  }

  /** The id column is not TEXT, so the table will be rebuilt. */
  predicate Rebuilds(db: Db) { db.messageMap.Some? && db.messageMap.value.idColumn.OtherColumn? }

  function Front(db: Db, e: EventId): Option<Row> {
    if MeshOnlyInStale(db) then OrElse(At(db.messageMap, e), At(db.stale, e)) else At(db.messageMap, e)
  }

  function Behind(db: Db, e: EventId): Option<Row> {
    if MeshOnlyInStale(db) then At(db.temp, e) else OrElse(At(db.temp, e), At(db.stale, e))
  }

  /** The row a run that is never interrupted leaves for `e` in `message_map`. */
  function Final(db: Db, e: EventId): Option<Row> {
    if Rebuilds(db) then OrElse(OrElse(Front(db, e), At(db.legacy, e)), Behind(db, e))
    else OrElse(OrElse(Front(db, e), Behind(db, e)), At(db.legacy, e))
  }

  /** The row for `e` that no run, interrupted or not, can replace. */
  function Kept(db: Db, e: EventId): Option<Row> {
    if Rebuilds(db) then Front(db, e) else OrElse(Front(db, e), Behind(db, e))
  }

  /** A rebuild is due and the legacy table contradicts a temporary about `e`. */
  predicate Clash(db: Db, e: EventId) {
    && Rebuilds(db) && Front(db, e).None?
    && Behind(db, e).Some? && At(db.legacy, e).Some? && Behind(db, e) != At(db.legacy, e)
  }

  predicate Holds(db: Db, e: EventId, row: Row) {
    Some(row) in [At(db.messageMap, e), At(db.temp, e), At(db.stale, e), At(db.legacy, e)]
  }

  /** The event ids present in any of the four tables. */
  function EventIds(db: Db): set<EventId> {
    Ids(db.messageMap) + Ids(db.temp) + Ids(db.stale) + Ids(db.legacy)
  }

  function Ids(t: Option<Table>): set<EventId> { if t.Some? then t.value.rows.Keys else {} }

  lemma FinalHasEveryId(db: Db, e: EventId)
    ensures Final(db, e).Some? <==> e in EventIds(db)
  {
  }

  function FirstOf(rows: seq<Option<Row>>): Option<Row> {
    if rows == [] then None else if rows[0].Some? then rows[0] else FirstOf(rows[1..])
  }

  /**
   Which table wins: the map always, then the temporaries and the legacy table, but in a
   rebuild the legacy table comes first; and of the temporaries the stale one if only it
   has meshnets, which then also precedes the legacy table.
   */
  lemma FinalPrecedence(db: Db, e: EventId)
    ensures var map_, temp, stale, legacy := At(db.messageMap, e), At(db.temp, e), At(db.stale, e), At(db.legacy, e);
      var meshInStale := db.temp.Some? && db.stale.Some? && !db.temp.value.hasMesh && db.stale.value.hasMesh;
      var rebuild := db.messageMap.Some? && db.messageMap.value.idColumn.OtherColumn?;
      Final(db, e) == FirstOf(
        if meshInStale then (if rebuild then [map_, stale, legacy, temp] else [map_, stale, temp, legacy])
        else if rebuild then [map_, legacy, temp, stale] else [map_, temp, stale, legacy])
  {
    var map_, temp, stale, legacy := At(db.messageMap, e), At(db.temp, e), At(db.stale, e), At(db.legacy, e);
    FirstOfFour(map_, stale, legacy, temp);
    FirstOfFour(map_, stale, temp, legacy);
    FirstOfFour(map_, legacy, temp, stale);
    FirstOfFour(map_, temp, stale, legacy);
  }

  lemma FirstOfFour(a: Option<Row>, b: Option<Row>, c: Option<Row>, d: Option<Row>)
    ensures FirstOf([a, b, c, d]) == if a.Some? then a else if b.Some? then b else if c.Some? then c else d
  {
    assert [d][1..] == [] && FirstOf([d]) == d by { assert FirstOf([]) == None; }
    assert [c, d][1..] == [d] && FirstOf([c, d]) == if c.Some? then c else d;
    assert [b, c, d][1..] == [c, d] && [a, b, c, d][1..] == [b, c, d];
  }

  // ---------------------------------------------------------------- progress of a run

  ghost predicate ProgressAt(a: Db, b: Db, e: EventId) {
    && (Final(a, e).Some? <==> Final(b, e).Some?)
    && (Kept(a, e).Some? ==> Kept(b, e) == Kept(a, e))
    && (!Clash(a, e) ==> !Clash(b, e) && Final(b, e) == Final(a, e))
    && (forall row :: Holds(b, e, row) ==> Holds(a, e, row))
  }

  /** From `a` to `b` no event id appeared or vanished and no protected row changed. */
  ghost predicate Progress(a: Db, b: Db) {
    WellFormed(b) && forall e :: ProgressAt(a, b, e)
  }

  lemma ProgressTransitive(a: Db, b: Db, c: Db)
    requires Progress(a, b) && Progress(b, c)
    ensures Progress(a, c)
  {
    forall e ensures ProgressAt(a, c, e) {
      assert ProgressAt(a, b, e) && ProgressAt(b, c, e);
    }
  }

  ghost predicate Settled(db: Db) {
    && db.messageMap.Some? && db.messageMap.value.idColumn.TextColumn? && db.messageMap.value.hasMesh
    && db.temp.None? && db.stale.None? && db.legacy.None?
  }

  // ---------------------------------------------------------------- single statements

  /** Copying adds the rows the target lacks and loses nothing of them. */
  lemma MergedRows(dst: Table, src: Table, withMesh: bool, cast: bool)
    requires TableOk(Some(dst)) && TableOk(Some(src))
    requires src.hasMesh ==> withMesh
    requires withMesh ==> dst.hasMesh
    ensures TableOk(Some(Merged(dst, src, withMesh, cast)))
    ensures forall e :: At(Some(Merged(dst, src, withMesh, cast)), e) == OrElse(At(Some(dst), e), At(Some(src), e))
  {
    var m := Merged(dst, src, withMesh, cast);
    forall e ensures At(Some(m), e) == OrElse(At(Some(dst), e), At(Some(src), e)) {
      if e !in dst.rows && e in src.rows {
        assert m.rows[e] == Stored(dst, src.rows[e], withMesh, cast);
      }
    }
  }

  /** Merging the stale temporary into the other one, first the copy and then the drop. */
  lemma MergeIntoTempProgress(a: Db, b: Db)
    requires WellFormed(a) && a.temp.Some? && a.stale.Some? && !MeshOnlyInStale(a)
    requires Exec(a, CopyStaleToTemp(HasMesh(a.temp) && HasMesh(a.stale))) == Some(b)
    ensures Progress(a, b) && Progress(a, b.(stale := None))
    ensures forall e :: At(b.messageMap, e) == Front(a, e) && At(b.temp, e) == Behind(a, e)
  {
    MergedRows(a.temp.value, a.stale.value, HasMesh(a.temp) && HasMesh(a.stale), false);
    MergedFrame(a, b);
  }

  /** Merging it into `message_map` instead, when only it knows meshnets. */
  lemma MergeIntoMapProgress(a: Db, b: Db)
    requires WellFormed(a) && MeshOnlyInStale(a)
    requires Exec(a, CopyToMap(Stale, true, false, true)) == Some(b)
    ensures Progress(a, b) && Progress(a, b.(stale := None))
    ensures forall e :: At(b.messageMap, e) == Front(a, e) && At(b.temp, e) == Behind(a, e)
  {
    MergedRows(a.messageMap.value, a.stale.value, true, false);
    MergedFrame(a, b);
  }

  /** Once `message_map` and the temporary hold front and back, the stale copy is spare. */
  lemma MergedFrame(a: Db, b: Db)
    requires WellFormed(b) && b.legacy == a.legacy && b.stale == a.stale
    requires Rebuilds(a) == Rebuilds(b) && MeshOnlyInStale(a) == MeshOnlyInStale(b)
    requires forall e :: At(b.messageMap, e) == Front(a, e) && At(b.temp, e) == Behind(a, e)
    ensures Progress(a, b) && Progress(a, b.(stale := None))
  {
    var c := b.(stale := None);
    forall e ensures ProgressAt(a, b, e) && ProgressAt(a, c, e) {
      assert At(b.messageMap, e) == Front(a, e) && At(b.temp, e) == Behind(a, e);
      assert Front(b, e) == Front(a, e) && Behind(b, e) == Behind(a, e);
      assert Front(c, e) == Front(a, e) && Behind(c, e) == Behind(a, e);
    }
  }

  lemma RenameStaleProgress(a: Db)
    requires WellFormed(a) && a.temp.None? && a.stale.Some?
    ensures Progress(a, a.(temp := a.stale, stale := None))
  {
    forall e ensures ProgressAt(a, a.(temp := a.stale, stale := None), e) {
    }
  }

  lemma RenameTempProgress(a: Db)
    requires WellFormed(a) && a.temp.Some? && a.stale.None?
    ensures Progress(a, a.(stale := a.temp, temp := None))
  {
    forall e ensures ProgressAt(a, a.(stale := a.temp, temp := None), e) {
    }
  }

  /** Moving one side table into a TEXT `message_map`, first the copy and then the drop. */
  lemma AbsorbProgress(a: Db, b: Db, side: Side)
    requires WellFormed(a) && !Rebuilds(a) && a.stale.None? && SideTable(a, side).Some?
    requires side.Legacy? ==> a.temp.None?
    requires Exec(a, CopyToMap(side, HasMesh(SideTable(a, side)), true, true)) == Some(b)
    ensures Progress(a, b) && Progress(a, Exec(b, DropTable(side)).value)
    ensures forall e :: At(b.messageMap, e) == OrElse(At(a.messageMap, e), At(SideTable(a, side), e))
  {
    var src := SideTable(a, side).value;
    MergedRows(a.messageMap.value, src, src.hasMesh, true);
    var c := Exec(b, DropTable(side)).value;
    forall e ensures ProgressAt(a, b, e) && ProgressAt(a, c, e) {
      assert At(b.messageMap, e) == OrElse(At(a.messageMap, e), At(SideTable(a, side), e));
    }
  }

  // ---------------------------------------------------------------- the rebuild

  /**
   Between the rename of the old table and the copy its rows wait in the temporary, and
   an earlier temporary waits in the stale one.
   */
  lemma RenamedStage(a: Db, b: Db)
    requires WellFormed(a) && Rebuilds(a) && HasMesh(a.messageMap) && a.stale.None?
    requires b.messageMap in [None, Some(EMPTY_MAP)]
    requires b.temp == a.messageMap && b.stale == a.temp && b.legacy == a.legacy
    ensures Progress(a, b)
  {
    forall e ensures ProgressAt(a, b, e) {
      assert Front(b, e) == None && Front(a, e) == At(a.messageMap, e);
    }
  }

  /** What the rebuilt table holds for `e` while the rebuild of `a` goes on. */
  function Rebuilt(a: Db, e: EventId, absorbed: bool, merged: bool): Option<Row> {
    var own := At(a.messageMap, e);
    var withLegacy := if absorbed then OrElse(own, At(a.legacy, e)) else own;
    if merged then OrElse(withLegacy, At(a.temp, e)) else withLegacy
  }

  /**
   After the copy the new TEXT table has the old rows, then (`absorbed`) the legacy rows,
   then (`merged`) those of the earlier temporary; used-up tables may be gone.
   */
  lemma CopiedStage(a: Db, b: Db, absorbed: bool, merged: bool)
    requires WellFormed(a) && Rebuilds(a) && HasMesh(a.messageMap) && a.stale.None? && WellFormed(b)
    requires b.messageMap.Some? && b.messageMap.value.idColumn.TextColumn? && b.messageMap.value.hasMesh
    requires b.temp in [a.messageMap, None]
    requires b.stale == a.temp || (b.stale.None? && merged)
    requires b.legacy == a.legacy || (b.legacy.None? && absorbed)
    requires merged ==> absorbed
    requires forall e :: At(b.messageMap, e) == Rebuilt(a, e, absorbed, merged)
    ensures Progress(a, b)
  {
    forall e ensures ProgressAt(a, b, e) {
      assert Front(b, e) == At(b.messageMap, e) && Front(a, e) == At(a.messageMap, e);
      assert Behind(b, e) == OrElse(At(b.temp, e), At(b.stale, e)) && Behind(a, e) == At(a.temp, e);
    }
  }

  // ---------------------------------------------------------------- whole histories

  /** States left by successive runs, each of which may have been interrupted anywhere. */
  ghost predicate History(dbs: seq<Db>) {
    dbs != [] && WellFormed(dbs[0]) && forall i :: 0 < i < |dbs| ==> Progress(dbs[i - 1], dbs[i])
  }

  lemma {:induction false} HistoryIsProgress(dbs: seq<Db>)
    requires History(dbs)
    ensures Progress(dbs[0], dbs[|dbs| - 1])
    decreases |dbs|
  {
    if |dbs| == 1 {
      assert forall e :: ProgressAt(dbs[0], dbs[0], e);
    } else {
      var front := dbs[..|dbs| - 1];
      HistoryIsProgress(front);
      ProgressTransitive(dbs[0], front[|front| - 1], dbs[|dbs| - 1]);
    }
  }

  /**
   Any number of interrupted runs followed by a completed one: `message_map` ends up with
   exactly the event ids the four tables had at first. Rows that were in `message_map`
   are intact, every other row comes from one of the tables, and where no table contradicts
   another it is the row an uninterrupted run would have left.
   */
  lemma InterruptedRunsLoseNothing(dbs: seq<Db>)
    requires History(dbs) && Settled(dbs[|dbs| - 1])
    ensures var first, last := dbs[0], dbs[|dbs| - 1];
      && Ids(last.messageMap) == EventIds(first)
      && (forall e :: At(first.messageMap, e).Some? ==> At(last.messageMap, e) == At(first.messageMap, e))
      && (forall e, row :: At(last.messageMap, e) == Some(row) ==> Holds(first, e, row))
      && (forall e :: !Clash(first, e) ==> At(last.messageMap, e) == Final(first, e))
  {
    var first, last := dbs[0], dbs[|dbs| - 1];
    HistoryIsProgress(dbs);
    forall e
      ensures e in Ids(last.messageMap) <==> e in EventIds(first)
      ensures At(first.messageMap, e).Some? ==> At(last.messageMap, e) == At(first.messageMap, e)
      ensures forall row :: At(last.messageMap, e) == Some(row) ==> Holds(first, e, row)
      ensures !Clash(first, e) ==> At(last.messageMap, e) == Final(first, e)
    {
      assert ProgressAt(first, last, e);
      FinalHasEveryId(first, e);
      FinalHasEveryId(last, e);
    }
  }

  /**
   The exception is real: if the run that sets both tables aside is interrupted before it
   copies them back, the next run prefers the temporary to the legacy table, whereas an
   uninterrupted one prefers the legacy table. The outcome for `e` changes exactly on a clash.
   */
  lemma InterruptionMattersExactlyOnClash(a: Db, e: EventId)
    requires Rebuilds(a) && HasMesh(a.messageMap) && a.temp.Some? && a.stale.None?
    ensures var setAside := Exec(a, RenameTempToStale);
      && setAside.Some?
      && var interrupted := Exec(setAside.value, RenameMapToTemp);
      && interrupted.Some?
      && (Final(interrupted.value, e) == Final(a, e) <==> !Clash(a, e))
  {
    var b := Exec(Exec(a, RenameTempToStale).value, RenameMapToTemp).value;
    assert Front(b, e) == None && Front(a, e) == At(a.messageMap, e);
    assert Behind(b, e) == OrElse(At(a.messageMap, e), At(a.temp, e));
  }
}
