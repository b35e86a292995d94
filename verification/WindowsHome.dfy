/**
 `migrate_windows_home`: snapshot, migrate, and put everything back when that failed.
 */
module WindowsHome {
  import opened Common
  import opened FileSystem

  /** What is moved, by name inside a home. */
  const UNITS: seq<FileName> := [
    Named("config.yaml"), Named("credentials.json"), Named("matrix"), Named("database"), Named("data"), Named("logs"),
    Named("plugins"), Db(Main), Db(Wal), Db(Shm), Db(Journal)]

  /** `has_file_content`: a file somewhere below, not just empty directories. */
  predicate HasFileContent(c: Content)
    decreases c
  {
    c.Folder? && exists n :: n in c.entries && (c.entries[n].File? || HasFileContent(c.entries[n]))
  }

  /** The folder at `p` has an entry `n`. */
  predicate HasEntry(files: Files, p: Path, n: FileName) { p in files && files[p].Folder? && n in files[p].entries }

  const FOLDERS: seq<FileName> := [Named("plugins"), Named("matrix"), Named("database"), Named("data"), Named("logs")]

  /** What `_windows_home_destination_error` objects to. */
  predicate Conflict(files: Files, target: Dir) {
    || Path(target, Named("config.yaml")) in files
    || Path(target, Named("credentials.json")) in files
    || HasEntry(files, Path(target, Named("matrix")), Named("credentials.json"))
    || HasEntry(files, Path(target, Named("database")), Db(Main))
    || Path(target, Db(Main)) in files
    || exists n :: n in FOLDERS && Path(target, n) in files && HasFileContent(files[Path(target, n)])
  }

  /** The homes, and the areas of the snapshot. */
  datatype Homes = Homes(source: Dir, target: Dir, snapshot: Dir)

  function PartialTarget(h: Homes): Dir { h.snapshot + ["partial-target"] }

  function PartialSource(h: Homes): Dir { h.snapshot + ["partial-source"] }

  function HomesOf(source: Dir, target: Dir, stamp: string): Homes {
    Homes(source, target, target + [".migration_backups", "windows-home-" + stamp])
  }

  predicate InSnapshot(h: Homes, p: Path) { h.snapshot <= p.dir }

  predicate Apart(h: Homes) {
    && h.source != h.target && !(h.snapshot <= h.source) && !(h.snapshot <= h.target)
  }

  lemma HomesApart(source: Dir, target: Dir, stamp: string)
    requires source != target && !(HomesOf(source, target, stamp).snapshot <= source)
    ensures Apart(HomesOf(source, target, stamp))
  {
  }

  /** All the directories a restoration touches are different. */
  lemma AreasApart(h: Homes)
    requires Apart(h)
    ensures PartialTarget(h) != PartialSource(h) && PartialTarget(h) != h.snapshot && PartialSource(h) != h.snapshot
    ensures h.source !in {h.target, h.snapshot, PartialTarget(h), PartialSource(h)}
    ensures h.target !in {h.snapshot, PartialTarget(h), PartialSource(h)}
  {
    assert PartialTarget(h)[|h.snapshot|] != PartialSource(h)[|h.snapshot|] by {
      assert "partial-target"[8] != "partial-source"[8];
    }
  }

  ghost predicate UniqueNames(units: seq<FileName>) {
    forall i, j :: 0 <= i < j < |units| ==> units[i] != units[j]
  }

  // ---------------------------------------------------------------- snapshot

  /** The snapshot holds every unit of the source, and nothing else. */
  ghost predicate Saved(before: Files, after: Files, h: Homes, units: seq<FileName>) {
    forall u :: u in units ==>
      if Path(h.source, u) in before then Has(after, Path(h.snapshot, u), before[Path(h.source, u)])
      else Path(h.snapshot, u) !in after
  }

  method TakeSnapshot(disk: Disk, h: Homes, units: seq<FileName>) returns (ok: bool)
    requires Apart(h) && UniqueNames(units) && forall p :: p in disk.files ==> !InSnapshot(h, p)
    modifies disk
    ensures forall p: Path :: p.dir != h.snapshot ==> SameAt(old(disk.files), disk.files, p)
    ensures ok ==> Saved(old(disk.files), disk.files, h, units)
    ensures disk.faults >= old(disk.faults) && (!ok ==> disk.faults > old(disk.faults))
  {
    ghost var before := disk.files;
    for i := 0 to |units|
      invariant disk.faults >= old(disk.faults)
      invariant forall p: Path :: p.dir != h.snapshot ==> SameAt(before, disk.files, p)
      invariant forall u :: u !in units[..i] ==> Path(h.snapshot, u) !in disk.files
      invariant Saved(before, disk.files, h, units[..i])
    {
      assert units[..i + 1] == units[..i] + [units[i]] && units[i] !in units[..i];
      var original, copy := Path(h.source, units[i]), Path(h.snapshot, units[i]);
      assert SameAt(before, disk.files, original);
      if original in disk.files {
        if disk.files[original].Folder? {
          ok := disk.CopyTree(original, copy);
        } else {
          ok := disk.Copy(original, copy);
        }
        if !ok { return; }
      }
    }
    assert units[..|units|] == units;
    ok := true;
  }

  // ---------------------------------------------------------------- restoration

  /** What restoring unit `u` leaves: a saved file is copied into a folder that stands in its way. */
  ghost predicate Restored(failed: Files, after: Files, h: Homes, u: FileName) {
    var saved, original := Path(h.snapshot, u), Path(h.source, u);
    && Path(h.target, u) !in after
    && (Path(h.target, u) in failed ==> Has(after, Path(PartialTarget(h), u), failed[Path(h.target, u)]))
    && (saved in failed ==> Has(after, original, if failed[saved].Folder? then failed[saved] else Landing(failed, original, u, failed[saved])))
    && (saved !in failed ==> SameAt(failed, after, original))
  }

  /** The paths of unit `u` that a restoration writes. */
  function Written(h: Homes, u: FileName): set<Path> {
    {Path(h.target, u), Path(h.source, u), Path(PartialTarget(h), u), Path(PartialSource(h), u)}
  }

  /** Nothing of unit `u` has been restored yet. */
  ghost predicate Untouched(failed: Files, here: Files, h: Homes, u: FileName) {
    && SameAt(failed, here, Path(h.target, u)) && SameAt(failed, here, Path(h.source, u))
    && SameAt(failed, here, Path(PartialTarget(h), u)) && SameAt(failed, here, Path(PartialSource(h), u))
  }

  method RestoreUnit(disk: Disk, h: Homes, u: FileName) returns (ok: bool)
    requires Apart(h) && Path(PartialTarget(h), u) !in disk.files
    modifies disk
    ensures SameBut(old(disk.files), disk.files, Written(h, u))
    ensures ok ==> Restored(old(disk.files), disk.files, h, u)
    ensures disk.faults >= old(disk.faults) && (!ok ==> disk.faults > old(disk.faults))
  {
    AreasApart(h);
    var partial, quarantined := Path(h.target, u), Path(PartialTarget(h), u);
    if partial in disk.files {
      ok := disk.Move(partial, quarantined);
      if !ok { return; }
    }
    ok := RestoreSource(disk, h, u);
  }

  method RestoreSource(disk: Disk, h: Homes, u: FileName) returns (ok: bool)
    requires Apart(h)
    modifies disk
    ensures SameBut(old(disk.files), disk.files, {Path(h.source, u), Path(PartialSource(h), u)})
    ensures ok && Path(h.snapshot, u) in old(disk.files) ==>
      Has(disk.files, Path(h.source, u),
          var c := old(disk.files)[Path(h.snapshot, u)];
          if c.Folder? then c else Landing(old(disk.files), Path(h.source, u), u, c))
    ensures Path(h.snapshot, u) !in old(disk.files) ==> ok && disk.files == old(disk.files)
    ensures disk.faults >= old(disk.faults) && (!ok ==> disk.faults > old(disk.faults))
  {
    AreasApart(h);
    var saved, original, remainder := Path(h.snapshot, u), Path(h.source, u), Path(PartialSource(h), u);
    ok := true;
    if saved in disk.files && disk.files[saved].Folder? {
      if original in disk.files {
        ok := disk.Move(original, remainder);
        if !ok { return; }
      }
      ok := disk.CopyTree(saved, original);
    } else if saved in disk.files {
      ok := disk.Copy(saved, original);
    }
  }

  /** Every unit is tried; `errors` counts those that could not be restored. */
  method RestoreAll(disk: Disk, h: Homes, units: seq<FileName>) returns (errors: nat)
    requires Apart(h) && UniqueNames(units) && forall u :: Path(PartialTarget(h), u) !in disk.files
    modifies disk
    ensures forall u :: SameAt(old(disk.files), disk.files, Path(h.snapshot, u))
    ensures errors == 0 ==> forall u :: u in units ==> Restored(old(disk.files), disk.files, h, u)
    ensures disk.faults >= old(disk.faults) && (errors > 0 ==> disk.faults > old(disk.faults))
  {
    ghost var failed := disk.files;
    errors := 0;
    AreasApart(h);
    for i := 0 to |units|
      invariant disk.faults >= old(disk.faults) && (errors > 0 ==> disk.faults > old(disk.faults))
      invariant forall u :: SameAt(failed, disk.files, Path(h.snapshot, u))
      invariant forall u :: u !in units[..i] ==> Untouched(failed, disk.files, h, u)
      invariant errors == 0 ==> forall u :: u in units[..i] ==> Restored(failed, disk.files, h, u)
    {
      ghost var u, here := units[i], disk.files;
      assert units[..i + 1] == units[..i] + [u] && u !in units[..i];
      assert Untouched(failed, here, h, u);
      var ok := RestoreUnit(disk, h, units[i]);
      if !ok { errors := errors + 1; }
      RestoreFrame(failed, here, disk.files, h, units[..i], u);
    }
    assert units[..|units|] == units;
  }

  /** Restoring one unit does not disturb the others. */
  lemma RestoreFrame(failed: Files, here: Files, after: Files, h: Homes, done: seq<FileName>, u: FileName)
    requires Apart(h) && u !in done && SameBut(here, after, Written(h, u))
    requires Untouched(failed, here, h, u) && SameAt(failed, here, Path(h.snapshot, u))
    ensures forall v :: SameAt(here, after, Path(h.snapshot, v))
    ensures forall v :: v != u && Untouched(failed, here, h, v) ==> Untouched(failed, after, h, v)
    ensures forall v :: v in done && Restored(failed, here, h, v) ==> Restored(failed, after, h, v)
    ensures Restored(here, after, h, u) ==> Restored(failed, after, h, u)
  {
    AreasApart(h);
  }

  // ---------------------------------------------------------------- the migration

  /** A saved file cannot be put back where the failed migration left a folder. */
  predicate Blocked(before: Files, failed: Files, h: Homes, u: FileName) {
    var p := Path(h.source, u);
    p in before && before[p].File? && p in failed && failed[p].Folder?
  }

  /** A unit that existed at the source is back there, unless and only unless it was blocked. */
  lemma SourceIsBack(before: Files, failed: Files, after: Files, h: Homes, u: FileName)
    requires Path(h.source, u) in before && Has(failed, Path(h.snapshot, u), before[Path(h.source, u)])
    requires Restored(failed, after, h, u)
    ensures Has(after, Path(h.source, u), before[Path(h.source, u)]) <==> !Blocked(before, failed, h, u)
  {
  }

  /** Such a failure exists: a configuration file whose place a folder has taken is not restored. */
  lemma BlockedFileStaysLost(h: Homes) returns (before: Files, failed: Files, after: Files)
    requires Apart(h)
    ensures UNITS[0] == Named("config.yaml") && Blocked(before, failed, h, UNITS[0])
    ensures Has(failed, Path(h.snapshot, UNITS[0]), before[Path(h.source, UNITS[0])]) && Restored(failed, after, h, UNITS[0])
    ensures !Has(after, Path(h.source, UNITS[0]), before[Path(h.source, UNITS[0])])
  {
    AreasApart(h);
    var u, c := Named("config.yaml"), File([1]);
    assert UNITS[0] == u;
    before := map[Path(h.source, u) := c];
    failed := map[Path(h.source, u) := Folder(map[]), Path(h.snapshot, u) := c];
    after := failed[Path(h.source, u) := Folder(map[u := c])];
  }

  /** Everything outside the snapshot becomes what the migration made of it. */
  method PerformMigration(disk: Disk, h: Homes, outcome: Files)
    modifies disk`files
    ensures forall p :: InSnapshot(h, p) ==> SameAt(old(disk.files), disk.files, p)
    ensures forall p :: !InSnapshot(h, p) ==> SameAt(outcome, disk.files, p)
  {
    disk.files := map p | p in disk.files.Keys + outcome.Keys && (if InSnapshot(h, p) then p in disk.files else p in outcome)
      :: if InSnapshot(h, p) then disk.files[p] else outcome[p];
  }

  /** A migration that leaves the snapshot alone leaves it complete, and its other areas empty. */
  lemma SnapshotSurvives(before: Files, saved: Files, failed: Files, h: Homes, units: seq<FileName>)
    requires Apart(h) && Saved(before, saved, h, units) && forall p :: p in before ==> !InSnapshot(h, p)
    requires forall p: Path :: p.dir != h.snapshot ==> SameAt(before, saved, p)
    requires forall p :: InSnapshot(h, p) ==> SameAt(saved, failed, p)
    ensures Saved(before, failed, h, units)
    ensures forall u :: Path(PartialTarget(h), u) !in failed
  {
    AreasApart(h);
    forall u ensures InSnapshot(h, Path(h.snapshot, u)) && InSnapshot(h, Path(PartialTarget(h), u)) {}
    forall u ensures Path(PartialTarget(h), u) !in failed {
      assert SameAt(before, saved, Path(PartialTarget(h), u)) && SameAt(saved, failed, Path(PartialTarget(h), u));
    }
  }

  lemma UnitsAreUnique()
    ensures UniqueNames(UNITS)
  {
    assert Text(UNITS[0])[0] == 'c' && Text(UNITS[0])[1] == 'o' && Text(UNITS[1])[1] == 'r';
    assert Text(UNITS[2])[0] == 'm' && Text(UNITS[3])[3] == 'a' && Text(UNITS[3])[4] == 'b' && |Text(UNITS[4])| == 4;
    assert Text(UNITS[3])[0] == 'd' && Text(UNITS[4])[0] == 'd' && Text(UNITS[5])[0] == 'l' && Text(UNITS[6])[0] == 'p';
  }

  datatype Outcome = NotNeeded | Refused | Rehearsed | Finished | Failed(errors: nat)

  /** What the lock file, the process list and the disk say. */
  datatype Readiness = Readiness(lockTaken: bool, running: bool, space: bool)

  /** The target inside the source, data at the target, no leave to start, or a snapshot of that name. */
  ghost predicate Refuses(files: Files, source: Dir, target: Dir, stamp: string, dryRun: bool, ready: Readiness) {
    || source <= target || Conflict(files, target)
    || (!dryRun && (!ready.lockTaken || ready.running || !ready.space))
    || (!dryRun && SnapshotExists(files, HomesOf(source, target, stamp)))
  }

  ghost predicate SnapshotExists(files: Files, h: Homes) {
    h.snapshot <= h.source || exists p :: p in files && InSnapshot(h, p)
  }

  /**
   `migrate_windows_home`. `outcome` and `works` are what the inner migration does to
   everything but the snapshot. A refusal leaves both homes alone and has one of the reasons `Refuses` lists, or an
   operation failed; a failure without restore errors puts back every unit that was not
   blocked and moves what stood at the target aside; and whatever goes wrong afterwards, the
   snapshot keeps the source.
   */
  method MigrateWindowsHome(disk: Disk, source: Dir, target: Dir, stamp: string, dryRun: bool, ready: Readiness, outcome: Files, works: bool)
      returns (r: Outcome)
    modifies disk
    ensures r.NotNeeded? <==> source == target
    ensures source != target && Refuses(old(disk.files), source, target, stamp, dryRun, ready) ==> r.Refused?
    ensures r.Refused? && disk.faults == old(disk.faults) ==> Refuses(old(disk.files), source, target, stamp, dryRun, ready)
    ensures r.Rehearsed? <==> source != target && !Refuses(old(disk.files), source, target, stamp, dryRun, ready) && dryRun
    ensures r.Failed? && disk.faults == old(disk.faults) ==> r == Failed(0)
    ensures disk.faults >= old(disk.faults)
    ensures r.NotNeeded? || r.Rehearsed? ==> disk.files == old(disk.files)
    ensures r.Refused? ==> forall p: Path :: p.dir != HomesOf(source, target, stamp).snapshot ==> SameAt(old(disk.files), disk.files, p)
    ensures r.Finished? || r.Failed? ==> r.Finished? == works && !dryRun
    ensures r.Finished? || r.Failed? ==> forall u :: u in UNITS && Path(source, u) in old(disk.files) ==>
      Has(disk.files, Path(HomesOf(source, target, stamp).snapshot, u), old(disk.files)[Path(source, u)])
    ensures r == Failed(0) ==> PutBack(old(disk.files), outcome, disk.files, HomesOf(source, target, stamp))
  {
    var h := HomesOf(source, target, stamp);
    if source == target {
      return NotNeeded;
    }
    if source <= target || Conflict(disk.files, target) {
      return Refused;
    }
    if !dryRun && (!ready.lockTaken || ready.running || !ready.space) {
      return Refused;
    }
    if dryRun {
      return Rehearsed;
    }
    if h.snapshot <= source || exists p :: p in disk.files && InSnapshot(h, p) {
      return Refused;  // the snapshot directory exists already
    }
    HomesApart(source, target, stamp);
    r := MoveHomes(disk, h, outcome, works);
  }

  /** Every unit is back at the source unless it was blocked, and what stood at the target lies aside. */
  ghost predicate PutBack(before: Files, outcome: Files, after: Files, h: Homes) {
    forall u :: u in UNITS ==>
      && Path(h.target, u) !in after
      && (Path(h.target, u) in outcome ==> Has(after, Path(PartialTarget(h), u), outcome[Path(h.target, u)]))
      && (Path(h.source, u) in before ==>
            (Has(after, Path(h.source, u), before[Path(h.source, u)]) <==> !Blocked(before, outcome, h, u)))
  }

  /** The snapshot, the inner migration, and the restoration if that failed. */
  method MoveHomes(disk: Disk, h: Homes, outcome: Files, works: bool) returns (r: Outcome)
    requires Apart(h) && forall p :: p in disk.files ==> !InSnapshot(h, p)
    modifies disk
    ensures r.Refused? || r.Finished? || r.Failed?
    ensures disk.faults >= old(disk.faults) && (r.Refused? ==> disk.faults > old(disk.faults))
    ensures r.Refused? ==> forall p: Path :: p.dir != h.snapshot ==> SameAt(old(disk.files), disk.files, p)
    ensures !r.Refused? ==> r.Finished? == works
    ensures r.Failed? && disk.faults == old(disk.faults) ==> r == Failed(0)
    ensures !r.Refused? ==> forall u :: u in UNITS && Path(h.source, u) in old(disk.files) ==>
      Has(disk.files, Path(h.snapshot, u), old(disk.files)[Path(h.source, u)])
    ensures r == Failed(0) ==> PutBack(old(disk.files), outcome, disk.files, h)
  {
    ghost var before := disk.files;
    UnitsAreUnique();
    AreasApart(h);
    var ok := TakeSnapshot(disk, h, UNITS);
    if !ok {
      return Refused;
    }
    ghost var saved := disk.files;
    PerformMigration(disk, h, outcome);
    SnapshotSurvives(before, saved, disk.files, h, UNITS);
    if works {
      return Finished;
    }
    ghost var failed := disk.files;
    var errors := RestoreAll(disk, h, UNITS);
    if errors == 0 {
      AllPutBack(before, outcome, failed, disk.files, h);
    }
    return Failed(errors);
  }

  lemma AllPutBack(before: Files, outcome: Files, failed: Files, after: Files, h: Homes)
    requires Apart(h) && Saved(before, failed, h, UNITS) && forall u :: u in UNITS ==> Restored(failed, after, h, u)
    requires forall p :: !InSnapshot(h, p) ==> SameAt(outcome, failed, p)
    ensures PutBack(before, outcome, after, h)
  {
    forall u | u in UNITS
      ensures Path(h.target, u) !in after
      ensures Path(h.target, u) in outcome ==> Has(after, Path(PartialTarget(h), u), outcome[Path(h.target, u)])
      ensures Path(h.source, u) in before ==>
        (Has(after, Path(h.source, u), before[Path(h.source, u)]) <==> !Blocked(before, outcome, h, u))
    {
      assert SameAt(outcome, failed, Path(h.source, u)) && SameAt(outcome, failed, Path(h.target, u));
      if Path(h.source, u) in before { SourceIsBack(before, failed, after, h, u); }
    }
  }
}
