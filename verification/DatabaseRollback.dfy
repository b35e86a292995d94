/**
 `rollback_migration` for the database step: what it restores, and exactly when migration
 and rollback together are a round trip for the destination.
 */
module DatabaseRollback {
  import opened Common
  import opened FileSystem
  import opened DatabaseMove
  import opened DatabaseMigration

  /** `restore_from_backup` */
  method RestoreFromBackup(disk: Disk, r: Restore) returns (ok: bool)
    requires r.backup != r.restore
    modifies disk
    ensures SameBut(old(disk.files), disk.files, {r.restore})
    ensures ok ==> r.backup in old(disk.files) && Has(disk.files, r.restore, old(disk.files)[r.backup])
    ensures disk.faults >= old(disk.faults) && (!ok && disk.faults == old(disk.faults) ==> r.backup !in old(disk.files))
  {
    if r.restore in disk.files {
      if disk.files[r.restore].Folder? {
        ok := disk.RemoveTree(r.restore);
      } else {
        ok := disk.Unlink(r.restore);
      }
      if !ok { return; }
    }
    if r.backup in disk.files && disk.files[r.backup].Folder? {
      ok := disk.CopyTree(r.backup, r.restore);
    } else {
      ok := disk.Copy(r.backup, r.restore);
    }
  }

  /** Backups lie apart from what they restore, and nothing is restored from two of them. */
  ghost predicate BackupsApart(backups: seq<Restore>) {
    forall r, s :: r in backups && s in backups ==> r.backup != s.restore && (r.restore == s.restore ==> r.backup == s.backup)
  }

  function RestoredPaths(backups: seq<Restore>): set<Path> { set r | r in backups :: r.restore }

  /** Every backup is back in place. */
  ghost predicate AllRestored(before: Files, after: Files, backups: seq<Restore>) {
    forall r :: r in backups ==> r.backup in before && Has(after, r.restore, before[r.backup])
  }

  method RestoreAll(disk: Disk, backups: seq<Restore>) returns (ok: bool)
    requires BackupsApart(backups)
    modifies disk
    ensures SameBut(old(disk.files), disk.files, RestoredPaths(backups))
    ensures ok ==> AllRestored(old(disk.files), disk.files, backups)
    ensures disk.faults >= old(disk.faults)
    ensures !ok && disk.faults == old(disk.faults) ==> exists r :: r in backups && r.backup !in old(disk.files)
  {
    ghost var before := disk.files;
    ok := true;
    for i := 0 to |backups|
      invariant SameBut(before, disk.files, RestoredPaths(backups))
      invariant ok ==> AllRestored(before, disk.files, backups[..i])
      invariant disk.faults >= old(disk.faults)
      invariant !ok && disk.faults == old(disk.faults) ==> exists r :: r in backups && r.backup !in before
    {
      ghost var r := backups[i];
      assert r in backups && backups[..i + 1] == backups[..i] + [r];
      assert forall s :: s in backups[..i] ==> s in backups;
      assert r.backup !in RestoredPaths(backups);
      var restored := RestoreFromBackup(disk, backups[i]);
      ok := ok && restored;
    }
    assert backups[..|backups|] == backups;
  }

  /** Only sidecars had a backup: the migrated main file is kept. */
  predicate OnlySidecars(backups: seq<Restore>) { forall r :: r in backups ==> r.restore.name != Db(Main) }

  /** What a rollback without errors comes to. */
  ghost predicate RolledBack(before: Files, after: Files, backups: seq<Restore>, migrated: set<Path>) {
    && AllRestored(before, after, backups)
    && SameBut(before, after, RestoredPaths(backups) + if OnlySidecars(backups) then {} else migrated)
    && (!OnlySidecars(backups) ==> forall p :: p in migrated && p !in RestoredPaths(backups) ==> p !in after)
  }

  /**
   The database step of a rollback. Without any backup the destination is preserved; with
   backups of sidecars only, the migrated files are. Nothing migrated is removed unless every
   backup is back. Unless an operation fails for no reason, the rollback succeeds exactly if
   every backup is still there.
   */
  method RollbackDatabase(disk: Disk, backups: seq<Restore>, migrated: set<Path>) returns (ok: bool)
    requires BackupsApart(backups) && forall r :: r in backups ==> r.backup !in migrated
    modifies disk
    ensures SameBut(old(disk.files), disk.files, RestoredPaths(backups) + migrated)
    ensures forall r :: r in backups ==> SameAt(old(disk.files), disk.files, r.backup)
    ensures ok ==> RolledBack(old(disk.files), disk.files, backups, migrated)
    ensures !AllRestored(old(disk.files), disk.files, backups) ==> SameBut(old(disk.files), disk.files, RestoredPaths(backups))
    ensures disk.faults >= old(disk.faults)
    ensures disk.faults == old(disk.faults) ==> (ok <==> forall r :: r in backups ==> r.backup in old(disk.files))
  {
    ghost var before := disk.files;
    if backups == [] {
      return true;
    }
    ok := RestoreAll(disk, backups);
    if !ok || OnlySidecars(backups) {
      return;
    }
    var unbacked := migrated - RestoredPaths(backups);
    ok := RemoveUnbacked(disk, unbacked);
  }

  method RemoveUnbacked(disk: Disk, unbacked: set<Path>) returns (ok: bool)
    modifies disk
    ensures SameBut(old(disk.files), disk.files, unbacked)
    ensures ok ==> forall p :: p in unbacked ==> p !in disk.files
    ensures disk.faults >= old(disk.faults) && (!ok ==> disk.faults > old(disk.faults))
  {
    ghost var before := disk.files;
    ok := true;
    var rest := unbacked;
    while rest != {}
      invariant rest <= unbacked && SameBut(before, disk.files, unbacked)
      invariant ok ==> forall p :: p in unbacked - rest ==> p !in disk.files
      invariant disk.faults >= old(disk.faults) && (!ok ==> disk.faults > old(disk.faults))
    {
      var p :| p in rest;
      rest := rest - {p};
      if p in disk.files {
        var removed;
        if disk.files[p].Folder? {
          removed := disk.RemoveTree(p);
        } else {
          removed := disk.Unlink(p);
        }
        ok := ok && removed;
      }
    }
  }

  // ---------------------------------------------------------------- round trip

  function MigratedPaths(pl: Places, migrated: set<Suffix>): set<Path> { set x | x in migrated :: At(pl.dst, x) }

  /** The destination is as it was. */
  ghost predicate SameImage(before: Files, after: Files, pl: Places) {
    forall x :: SameAt(before, after, At(pl.dst, x))
  }

  lemma ListedBackupsAreApart(before: Files, pl: Places, backups: seq<Restore>, migrated: set<Suffix>)
    requires Apart(pl) && Lists(before, pl, backups)
    ensures BackupsApart(backups) && forall r :: r in backups ==> r.backup !in MigratedPaths(pl, migrated)
  {
  }

  /**
   After a finished migration and a rollback without errors the destination is exactly what
   it was before, if and only if the main database existed there before.
   */
  lemma RoundTrip(m0: Files, m1: Files, m2: Files, pl: Places, group: seq<Suffix>, backups: seq<Restore>, migrated: set<Suffix>)
    requires Apart(pl) && Main in group && (forall x :: x in migrated <==> x in group)
    requires Installed(m0, m1, pl, group) && BackedUp(m0, m1, pl) && Lists(m0, pl, backups)
    requires RolledBack(m1, m2, backups, MigratedPaths(pl, migrated))
    ensures SameImage(m0, m2, pl) <==> At(pl.dst, Main) in m0
  {
  }

  /** Rollback does not bring back a deleted source. */
  lemma SourcesStayDeleted(m1: Files, m2: Files, m0: Files, pl: Places, backups: seq<Restore>, migrated: set<Suffix>, x: Suffix)
    requires Apart(pl) && Lists(m0, pl, backups)
    requires SameBut(m1, m2, RestoredPaths(backups) + MigratedPaths(pl, migrated))
    ensures SameAt(m1, m2, At(pl.src, x))
  {
  }

  /** A migration and its rollback, one after the other. */
  method MigrateAndRollBack(disk: Disk, roots: seq<Dir>, home: Dir, mtime: Path -> int, stamp: string, sound: bool)
      returns (r: Report, restored: bool)
    requires StagingApart(disk.files, roots, home) && FreshStamp(disk.files, home, stamp)
    modifies disk
    ensures r.action.Moved? && restored ==>
      (SameImage(old(disk.files), disk.files, PlacesOf(r.src, home, stamp)) <==> At(DbDir(home), Main) in old(disk.files))
    ensures r.action.Moved? && disk.faults == old(disk.faults) ==> restored
  {
    ghost var m0 := disk.files;
    ghost var group;
    r, group := MigrateDatabase(disk, roots, home, false, true, mtime, stamp, sound);
    restored := false;
    if r.action.Moved? {
      var pl := PlacesOf(r.src, home, stamp);
      ListedBackupsAreApart(m0, pl, r.backups, r.migrated);
      ghost var m1 := disk.files;
      restored := RollbackDatabase(disk, r.backups, MigratedPaths(pl, r.migrated));
      if restored { RoundTrip(m0, m1, disk.files, pl, group, r.backups, r.migrated); }
    }
  }
}
