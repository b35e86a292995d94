/**
 The copy, verify, replace and delete part of `migrate_database`: from the moment a group
 of database files was selected to the report. Any operation may fail; whatever happens,
 no content is lost.
 */
module DatabaseMove {
  import opened Common
  import opened FileSystem

  /** Where the files are, where they go, and where copies are kept meanwhile. */
  datatype Places = Places(src: Dir, dst: Dir, stage: Dir, bak: Dir, stamp: string)

  predicate Apart(pl: Places) {
    pl.src != pl.dst && pl.src != pl.stage && pl.stage != pl.dst && pl.bak != pl.dst && pl.bak != pl.stage
  }

  function At(d: Dir, x: Suffix): Path { Path(d, Db(x)) }

  /** `_backup_file` */
  function Bak(pl: Places, x: Suffix): Path { Path(pl.bak, Stamped(Db(x), pl.stamp)) }

  /** The four paths of a database in `d`. */
  function Ats(d: Dir): (r: set<Path>)
    ensures forall p :: p in r <==> p.dir == d && p.name.Db?
  {
    var r := set x: Suffix :: At(d, x);
    assert forall p: Path :: p.dir == d && p.name.Db? ==> p == At(d, p.name.suffix);
    r
  }

  function Baks(pl: Places): (r: set<Path>)
    ensures forall x :: Bak(pl, x) in r
    ensures forall p :: p in r ==> p.dir == pl.bak && p.name.Stamped?
  {
    set x: Suffix :: Bak(pl, x)
  }

  datatype Restore = Restore(backup: Path, restore: Path)

  const BY_NAME := [Main, Journal, Shm, Wal]
  const BY_AGE := [Main, Wal, Shm, Journal]

  lemma AllListed(x: Suffix)
    ensures exists j :: 0 <= j < |BY_NAME| && BY_NAME[j] == x
    ensures exists j :: 0 <= j < |BY_AGE| && BY_AGE[j] == x
  {
    match x
    case Main => assert BY_NAME[0] == x && BY_AGE[0] == x;
    case Wal => assert BY_NAME[3] == x && BY_AGE[1] == x;
    case Shm => assert BY_NAME[2] == x && BY_AGE[2] == x;
    case Journal => assert BY_NAME[1] == x && BY_AGE[3] == x;
  }

  // ---------------------------------------------------------------- what is kept

  /** Every selected file still has its content at the source or at the destination. */
  ghost predicate SourcesKept(before: Files, after: Files, pl: Places, group: seq<Suffix>) {
    forall x :: x in group ==>
      && At(pl.src, x) in before
      && (Has(after, At(pl.src, x), before[At(pl.src, x)]) || Has(after, At(pl.dst, x), before[At(pl.src, x)]))
  }

  /** Every destination file still has its content in place or in its backup. */
  ghost predicate TargetsKept(before: Files, after: Files, pl: Places) {
    forall x :: At(pl.dst, x) in before ==>
      Has(after, At(pl.dst, x), before[At(pl.dst, x)]) || Has(after, Bak(pl, x), before[At(pl.dst, x)])
  }

  ghost predicate BackedUp(before: Files, after: Files, pl: Places) {
    forall x :: At(pl.dst, x) in before ==> Has(after, Bak(pl, x), before[At(pl.dst, x)])
  }

  /** The destination holds exactly the selected files. */
  ghost predicate Installed(before: Files, after: Files, pl: Places, group: seq<Suffix>) {
    forall x ::
      if x in group then At(pl.src, x) in before && Has(after, At(pl.dst, x), before[At(pl.src, x)])
      else At(pl.dst, x) !in after
  }

  /** The backups reported are those of the files that were there. */
  ghost predicate Lists(before: Files, pl: Places, backups: seq<Restore>) {
    && (forall r :: r in backups ==> exists x :: r == Restore(Bak(pl, x), At(pl.dst, x)) && At(pl.dst, x) in before)
    && (forall x :: At(pl.dst, x) in before ==> Restore(Bak(pl, x), At(pl.dst, x)) in backups)
  }

  predicate Distinct(group: seq<Suffix>) { forall i, j :: 0 <= i < j < |group| ==> group[i] != group[j] }

  // ---------------------------------------------------------------- the steps

  /** 1. Back up what is at the destination. */
  method BackUp(disk: Disk, pl: Places) returns (ok: bool, backups: seq<Restore>)
    requires Apart(pl) && forall x :: Bak(pl, x) !in disk.files
    modifies disk
    ensures SameBut(old(disk.files), disk.files, Baks(pl)) && disk.faults >= old(disk.faults)
    ensures !ok ==> disk.faults > old(disk.faults)
    ensures ok ==> BackedUp(old(disk.files), disk.files, pl) && Lists(old(disk.files), pl, backups)
  {
    ghost var before := disk.files;
    backups := [];
    for i := 0 to |BY_NAME|
      invariant SameBut(before, disk.files, Baks(pl)) && disk.faults >= old(disk.faults)
      invariant forall j :: i <= j < |BY_NAME| ==> Bak(pl, BY_NAME[j]) !in disk.files
      invariant forall j :: 0 <= j < i && At(pl.dst, BY_NAME[j]) in before ==>
        && Has(disk.files, Bak(pl, BY_NAME[j]), before[At(pl.dst, BY_NAME[j])])
        && Restore(Bak(pl, BY_NAME[j]), At(pl.dst, BY_NAME[j])) in backups
      invariant forall r :: r in backups ==> exists x :: r == Restore(Bak(pl, x), At(pl.dst, x)) && At(pl.dst, x) in before
    {
      var x := BY_NAME[i];
      ok, backups := BackUpOne(disk, pl, x, backups);
      if !ok { return; }
    }
    ok := true;
    forall x | At(pl.dst, x) in before
      ensures Has(disk.files, Bak(pl, x), before[At(pl.dst, x)]) && Restore(Bak(pl, x), At(pl.dst, x)) in backups
    {
      AllListed(x);
    }
  }

  method BackUpOne(disk: Disk, pl: Places, x: Suffix, done: seq<Restore>) returns (ok: bool, backups: seq<Restore>)
    requires Bak(pl, x) !in disk.files
    modifies disk
    ensures SameBut(old(disk.files), disk.files, {Bak(pl, x)}) && disk.faults >= old(disk.faults)
    ensures !ok ==> disk.faults > old(disk.faults)
    ensures At(pl.dst, x) !in old(disk.files) ==> ok && backups == done
    ensures ok && At(pl.dst, x) in old(disk.files) ==>
      && Has(disk.files, Bak(pl, x), old(disk.files)[At(pl.dst, x)])
      && backups == done + [Restore(Bak(pl, x), At(pl.dst, x))]
  {
    var dest, backup := At(pl.dst, x), Bak(pl, x);
    if dest !in disk.files {
      return true, done;
    }
    if disk.files[dest].Folder? {
      ok := disk.CopyTree(dest, backup);
    } else {
      ok := disk.Copy(dest, backup);
    }
    backups := done + [Restore(backup, dest)];
  }

  /** All these files of the database in `d` exist and are plain files. */
  predicate AllFiles(files: Files, d: Dir, group: seq<Suffix>) {
    forall x :: x in group ==> At(d, x) in files && files[At(d, x)].File?
  }

  /** Where one of these files is to go there is nothing or a plain file. */
  predicate NoFolders(files: Files, d: Dir, group: seq<Suffix>) {
    forall x :: x in group && At(d, x) in files ==> files[At(d, x)].File?
  }

  /** 2. Copy the group to the staging directory. */
  method Stage(disk: Disk, pl: Places, group: seq<Suffix>) returns (ok: bool)
    requires Apart(pl) && forall x :: At(pl.stage, x) in disk.files ==> disk.files[At(pl.stage, x)].File?
    modifies disk
    ensures SameBut(old(disk.files), disk.files, Ats(pl.stage)) && disk.faults >= old(disk.faults)
    ensures ok ==> AllFiles(old(disk.files), pl.src, group) && forall x :: x in group ==>
      Has(disk.files, At(pl.stage, x), old(disk.files)[At(pl.src, x)])
    ensures !ok && disk.faults == old(disk.faults) ==> !AllFiles(old(disk.files), pl.src, group)
  {
    ghost var before := disk.files;
    for i := 0 to |group|
      invariant SameBut(before, disk.files, Ats(pl.stage)) && disk.faults >= old(disk.faults)
      invariant forall x :: At(pl.stage, x) in disk.files ==> disk.files[At(pl.stage, x)].File?
      invariant AllFiles(before, pl.src, group[..i])
      invariant forall x :: x in group[..i] ==> Has(disk.files, At(pl.stage, x), before[At(pl.src, x)])
    {
      var source, staged := At(pl.src, group[i]), At(pl.stage, group[i]);
      if source != At(pl.dst, group[i]) {
        ok := disk.Copy(source, staged);
        if !ok { return; }
      }
    }
    assert group[..|group|] == group;
    ok := true;
  }

  /** 4. Replace the destination files by the staged ones. A file listed twice has nothing staged the second time. */
  method Install(disk: Disk, pl: Places, group: seq<Suffix>) returns (ok: bool)
    requires Apart(pl)
    modifies disk
    ensures SameBut(old(disk.files), disk.files, Ats(pl.stage) + Ats(pl.dst)) && disk.faults >= old(disk.faults)
    ensures forall x :: x !in group ==> SameAt(old(disk.files), disk.files, At(pl.dst, x))
    ensures ok ==> forall x :: x in group ==>
      At(pl.stage, x) in old(disk.files) && Has(disk.files, At(pl.dst, x), old(disk.files)[At(pl.stage, x)])
    ensures ok ==> Distinct(group) && NoFolders(old(disk.files), pl.dst, group)
    ensures !ok && disk.faults == old(disk.faults) && AllFiles(old(disk.files), pl.stage, group) ==>
      !Distinct(group) || !NoFolders(old(disk.files), pl.dst, group)
  {
    ghost var before := disk.files;
    for i := 0 to |group|
      invariant SameBut(before, disk.files, Ats(pl.stage) + Ats(pl.dst)) && disk.faults >= old(disk.faults)
      invariant Distinct(group[..i]) && NoFolders(before, pl.dst, group[..i])
      invariant forall x :: x !in group[..i] ==>
        SameAt(before, disk.files, At(pl.dst, x)) && SameAt(before, disk.files, At(pl.stage, x))
      invariant forall x :: x in group[..i] ==>
        && At(pl.stage, x) !in disk.files && At(pl.stage, x) in before
        && Has(disk.files, At(pl.dst, x), before[At(pl.stage, x)])
    {
      assert group[..i + 1] == group[..i] + [group[i]];
      if At(pl.src, group[i]) != At(pl.dst, group[i]) {
        ok := InstallOne(disk, At(pl.stage, group[i]), At(pl.dst, group[i]));
        if !ok { return; }
      }
    }
    assert group[..|group|] == group;
    ok := true;
  }

  method InstallOne(disk: Disk, staged: Path, dest: Path) returns (ok: bool)
    requires staged != dest
    modifies disk
    ensures SameBut(old(disk.files), disk.files, {staged, dest}) && disk.faults >= old(disk.faults)
    ensures ok ==> dest in old(disk.files) ==> old(disk.files)[dest].File?
    ensures !ok && disk.faults == old(disk.faults) ==>
      staged !in old(disk.files) || (dest in old(disk.files) && old(disk.files)[dest].Folder?)
    ensures ok ==> staged in old(disk.files) && staged !in disk.files && Has(disk.files, dest, old(disk.files)[staged])
  {
    if dest in disk.files {
      ok := disk.Unlink(dest);
      if !ok { return; }
    }
    ok := disk.Move(staged, dest);
  }

  /** 5. Delete the sources; one that cannot be deleted stays. */
  method DeleteSources(disk: Disk, pl: Places, group: seq<Suffix>)
    requires Apart(pl)
    modifies disk
    ensures SameBut(old(disk.files), disk.files, Ats(pl.src)) && disk.faults >= old(disk.faults)
    ensures forall p :: p in disk.files ==> Has(old(disk.files), p, disk.files[p])
    ensures forall x :: x !in group ==> SameAt(old(disk.files), disk.files, At(pl.src, x))
  {
    ghost var before := disk.files;
    for i := 0 to |group|
      invariant SameBut(before, disk.files, Ats(pl.src)) && disk.faults >= old(disk.faults)
      invariant forall p :: p in disk.files ==> Has(before, p, disk.files[p])
      invariant forall x :: x !in group ==> SameAt(before, disk.files, At(pl.src, x))
    {
      if At(pl.src, group[i]) != At(pl.dst, group[i]) {
        var _ := disk.Unlink(At(pl.src, group[i]));
      }
    }
  }

  /** 1b. Remove sidecars of the old destination that have no counterpart. */
  method RemoveStale(disk: Disk, pl: Places, existing: set<Suffix>, group: seq<Suffix>) returns (ok: bool)
    modifies disk
    ensures SameBut(old(disk.files), disk.files, Ats(pl.dst)) && disk.faults >= old(disk.faults)
    ensures !ok ==> disk.faults > old(disk.faults)
    ensures forall x :: x in group || x !in existing ==> SameAt(old(disk.files), disk.files, At(pl.dst, x))
    ensures ok ==> forall x :: x in existing && x !in group ==> At(pl.dst, x) !in disk.files
  {
    ghost var before := disk.files;
    for i := 0 to |BY_AGE|
      invariant SameBut(before, disk.files, Ats(pl.dst)) && disk.faults >= old(disk.faults)
      invariant forall x :: x in group || x !in existing ==> SameAt(before, disk.files, At(pl.dst, x))
      invariant forall j :: 0 <= j < i && BY_AGE[j] in existing && BY_AGE[j] !in group ==> At(pl.dst, BY_AGE[j]) !in disk.files
    {
      var x := BY_AGE[i];
      var dest := At(pl.dst, x);
      if x in existing && dest in disk.files && x !in group {
        if disk.files[dest].Folder? {
          ok := disk.RemoveTree(dest);
        } else {
          ok := disk.Unlink(dest);
        }
        if !ok { return; }
      }
    }
    ok := true;
    forall x | x in existing && x !in group ensures At(pl.dst, x) !in disk.files {
      AllListed(x);
    }
  }

  // ---------------------------------------------------------------- all together

  /** What a migration of the group needs apart from luck. */
  predicate Movable(files: Files, pl: Places, group: seq<Suffix>, sound: bool) {
    sound && Distinct(group) && AllFiles(files, pl.src, group) && NoFolders(files, pl.dst, group)
  }

  /** Everything the migration may touch. */
  function Touched(pl: Places): set<Path> { Ats(pl.src) + Ats(pl.dst) + Ats(pl.stage) + Baks(pl) }

  /** Backing up has no influence on whether the group can be moved. */
  lemma StillMovable(before: Files, after: Files, pl: Places, group: seq<Suffix>, sound: bool)
    requires Apart(pl) && SameBut(before, after, Baks(pl))
    ensures Movable(after, pl, group, sound) <==> Movable(before, pl, group, sound)
  {
    assert forall x :: SameAt(before, after, At(pl.src, x)) && SameAt(before, after, At(pl.dst, x));
  }

  /** With the backups made and everything at one of its two places, nothing is lost. */
  lemma KeptAfterBackUp(before: Files, backedUp: Files, after: Files, pl: Places, group: seq<Suffix>)
    requires Apart(pl) && SameBut(before, backedUp, Baks(pl)) && BackedUp(before, backedUp, pl)
    requires SameBut(backedUp, after, Ats(pl.src) + Ats(pl.dst) + Ats(pl.stage)) && SourcesKept(backedUp, after, pl, group)
    ensures SourcesKept(before, after, pl, group) && TargetsKept(before, after, pl) && BackedUp(before, after, pl)
  {
    assert forall x :: SameAt(before, backedUp, At(pl.src, x));
    assert forall x :: SameAt(backedUp, after, Bak(pl, x));
  }

  /** A failed backup has touched neither sources nor destination. */
  lemma KeptWithoutBackUp(before: Files, after: Files, pl: Places, group: seq<Suffix>)
    requires Apart(pl) && SameBut(before, after, Baks(pl)) && forall x :: x in group ==> At(pl.src, x) in before
    ensures SourcesKept(before, after, pl, group) && TargetsKept(before, after, pl)
  {
    assert forall x :: SameAt(before, after, At(pl.src, x)) && SameAt(before, after, At(pl.dst, x));
  }

  /** The destination after the group was carried over. */
  lemma InstalledAfterBackUp(before: Files, backedUp: Files, after: Files, pl: Places, group: seq<Suffix>, existing: set<Suffix>)
    requires Apart(pl) && SameBut(before, backedUp, Baks(pl)) && CarriedOver(backedUp, after, pl, group, existing)
    requires forall x :: At(pl.dst, x) in before ==> x in existing
    ensures Installed(before, after, pl, group)
  {
    forall x
      ensures if x in group then At(pl.src, x) in before && Has(after, At(pl.dst, x), before[At(pl.src, x)])
              else At(pl.dst, x) !in after
    {
      assert SameAt(before, backedUp, At(pl.src, x)) && SameAt(before, backedUp, At(pl.dst, x));
      assert x in group || x in existing || SameAt(backedUp, after, At(pl.dst, x));
    }
  }

  /**
   The migration of one group. On failure at any operation, and so at any moment, every
   source and every destination content survives; on success the destination is exactly
   the group, and the report lists the backups of all that was there. Unless an operation
   fails for no reason, it succeeds if and only if the staged copy is sound, no file is
   listed twice and no folder is in the way.
   */
  method MoveGroup(disk: Disk, pl: Places, group: seq<Suffix>, sound: bool) returns (ok: bool, backups: seq<Restore>, migrated: set<Suffix>)
    requires Apart(pl) && forall x :: Bak(pl, x) !in disk.files
    requires forall x :: At(pl.stage, x) in disk.files ==> disk.files[At(pl.stage, x)].File?
    requires Main in group && forall x :: x in group ==> At(pl.src, x) in disk.files
    modifies disk
    ensures SameBut(old(disk.files), disk.files, Touched(pl))
    ensures SourcesKept(old(disk.files), disk.files, pl, group) && TargetsKept(old(disk.files), disk.files, pl)
    ensures ok ==> Installed(old(disk.files), disk.files, pl, group)
    ensures ok ==> Movable(old(disk.files), pl, group, sound)
    ensures disk.faults >= old(disk.faults)
    ensures disk.faults == old(disk.faults) && Movable(old(disk.files), pl, group, sound) ==> ok
    ensures ok ==> BackedUp(old(disk.files), disk.files, pl) && Lists(old(disk.files), pl, backups)
    ensures ok ==> forall x :: x in migrated <==> x in group
  {
    ghost var m0 := disk.files;
    migrated := {};
    var existing := set x: Suffix | x.Main? || At(pl.dst, x) in disk.files;
    ok, backups := BackUp(disk, pl);
    ghost var m1 := disk.files;
    if !ok {
      KeptWithoutBackUp(m0, m1, pl, group);
      return;
    }
    StillMovable(m0, m1, pl, group, sound);
    ok := CarryOver(disk, pl, existing, group, sound);
    KeptAfterBackUp(m0, m1, disk.files, pl, group);
    if ok {
      InstalledAfterBackUp(m0, m1, disk.files, pl, group, existing);
      migrated := set x: Suffix | x in group && At(pl.dst, x) in disk.files;
    }
  }

  /** What carrying the group over leaves at the destination. */
  ghost predicate CarriedOver(before: Files, after: Files, pl: Places, group: seq<Suffix>, existing: set<Suffix>) {
    forall x ::
      if x in group then At(pl.src, x) in before && Has(after, At(pl.dst, x), before[At(pl.src, x)])
      else if x in existing then At(pl.dst, x) !in after
      else SameAt(before, after, At(pl.dst, x))
  }

  /** Steps 2 to 5 and the staging directory: the files go over, and only then the sources go. */
  method CarryOver(disk: Disk, pl: Places, existing: set<Suffix>, group: seq<Suffix>, sound: bool) returns (ok: bool)
    requires Apart(pl) && forall x :: At(pl.stage, x) in disk.files ==> disk.files[At(pl.stage, x)].File?
    requires forall x :: x in group ==> At(pl.src, x) in disk.files
    modifies disk
    ensures SameBut(old(disk.files), disk.files, Ats(pl.src) + Ats(pl.dst) + Ats(pl.stage)) && disk.faults >= old(disk.faults)
    ensures SourcesKept(old(disk.files), disk.files, pl, group)
    ensures ok ==> CarriedOver(old(disk.files), disk.files, pl, group, existing) && Movable(old(disk.files), pl, group, sound)
    ensures !ok && disk.faults == old(disk.faults) ==> !Movable(old(disk.files), pl, group, sound)
  {
    ok := StageAndInstall(disk, pl, group, sound);
    if !ok { return; }
    ok := Retire(disk, pl, existing, group);
    if !ok { return; }
    ClearStaging(disk, pl);
  }

  /** Only after everything is in place the sources and what is stale go. */
  method Retire(disk: Disk, pl: Places, existing: set<Suffix>, group: seq<Suffix>) returns (ok: bool)
    requires Apart(pl)
    modifies disk
    ensures SameBut(old(disk.files), disk.files, Ats(pl.src) + Ats(pl.dst)) && disk.faults >= old(disk.faults)
    ensures !ok ==> disk.faults > old(disk.faults)
    ensures forall x :: x in group || x !in existing ==> SameAt(old(disk.files), disk.files, At(pl.dst, x))
    ensures ok ==> forall x :: x in existing && x !in group ==> At(pl.dst, x) !in disk.files
  {
    DeleteSources(disk, pl, group);
    ok := RemoveStale(disk, pl, existing, group);
  }

  /** Steps 2 to 4: the integrity check stands between copying and replacing. */
  method StageAndInstall(disk: Disk, pl: Places, group: seq<Suffix>, sound: bool) returns (ok: bool)
    requires Apart(pl) && forall x :: At(pl.stage, x) in disk.files ==> disk.files[At(pl.stage, x)].File?
    modifies disk
    ensures SameBut(old(disk.files), disk.files, Ats(pl.stage) + Ats(pl.dst)) && disk.faults >= old(disk.faults)
    ensures forall x :: x !in group ==> SameAt(old(disk.files), disk.files, At(pl.dst, x))
    ensures ok ==> Movable(old(disk.files), pl, group, sound) && forall x :: x in group ==>
      Has(disk.files, At(pl.dst, x), old(disk.files)[At(pl.src, x)])
    ensures !ok && disk.faults == old(disk.faults) ==> !Movable(old(disk.files), pl, group, sound)
  {
    ok := Stage(disk, pl, group);
    if !ok { return; }
    if !sound { return false; }  // PRAGMA integrity_check on the staged copy
    ok := Install(disk, pl, group);
  }

  /** `rmtree` of the staging directory, errors ignored. */
  method ClearStaging(disk: Disk, pl: Places)
    modifies disk
    ensures SameBut(old(disk.files), disk.files, Ats(pl.stage)) && disk.faults >= old(disk.faults)
  {
    for i := 0 to |BY_AGE|
      invariant SameBut(old(disk.files), disk.files, Ats(pl.stage)) && disk.faults >= old(disk.faults)
    {
      var _ := disk.Unlink(At(pl.stage, BY_AGE[i]));
    }
  }
}
