/**
 `archive_legacy_databases`: every redundant database file is copied aside and compared
 before the first one is removed.
 */
module LegacyArchive {
  import opened Common
  import opened FileSystem
  import opened DatabaseMove
  import opened DatabaseMigration

  /** A file to be archived: found under root number `index`, in its subdirectory `sub`. */
  datatype Entry = Entry(path: Path, index: nat, sub: Dir)

  const SUBDIRECTORIES: seq<Dir> := [[], ["data"], ["database"]]

  predicate EntryOk(roots: seq<Dir>, e: Entry) {
    && e.index < |roots| && e.sub in SUBDIRECTORIES
    && e.path.dir == roots[e.index] + e.sub && e.path.name.Db?
  }

  function SourceLabel(index: nat): string { "source-" + Decimal(index) }

  /** The archive keeps the path relative to the root. */
  function Dest(archive: Dir, e: Entry): Path { Path(archive + ([SourceLabel(e.index)] + e.sub), e.path.name) }

  function ArchiveDir(home: Dir, stamp: string): Dir { home + [".migration_backups", "legacy-databases-" + stamp] }

  // ---------------------------------------------------------------- the mapping

  lemma {:induction false} DecimalIsInjective(n: nat, m: nat)
    requires Decimal(n) == Decimal(m)
    ensures n == m
    decreases n
  {
    DecimalSize(n);
    DecimalSize(m);
    if n >= 10 {
      DecimalSplits(n);
      DecimalSplits(m);
      DecimalIsInjective(n / 10, m / 10);
      DigitIsInjective(n % 10, m % 10);
    } else {
      DigitIsInjective(n, m);
    }
  }

  lemma DigitIsInjective(n: nat, m: nat)
    requires n < 10 && m < 10 && Decimal(n) == Decimal(m)
    ensures n == m
  {
    assert Decimal(n)[0] == Decimal(m)[0];
  }

  lemma {:induction false} DecimalSize(n: nat)
    ensures |Decimal(n)| >= 1 && (|Decimal(n)| == 1 <==> n < 10)
  {
    if n >= 10 { DecimalSize(n / 10); DecimalSize(n % 10); }
  }

  lemma DecimalSplits(n: nat)
    requires n >= 10
    ensures var d := Decimal(n); |d| > 0 && d[..|d| - 1] == Decimal(n / 10) && d[|d| - 1..] == Decimal(n % 10)
  {
    DecimalSize(n / 10);
    DecimalSize(n % 10);
    assert Decimal(n) == Decimal(n / 10) + Decimal(n % 10);
  }

  /** Two files are never archived to the same place. */
  lemma DestIsInjective(roots: seq<Dir>, archive: Dir, e: Entry, f: Entry)
    requires EntryOk(roots, e) && EntryOk(roots, f) && Dest(archive, e) == Dest(archive, f)
    ensures e == f
  {
    var d, g := [SourceLabel(e.index)] + e.sub, [SourceLabel(f.index)] + f.sub;
    assert d == (archive + d)[|archive|..] && g == (archive + g)[|archive|..];
    assert SourceLabel(e.index) == d[0] == g[0] == SourceLabel(f.index);
    assert Decimal(e.index) == SourceLabel(e.index)[7..] == SourceLabel(f.index)[7..] == Decimal(f.index);
    DecimalIsInjective(e.index, f.index);
    assert e.sub == d[1..] == g[1..] == f.sub;
  }

  // ---------------------------------------------------------------- what is archived

  ghost predicate Collected(files: Files, roots: seq<Dir>, home: Dir, es: seq<Entry>) {
    && (forall e :: e in es ==> EntryOk(roots, e) && e.path in files && files[e.path].File? && e.path.dir != DbDir(home))
    && (forall i, j :: 0 <= i < j < |es| ==> es[i].path != es[j].path)
  }

  predicate Searched(roots: seq<Dir>, i: int, sub: Dir, d: Dir) {
    0 <= i < |roots| && sub in SUBDIRECTORIES && d == roots[i] + sub
  }

  /** A database file in one of the searched directories, the active database apart. */
  ghost predicate Legacy(files: Files, roots: seq<Dir>, home: Dir, p: Path) {
    && p in files && files[p].File? && p.name.Db? && p.dir != DbDir(home)
    && exists i, sub :: Searched(roots, i, sub, p.dir)
  }

  ghost predicate AnyLegacy(files: Files, roots: seq<Dir>, home: Dir) { exists p :: Legacy(files, roots, home, p) }

  /** One of them is a link or leads out of its root. */
  ghost predicate AnyLinked(files: Files, roots: seq<Dir>, home: Dir, links: set<Path>) {
    exists p :: p in links && Legacy(files, roots, home, p)
  }

  ghost predicate Unlinked(es: seq<Entry>, links: set<Path>) { forall e :: e in es ==> e.path !in links }

  ghost predicate Listed(es: seq<Entry>, p: Path) { exists e :: e in es && e.path == p }

  /** The database files in `d` are all listed. */
  ghost predicate AllOf(files: Files, d: Dir, es: seq<Entry>) {
    forall x :: At(d, x) in files && files[At(d, x)].File? ==> Listed(es, At(d, x))
  }

  /** Every database file of the first `n` roots is listed, the active database apart. */
  ghost predicate Complete(files: Files, roots: seq<Dir>, n: nat, home: Dir, es: seq<Entry>) {
    forall i, sub :: 0 <= i < n <= |roots| && sub in SUBDIRECTORIES && roots[i] + sub != DbDir(home) ==>
      AllOf(files, roots[i] + sub, es)
  }

  /** The files of one database, those already seen left out. */
  method CollectDatabase(disk: Disk, roots: seq<Dir>, index: nat, sub: Dir, ghost home: Dir, links: set<Path>, seen: seq<Entry>)
      returns (linked: bool, es: seq<Entry>)
    requires index < |roots| && sub in SUBDIRECTORIES && roots[index] + sub != DbDir(home)
    requires Collected(disk.files, roots, home, seen) && Unlinked(seen, links)
    ensures Collected(disk.files, roots, home, es) && Unlinked(es, links) && seen <= es
    ensures linked ==> AnyLinked(disk.files, roots, home, links)
    ensures !linked ==> AllOf(disk.files, roots[index] + sub, es)
  {
    es := seen;
    var d := roots[index] + sub;
    for i := 0 to |BY_AGE|
      invariant Collected(disk.files, roots, home, es) && Unlinked(es, links) && seen <= es
      invariant forall j :: 0 <= j < i && At(d, BY_AGE[j]) in disk.files && disk.files[At(d, BY_AGE[j])].File? ==> Listed(es, At(d, BY_AGE[j]))
    {
      var path := At(d, BY_AGE[i]);
      if path in disk.files && disk.files[path].File? && forall e :: e in es ==> e.path != path {
        if path in links {
          assert Searched(roots, index, sub, path.dir) && Legacy(disk.files, roots, home, path);
          return true, es;
        }
        es := Append(es, Entry(path, index, sub));
      }
    }
    linked := false;
    forall x | At(d, x) in disk.files && disk.files[At(d, x)].File? ensures Listed(es, At(d, x)) { AllListed(x); }
  }

  function Append(es: seq<Entry>, e: Entry): (r: seq<Entry>)
    ensures forall p :: Listed(es, p) ==> Listed(r, p)
    ensures Listed(r, e.path)
    ensures forall f :: f in r <==> f in es || f == e
  {
    assert (es + [e])[|es|] == e;
    es + [e]
  }

  lemma AllOfGrows(files: Files, d: Dir, es: seq<Entry>, more: seq<Entry>)
    requires AllOf(files, d, es) && es <= more
    ensures AllOf(files, d, more)
  {
    forall x | At(d, x) in files && files[At(d, x)].File? ensures Listed(more, At(d, x)) {
      var e :| e in es && e.path == At(d, x);
      assert e in more;
    }
  }

  lemma CompleteGrows(files: Files, roots: seq<Dir>, n: nat, home: Dir, es: seq<Entry>, more: seq<Entry>)
    requires Complete(files, roots, n, home, es) && es <= more
    ensures Complete(files, roots, n, home, more)
  {
    forall i, sub | 0 <= i < n <= |roots| && sub in SUBDIRECTORIES && roots[i] + sub != DbDir(home)
      ensures AllOf(files, roots[i] + sub, more)
    {
      AllOfGrows(files, roots[i] + sub, es, more);
    }
  }

  /** The three directories of one root. */
  method CollectRoot(disk: Disk, roots: seq<Dir>, index: nat, home: Dir, links: set<Path>, seen: seq<Entry>)
      returns (linked: bool, es: seq<Entry>)
    requires index < |roots| && Collected(disk.files, roots, home, seen) && Unlinked(seen, links)
    ensures Collected(disk.files, roots, home, es) && Unlinked(es, links) && seen <= es
    ensures linked ==> AnyLinked(disk.files, roots, home, links)
    ensures !linked ==> forall sub :: sub in SUBDIRECTORIES && roots[index] + sub != DbDir(home) ==>
      AllOf(disk.files, roots[index] + sub, es)
  {
    es := seen;
    for j := 0 to |SUBDIRECTORIES|
      invariant Collected(disk.files, roots, home, es) && Unlinked(es, links) && seen <= es
      invariant forall k :: 0 <= k < j && roots[index] + SUBDIRECTORIES[k] != DbDir(home) ==>
        AllOf(disk.files, roots[index] + SUBDIRECTORIES[k], es)
    {
      var sub := SUBDIRECTORIES[j];
      if roots[index] + sub != DbDir(home) {
        ghost var before := es;
        linked, es := CollectDatabase(disk, roots, index, sub, home, links, es);
        if linked { return; }
        forall k | 0 <= k < j && roots[index] + SUBDIRECTORIES[k] != DbDir(home)
          ensures AllOf(disk.files, roots[index] + SUBDIRECTORIES[k], es)
        {
          AllOfGrows(disk.files, roots[index] + SUBDIRECTORIES[k], before, es);
        }
      }
    }
    linked := false;
  }

  /** Raises exactly at a linked file; otherwise lists exactly the legacy database files, each once. */
  method Collect(disk: Disk, roots: seq<Dir>, home: Dir, links: set<Path>) returns (linked: bool, es: seq<Entry>)
    ensures Collected(disk.files, roots, home, es)
    ensures linked <==> AnyLinked(disk.files, roots, home, links)
    ensures !linked ==> forall p :: Listed(es, p) <==> Legacy(disk.files, roots, home, p)
  {
    es := [];
    for i := 0 to |roots|
      invariant Collected(disk.files, roots, home, es) && Unlinked(es, links) && Complete(disk.files, roots, i, home, es)
    {
      ghost var before := es;
      linked, es := CollectRoot(disk, roots, i, home, links, es);
      if linked { return; }
      CompleteGrows(disk.files, roots, i, home, before, es);
    }
    linked := false;
    forall p ensures Listed(es, p) <==> Legacy(disk.files, roots, home, p) { ListedExactly(disk.files, roots, home, es, p); }
    assert forall p :: Listed(es, p) ==> p !in links;
  }

  lemma ListedExactly(files: Files, roots: seq<Dir>, home: Dir, es: seq<Entry>, p: Path)
    requires Collected(files, roots, home, es) && Complete(files, roots, |roots|, home, es)
    ensures Listed(es, p) <==> Legacy(files, roots, home, p)
  {
    if Listed(es, p) {
      var e :| e in es && e.path == p;
      assert Searched(roots, e.index, e.sub, p.dir);
    }
    if Legacy(files, roots, home, p) {
      var i, sub :| Searched(roots, i, sub, p.dir);
      assert AllOf(files, roots[i] + sub, es) && p == At(roots[i] + sub, p.name.suffix);
    }
  }

  // ---------------------------------------------------------------- archiving

  predicate Under(archive: Dir, p: Path) { archive <= p.dir }

  /** The first `n` files have a verified copy. */
  ghost predicate Archived(before: Files, after: Files, archive: Dir, es: seq<Entry>, n: nat) {
    forall i :: 0 <= i < n <= |es| ==> es[i].path in before && Has(after, Dest(archive, es[i]), before[es[i].path])
  }

  /** Every candidate is where it was, or in the archive. */
  ghost predicate AllKept(before: Files, after: Files, archive: Dir, es: seq<Entry>) {
    forall e :: e in es ==>
      && e.path in before
      && (Has(after, e.path, before[e.path]) || Has(after, Dest(archive, e), before[e.path]))
  }

  /** A missing candidate means that all candidates are archived. */
  ghost predicate NothingEarly(before: Files, after: Files, archive: Dir, es: seq<Entry>) {
    (exists e :: e in es && e.path !in after) ==> Archived(before, after, archive, es, |es|)
  }

  /** A copy that may be wrong without saying so. */
  method CopyUnverified(disk: Disk, src: Path, dst: Path) returns (ok: bool)
    modifies disk
    ensures SameBut(old(disk.files), disk.files, {dst}) && disk.faults >= old(disk.faults)
    ensures disk.faults == old(disk.faults) && Plain(old(disk.files), src) && dst !in old(disk.files) ==>
      ok && Has(disk.files, dst, old(disk.files)[src])
    ensures ok ==> Plain(old(disk.files), src)
  {
    ok := disk.Copy(src, dst);
    var damaged: bool := *;
    if damaged {
      disk.Spoil(dst);
      disk.faults := disk.faults + 1;
    }
  }

  predicate Plain(files: Files, p: Path) { p in files && files[p].File? }

  predicate Unused(files: Files, archive: Dir) { forall p :: p in files ==> !Under(archive, p) }

  /** The archive holds nothing but the first `n` files. */
  ghost predicate OnlyFirst(files: Files, archive: Dir, es: seq<Entry>, n: nat) {
    forall p :: p in files && Under(archive, p) ==> exists j :: 0 <= j < n <= |es| && p == Dest(archive, es[j])
  }

  method CopyOne(disk: Disk, src: Path, dst: Path) returns (ok: bool)
    requires src != dst
    modifies disk
    ensures SameBut(old(disk.files), disk.files, {dst}) && disk.faults >= old(disk.faults)
    ensures ok ==> Plain(old(disk.files), src) && Has(disk.files, dst, old(disk.files)[src])
    ensures !ok && disk.faults == old(disk.faults) ==> !Plain(old(disk.files), src) || dst in old(disk.files)
  {
    ok := CopyUnverified(disk, src, dst);
    if ok && (dst !in disk.files || disk.files[src] != disk.files[dst]) {
      ok := false;
    }
  }

  ghost predicate SameOutside(before: Files, after: Files, archive: Dir) {
    forall p :: !Under(archive, p) ==> SameAt(before, after, p)
  }

  /** After `n` files; `clean`: the archive was unused and nothing failed so far. */
  ghost predicate CopiedTo(before: Files, after: Files, archive: Dir, es: seq<Entry>, n: nat, clean: bool) {
    && SameOutside(before, after, archive) && Archived(before, after, archive, es, n)
    && (clean ==> OnlyFirst(after, archive, es, n))
  }

  ghost predicate Distinct(roots: seq<Dir>, archive: Dir, es: seq<Entry>) {
    && (forall j :: 0 <= j < |es| ==> EntryOk(roots, es[j]) && !Under(archive, es[j].path))
    && (forall j, k :: 0 <= j < k < |es| ==> es[j].path != es[k].path)
  }

  /** One more file in the archive. */
  lemma CopiedOneMore(roots: seq<Dir>, before: Files, files: Files, after: Files, archive: Dir, es: seq<Entry>, n: nat, clean: bool)
    requires n < |es| && Distinct(roots, archive, es) && CopiedTo(before, files, archive, es, n, clean)
    requires SameBut(files, after, {Dest(archive, es[n])})
    requires es[n].path in before && Has(after, Dest(archive, es[n]), before[es[n].path])
    ensures CopiedTo(before, after, archive, es, n + 1, clean)
  {
    DestsDiffer(roots, archive, es, n);
    assert Under(archive, Dest(archive, es[n]));
    if clean { OnlyOneMore(files, after, archive, es, n); }
  }

  lemma OnlyOneMore(files: Files, after: Files, archive: Dir, es: seq<Entry>, n: nat)
    requires n < |es| && OnlyFirst(files, archive, es, n) && SameBut(files, after, {Dest(archive, es[n])})
    ensures OnlyFirst(after, archive, es, n + 1)
  {
    forall p | p in after && Under(archive, p) ensures exists j :: 0 <= j < n + 1 <= |es| && p == Dest(archive, es[j]) {
      if p != Dest(archive, es[n]) {
        assert p in files;
        var j :| 0 <= j < n && p == Dest(archive, es[j]);
      }
    }
  }

  lemma DestIsFree(roots: seq<Dir>, files: Files, archive: Dir, es: seq<Entry>, n: nat)
    requires n < |es| && Distinct(roots, archive, es) && OnlyFirst(files, archive, es, n)
    ensures Dest(archive, es[n]) !in files
  {
    DestsDiffer(roots, archive, es, n);
    assert Under(archive, Dest(archive, es[n]));
  }

  lemma DestsDiffer(roots: seq<Dir>, archive: Dir, es: seq<Entry>, n: nat)
    requires n < |es| && Distinct(roots, archive, es)
    ensures forall j :: 0 <= j < n ==> Dest(archive, es[j]) != Dest(archive, es[n])
  {
    forall j | 0 <= j < n ensures Dest(archive, es[j]) != Dest(archive, es[n]) {
      if Dest(archive, es[j]) == Dest(archive, es[n]) { DestIsInjective(roots, archive, es[j], es[n]); }
    }
  }

  lemma PathsStay(roots: seq<Dir>, before: Files, files: Files, archive: Dir, es: seq<Entry>, n: nat)
    requires n < |es| && Distinct(roots, archive, es) && SameOutside(before, files, archive)
    ensures SameAt(before, files, es[n].path) && es[n].path != Dest(archive, es[n])
  {
    assert Under(archive, Dest(archive, es[n])) && !Under(archive, es[n].path);
  }

  /** Copy everything, comparing each file byte by byte. */
  method CopyAll(disk: Disk, ghost roots: seq<Dir>, archive: Dir, es: seq<Entry>) returns (ok: bool)
    requires Distinct(roots, archive, es) && forall e :: e in es ==> Plain(disk.files, e.path)
    modifies disk
    ensures forall p :: !Under(archive, p) ==> SameAt(old(disk.files), disk.files, p)
    ensures ok ==> Archived(old(disk.files), disk.files, archive, es, |es|)
    ensures disk.faults >= old(disk.faults)
    ensures !ok && Unused(old(disk.files), archive) ==> disk.faults > old(disk.faults)
  {
    ghost var before := disk.files;
    ghost var unused := Unused(before, archive);
    for i := 0 to |es|
      invariant disk.faults >= old(disk.faults)
      invariant CopiedTo(before, disk.files, archive, es, i, unused && disk.faults == old(disk.faults))
    {
      assert es[i] in es;
      ghost var files, clean := disk.files, unused && disk.faults == old(disk.faults);
      PathsStay(roots, before, files, archive, es, i);
      if clean { DestIsFree(roots, files, archive, es, i); }
      ok := CopyOne(disk, es[i].path, Dest(archive, es[i]));
      if !ok {
        OnlyDestTouched(before, files, disk.files, archive, es[i]);
        return;
      }
      CopiedOneMore(roots, before, files, disk.files, archive, es, i, clean);
    }
    ok := true;
  }

  lemma OnlyDestTouched(before: Files, files: Files, after: Files, archive: Dir, e: Entry)
    requires SameOutside(before, files, archive) && SameBut(files, after, {Dest(archive, e)})
    ensures SameOutside(before, after, archive)
  {
    assert Under(archive, Dest(archive, e));
  }

  /** Only now the sources go, one by one. */
  method RetireAll(disk: Disk, archive: Dir, es: seq<Entry>) returns (ok: bool)
    requires forall i :: 0 <= i < |es| ==> !Under(archive, es[i].path)
    requires forall i, j :: 0 <= i < j < |es| ==> es[i].path != es[j].path
    modifies disk
    ensures forall p :: p in disk.files ==> Has(old(disk.files), p, disk.files[p])
    ensures forall p :: p in old(disk.files) && p !in disk.files ==> Listed(es, p)
    ensures ok ==> forall e :: e in es ==> e.path !in disk.files
    ensures disk.faults >= old(disk.faults)
    ensures !ok && disk.faults == old(disk.faults) ==> exists e :: e in es && !Plain(old(disk.files), e.path)
  {
    ghost var before := disk.files;
    for i := 0 to |es|
      invariant disk.faults >= old(disk.faults)
      invariant forall j :: i <= j < |es| ==> SameAt(before, disk.files, es[j].path)
      invariant forall p :: p in disk.files ==> Has(before, p, disk.files[p])
      invariant forall p :: p in before && p !in disk.files ==> Listed(es, p)
      invariant forall j :: 0 <= j < i ==> es[j].path !in disk.files
    {
      assert es[i] in es;
      ok := disk.Unlink(es[i].path);
      if !ok { return; }
    }
    ok := true;
  }

  /** Some legacy database has a main file. */
  ghost predicate AnyMain(files: Files, es: seq<Entry>) { exists e :: e in es && Counts(files, e.path) }

  /** `b` is the database whose file was written last. */
  ghost predicate NewestOf(files: Files, es: seq<Entry>, mtime: Path -> int, b: Path) {
    exists e :: e in es && Counts(files, e.path) && Base(e.path) == b &&
                forall f :: f in es && Counts(files, f.path) ==> mtime(f.path) <= mtime(e.path)
  }

  /** A rehearsal without an active database leaves out the one a migration would select. */
  method WithoutNewest(disk: Disk, es: seq<Entry>, mtime: Path -> int) returns (rest: seq<Entry>, ghost best: Option<Path>)
    ensures best.Some? <==> AnyMain(disk.files, es)
    ensures best.Some? ==> NewestOf(disk.files, es, mtime, best.value)
    ensures forall e :: e in rest <==> e in es && best.Some? && Base(e.path) != best.value
  {
    var paths := seq(|es|, i requires 0 <= i < |es| => es[i].path);
    var newest := MostRecent(disk, paths, mtime);
    best := newest;
    rest := [];
    NewestIsOf(disk.files, es, paths, mtime, newest);
    if newest.Some? {
      for i := 0 to |es|
        invariant forall e :: e in rest <==> e in es[..i] && Base(e.path) != newest.value
      {
        assert es[..i + 1] == es[..i] + [es[i]];
        if Base(es[i].path) != newest.value { rest := rest + [es[i]]; }
      }
      assert es[..|es|] == es;
    }
  }

  lemma NewestIsOf(files: Files, es: seq<Entry>, paths: seq<Path>, mtime: Path -> int, best: Option<Path>)
    requires |paths| == |es| && forall i :: 0 <= i < |es| ==> paths[i] == es[i].path
    requires best.None? <==> Bases(files, paths) == []
    requires best.Some? ==> IsMostRecent(files, paths, mtime, best.value)
    ensures best.Some? <==> AnyMain(files, es)
    ensures best.Some? ==> NewestOf(files, es, mtime, best.value)
  {
    if best.Some? {
      var p := MostRecentIsNewest(files, paths, mtime, best.value);
      var i :| 0 <= i < |paths| && paths[i] == p;
      assert es[i] in es;
      forall f | f in es && Counts(files, f.path) ensures mtime(f.path) <= mtime(p) {
        var j :| 0 <= j < |es| && es[j] == f;
        assert paths[j] in paths;
      }
    }
    forall e | e in es && Counts(files, e.path) ensures Bases(files, paths) != [] {
      var j :| 0 <= j < |es| && es[j] == e;
      assert paths[j] in paths;
      assert e.path in GroupOf(files, paths, Base(e.path));
      assert Base(e.path) in Bases(files, paths);
    }
  }

  datatype ArchiveAction = NotApplicable | Planned | Refused | Archive | Failed

  /** A real call goes on exactly with a plain active database and something to archive. */
  ghost predicate Applies(files: Files, roots: seq<Dir>, home: Dir, dryRun: bool, links: set<Path>) {
    && !dryRun && !AnyLinked(files, roots, home, links)
    && Plain(files, At(DbDir(home), Main)) && AnyLegacy(files, roots, home)
  }

  /** Without an active database a rehearsal needs two legacy databases, one of them with its main file. */
  ghost predicate TwoLegacy(files: Files, roots: seq<Dir>, home: Dir) {
    && (exists p, q :: Legacy(files, roots, home, p) && Legacy(files, roots, home, q) && p.dir != q.dir)
    && (exists p :: Legacy(files, roots, home, p) && Base(p) in files)
  }

  /** `b` is the legacy database, complete with a main file, that was written last. */
  ghost predicate NewestLegacy(files: Files, roots: seq<Dir>, home: Dir, mtime: Path -> int, b: Path) {
    exists p :: Legacy(files, roots, home, p) && Base(p) in files && Base(p) == b &&
                forall q :: Legacy(files, roots, home, q) && Base(q) in files ==> mtime(q) <= mtime(p)
  }

  /**
   `archive_legacy_databases`; `sound`: the integrity check of the active database succeeds.
   At any failure every candidate is where it was or archived, nothing is removed before
   everything is archived, and the active database is never touched.
   */
  method ArchiveLegacyDatabases(disk: Disk, roots: seq<Dir>, home: Dir, dryRun: bool, links: set<Path>, sound: bool,
                                mtime: Path -> int, stamp: string)
      returns (action: ArchiveAction, es: seq<Entry>)
    modifies disk
    ensures !action.Archive? && !action.Failed? ==> disk.files == old(disk.files)
    ensures action.Archive? || action.Failed? ==>
      && Collected(old(disk.files), roots, home, es)
      && forall p :: Listed(es, p) <==> Legacy(old(disk.files), roots, home, p)
    ensures action.Archive? || action.Failed? ==>
      AllKept(old(disk.files), disk.files, ArchiveDir(home, stamp), es) && NothingEarly(old(disk.files), disk.files, ArchiveDir(home, stamp), es)
    ensures action.Archive? ==> Archived(old(disk.files), disk.files, ArchiveDir(home, stamp), es, |es|)
    ensures action.Archive? ==> forall e :: e in es ==> e.path !in disk.files
    ensures forall p :: !Under(ArchiveDir(home, stamp), p) && !Listed(es, p) ==> SameAt(old(disk.files), disk.files, p)
    ensures forall x :: SameAt(old(disk.files), disk.files, At(DbDir(home), x))
    ensures action.Refused? <==> AnyLinked(old(disk.files), roots, home, links)
    ensures action.Archive? || action.Failed? <==> Applies(old(disk.files), roots, home, dryRun, links)
    ensures action.Archive? ==> sound && Unused(old(disk.files), ArchiveDir(home, stamp))
    ensures action.Failed? && sound && Unused(old(disk.files), ArchiveDir(home, stamp)) ==> disk.faults > old(disk.faults)
    ensures action.Planned? <==>
      && dryRun && !AnyLinked(disk.files, roots, home, links)
      && if At(DbDir(home), Main) in disk.files then AnyLegacy(disk.files, roots, home) else TwoLegacy(disk.files, roots, home)
    ensures action.Planned? && At(DbDir(home), Main) in disk.files ==>
      forall p :: Listed(es, p) <==> Legacy(disk.files, roots, home, p)
    ensures action.Planned? && At(DbDir(home), Main) !in disk.files ==>
      exists b :: NewestLegacy(disk.files, roots, home, mtime, b) &&
                  forall p :: Listed(es, p) <==> Legacy(disk.files, roots, home, p) && Base(p) != b
  {
    ghost var before := disk.files;
    var active, archive := At(DbDir(home), Main), ArchiveDir(home, stamp);
    ActiveIsApart(home, stamp);
    var linked;
    linked, es := Collect(disk, roots, home, links);
    if linked {
      return Refused, es;
    }
    AnyListed(before, roots, home, es);
    if dryRun && active !in disk.files {
      ghost var all := es;
      ghost var best;
      es, best := WithoutNewest(disk, es, mtime);
      RehearsalLeaves(before, roots, home, all, es, mtime, best);
      RehearsalLists(before, roots, home, all, es, mtime, best);
    }
    if es == [] || (!dryRun && (active !in disk.files || disk.files[active].Folder?)) {
      return NotApplicable, es;
    }
    if dryRun {
      return Planned, es;
    }
    if !sound || exists p :: p in disk.files && Under(archive, p) {
      return Failed, es;
    }
    assert CandidatesArePlain(before, archive, es);
    var ok := CopyAll(disk, roots, archive, es);
    if !ok {
      return Failed, es;
    }
    ghost var copied := disk.files;
    ok := RetireAll(disk, archive, es);
    RetiredIsArchived(before, copied, disk.files, archive, es);
    return if ok then Archive else Failed, es;
  }

  ghost predicate CandidatesArePlain(files: Files, archive: Dir, es: seq<Entry>) {
    forall e :: e in es ==> Plain(files, e.path) && !Under(archive, e.path)
  }

  lemma AnyListed(files: Files, roots: seq<Dir>, home: Dir, es: seq<Entry>)
    requires forall p :: Listed(es, p) <==> Legacy(files, roots, home, p)
    ensures es != [] <==> AnyLegacy(files, roots, home)
  {
    if es != [] { assert es[0] in es; assert Listed(es, es[0].path); }
  }

  /** Some file stays in the rehearsal exactly if there are two databases to choose from. */
  lemma RehearsalLeaves(files: Files, roots: seq<Dir>, home: Dir, all: seq<Entry>, rest: seq<Entry>, mtime: Path -> int, best: Option<Path>)
    requires forall p :: Listed(all, p) <==> Legacy(files, roots, home, p)
    requires best.Some? <==> AnyMain(files, all)
    requires best.Some? ==> NewestOf(files, all, mtime, best.value)
    requires forall e :: e in rest <==> e in all && best.Some? && Base(e.path) != best.value
    ensures rest != [] <==> TwoLegacy(files, roots, home)
  {
    if rest != [] {
      var e := rest[0];
      assert e in rest;
      TwoListed(files, roots, home, all, mtime, best.value, e);
    }
    if TwoLegacy(files, roots, home) {
      var p, q :| Legacy(files, roots, home, p) && Legacy(files, roots, home, q) && p.dir != q.dir;
      var m :| Legacy(files, roots, home, m) && Base(m) in files;
      var e := EntryOf(all, p);
      var f := EntryOf(all, q);
      var g := EntryOf(all, m);
      assert Counts(files, g.path);
      assert e in rest || f in rest;
    }
  }

  /** What stays is everything but the newest database. */
  lemma RehearsalLists(files: Files, roots: seq<Dir>, home: Dir, all: seq<Entry>, rest: seq<Entry>, mtime: Path -> int, best: Option<Path>)
    requires forall p :: Listed(all, p) <==> Legacy(files, roots, home, p)
    requires best.Some? ==> NewestOf(files, all, mtime, best.value)
    requires forall e :: e in rest <==> e in all && best.Some? && Base(e.path) != best.value
    ensures rest != [] ==> exists b :: NewestLegacy(files, roots, home, mtime, b) &&
                                       forall p :: Listed(rest, p) <==> Legacy(files, roots, home, p) && Base(p) != b
  {
    if rest != [] {
      assert rest[0] in rest;
      var e := MaximalEntry(files, all, mtime, best.value);
      assert Listed(all, e.path);
      forall q | Legacy(files, roots, home, q) && Base(q) in files ensures mtime(q) <= mtime(e.path) {
        var f := EntryOf(all, q);
      }
      assert NewestLegacy(files, roots, home, mtime, best.value);
      forall p ensures Listed(rest, p) <==> Legacy(files, roots, home, p) && Base(p) != best.value {
        if Legacy(files, roots, home, p) && Base(p) != best.value {
          var f := EntryOf(all, p);
          assert f in rest;
        }
        if Listed(rest, p) {
          var f := EntryOf(rest, p);
          assert Listed(all, p);
        }
      }
    }
  }

  lemma MaximalEntry(files: Files, es: seq<Entry>, mtime: Path -> int, b: Path) returns (e: Entry)
    requires NewestOf(files, es, mtime, b)
    ensures e in es && Counts(files, e.path) && Base(e.path) == b
    ensures forall f :: f in es && Counts(files, f.path) ==> mtime(f.path) <= mtime(e.path)
  {
    e :| e in es && Counts(files, e.path) && Base(e.path) == b &&
         forall f :: f in es && Counts(files, f.path) ==> mtime(f.path) <= mtime(e.path);
  }

  lemma EntryOf(es: seq<Entry>, p: Path) returns (e: Entry)
    requires Listed(es, p)
    ensures e in es && e.path == p
  {
    e :| e in es && e.path == p;
  }

  lemma TwoListed(files: Files, roots: seq<Dir>, home: Dir, all: seq<Entry>, mtime: Path -> int, b: Path, e: Entry)
    requires forall p :: Listed(all, p) <==> Legacy(files, roots, home, p)
    requires NewestOf(files, all, mtime, b) && e in all && Base(e.path) != b
    ensures TwoLegacy(files, roots, home)
  {
    var f :| f in all && Counts(files, f.path) && Base(f.path) == b;
    assert Listed(all, e.path) && Listed(all, f.path);
    assert Legacy(files, roots, home, e.path) && Legacy(files, roots, home, f.path);
    assert e.path.dir != f.path.dir by { assert e.path.name.Db?; }
  }

  lemma ActiveIsApart(home: Dir, stamp: string)
    ensures forall x :: !Under(ArchiveDir(home, stamp), At(DbDir(home), x))
  {
  }

  lemma RetiredIsArchived(before: Files, copied: Files, after: Files, archive: Dir, es: seq<Entry>)
    requires Archived(before, copied, archive, es, |es|) && forall i :: 0 <= i < |es| ==> !Under(archive, es[i].path)
    requires forall p :: p in after ==> Has(copied, p, after[p])
    requires forall p :: p in copied && p !in after ==> Listed(es, p)
    ensures Archived(before, after, archive, es, |es|) && AllKept(before, after, archive, es)
  {
    forall i | 0 <= i < |es| ensures Has(after, Dest(archive, es[i]), before[es[i].path]) {
      assert Under(archive, Dest(archive, es[i]));
    }
  }
}
