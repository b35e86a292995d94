/**
 `migrate_database`: finding the legacy databases, choosing the most recent one, and
 everything that can come of it; and its rollback.
 */
module DatabaseMigration {
  import opened Common
  import opened FileSystem
  import opened DatabaseMove

  function DbDir(home: Dir): Dir { home + ["database"] }

  function StagingDir(home: Dir): Dir { home + [".migration_staging", "database"] }

  function BackupDir(home: Dir): Dir { DbDir(home) + [".migration_backups"] }

  function PlacesOf(src: Dir, home: Dir, stamp: string): Places {
    Places(src, DbDir(home), StagingDir(home), BackupDir(home), stamp)
  }

  lemma PlacesApart(src: Dir, home: Dir, stamp: string)
    requires src != DbDir(home) && src != StagingDir(home)
    ensures Apart(PlacesOf(src, home, stamp))
  {
    var n := |home|;
    assert StagingDir(home)[n] == ".migration_staging" && BackupDir(home)[n] == "database";
  }

  // ---------------------------------------------------------------- candidates

  /** The directory may hold a legacy database. */
  predicate IsPlace(root: Dir, d: Dir) { d == root || d == root + ["data"] || d == root + ["database"] }

  lemma DataIsNotTarget(root: Dir, home: Dir)
    ensures root + ["data"] != DbDir(home)
  {
    if |root| == |home| {
      assert (root + ["data"])[|home|] == "data" && DbDir(home)[|home|] == "database";
    }
  }

  /** Where a legacy root is searched; the target itself is skipped. */
  function PlacesIn(root: Dir, home: Dir): (r: seq<Dir>)
    ensures forall d :: d in r <==> root != DbDir(home) && IsPlace(root, d) && d != DbDir(home)
  {
    if root == DbDir(home) then []
    else
      DataIsNotTarget(root, home);
      [root, root + ["data"]] + if root + ["database"] == DbDir(home) then [] else [root + ["database"]]
  }

  /** Every directory that is searched, as often as it is. */
  function Visited(roots: seq<Dir>, home: Dir): (r: seq<Dir>)
    ensures forall d :: d in r <==> exists root :: root in roots && d in PlacesIn(root, home)
  {
    if roots == [] then []
    else
      var n := |roots| - 1;
      assert roots == roots[..n] + [roots[n]];
      Visited(roots[..n], home) + PlacesIn(roots[n], home)
  }

  /** The files of the database in `d` among these suffixes. */
  function Existing(files: Files, d: Dir, xs: seq<Suffix>): seq<Path> {
    if xs == [] then []
    else
      var n := |xs| - 1;
      Existing(files, d, xs[..n]) + if At(d, xs[n]) in files then [At(d, xs[n])] else []
  }

  /** A database with its sidecars, if there is one. */
  function Listing(files: Files, d: Dir): seq<Path> {
    if At(d, Main) in files then Existing(files, d, BY_AGE) else []
  }

  function Listings(files: Files, ds: seq<Dir>): seq<Path> {
    if ds == [] then [] else Listings(files, ds[..|ds| - 1]) + Listing(files, ds[|ds| - 1])
  }

  /** What the search finds. */
  function Candidates(files: Files, roots: seq<Dir>, home: Dir): seq<Path> { Listings(files, Visited(roots, home)) }

  /** The only root is the target, or holds it: nothing is to be done. */
  predicate AlreadyThere(files: Files, roots: seq<Dir>, home: Dir) {
    && |roots| == 1 && At(DbDir(home), Main) in files
    && (roots[0] == DbDir(home) || roots[0] + ["database"] == DbDir(home))
  }

  /** `_collect_db_sidecars` behind an existing database file. */
  method CollectAt(disk: Disk, d: Dir, candidates: seq<Path>) returns (more: seq<Path>)
    ensures more == candidates + Listing(disk.files, d)
  {
    more := candidates;
    if At(d, Main) in disk.files {
      for i := 0 to |BY_AGE|
        invariant more == candidates + Existing(disk.files, d, BY_AGE[..i])
      {
        assert BY_AGE[..i + 1][..i] == BY_AGE[..i];
        if At(d, BY_AGE[i]) in disk.files { more := more + [At(d, BY_AGE[i])]; }
      }
      assert BY_AGE[..|BY_AGE|] == BY_AGE;
    }
  }

  lemma ListingsMore(files: Files, ds: seq<Dir>, d: Dir)
    ensures Listings(files, ds + [d]) == Listings(files, ds) + Listing(files, d)
  {
    assert (ds + [d])[..|ds|] == ds;
  }

  /** One legacy root, in the order of the original. */
  method CollectRoot(disk: Disk, root: Dir, home: Dir, only: bool, ghost ds: seq<Dir>, candidates: seq<Path>)
      returns (atTarget: bool, more: seq<Path>)
    requires candidates == Listings(disk.files, ds)
    ensures atTarget <==> only && At(DbDir(home), Main) in disk.files && (root == DbDir(home) || root + ["database"] == DbDir(home))
    ensures !atTarget ==> more == Listings(disk.files, ds + PlacesIn(root, home))
  {
    var target := DbDir(home);
    more := candidates;
    if root == target {
      assert ds + [] == ds;
      return At(target, Main) in disk.files && only, more;
    }
    more := CollectAt(disk, root, more);
    ListingsMore(disk.files, ds, root);
    more := CollectAt(disk, root + ["data"], more);
    ListingsMore(disk.files, ds + [root], root + ["data"]);
    assert ds + [root] + [root + ["data"]] == ds + [root, root + ["data"]];
    if root + ["database"] == target {
      assert PlacesIn(root, home) == [root, root + ["data"]];
      return At(target, Main) in disk.files && only, more;
    }
    more := CollectAt(disk, root + ["database"], more);
    ListingsMore(disk.files, ds + [root, root + ["data"]], root + ["database"]);
    assert ds + [root, root + ["data"]] + [root + ["database"]] == ds + PlacesIn(root, home);
    return false, more;
  }

  /** All legacy roots, in order; a root that is the target itself ends the search when it is the only one. */
  method CollectCandidates(disk: Disk, roots: seq<Dir>, home: Dir) returns (atTarget: bool, candidates: seq<Path>)
    ensures atTarget <==> AlreadyThere(disk.files, roots, home)
    ensures !atTarget ==> candidates == Candidates(disk.files, roots, home)
  {
    candidates := [];
    for i := 0 to |roots|
      invariant candidates == Listings(disk.files, Visited(roots[..i], home))
      invariant i > 0 ==> !AlreadyThere(disk.files, roots, home)
    {
      assert roots[..i + 1][..i] == roots[..i];
      atTarget, candidates := CollectRoot(disk, roots[i], home, |roots| == 1, Visited(roots[..i], home), candidates);
      if atTarget { return; }
    }
    assert roots[..|roots|] == roots;
    atTarget := false;
  }

  // ---------------------------------------------------------------- what the search finds, and how often

  /** What the search may return. */
  ghost predicate Found(files: Files, home: Dir, cs: seq<Path>) {
    forall c :: c in cs ==> c in files && c.name.Db? && Base(c) in files && c.dir != DbDir(home)
  }

  lemma {:induction false} ExistingIs(files: Files, d: Dir, xs: seq<Suffix>, p: Path)
    ensures p in Existing(files, d, xs) <==> p.dir == d && p.name.Db? && p.name.suffix in xs && p in files
  {
    if xs != [] {
      var n := |xs| - 1;
      assert xs == xs[..n] + [xs[n]];
      ExistingIs(files, d, xs[..n], p);
    }
  }

  lemma {:induction false} ListingsAre(files: Files, ds: seq<Dir>, p: Path)
    ensures p in Listings(files, ds) <==> p.dir in ds && p.name.Db? && p in files && Base(p) in files
  {
    if ds != [] {
      var n := |ds| - 1;
      assert ds == ds[..n] + [ds[n]];
      ListingsAre(files, ds[..n], p);
      ExistingIs(files, ds[n], BY_AGE, p);
      if p.name.Db? { AllListed(p.name.suffix); }
    }
  }

  /** The candidates are exactly the databases, with their sidecars, in the searched directories. */
  lemma CandidatesAreFound(files: Files, roots: seq<Dir>, home: Dir)
    ensures Found(files, home, Candidates(files, roots, home))
    ensures forall p :: p in Candidates(files, roots, home) <==>
      p.dir in Visited(roots, home) && p.name.Db? && p in files && Base(p) in files
  {
    forall p ensures p in Candidates(files, roots, home) <==>
      p.dir in Visited(roots, home) && p.name.Db? && p in files && Base(p) in files
    {
      ListingsAre(files, Visited(roots, home), p);
    }
  }

  /** How often a directory is searched. */
  function Visits(ds: seq<Dir>, d: Dir): nat {
    if ds == [] then 0 else Visits(ds[..|ds| - 1], d) + if ds[|ds| - 1] == d then 1 else 0
  }

  lemma {:induction false} ExistingOnce(files: Files, d: Dir, xs: seq<Suffix>, p: Path)
    requires Distinct(xs)
    ensures multiset(Existing(files, d, xs))[p] == if p in Existing(files, d, xs) then 1 else 0
  {
    if xs != [] {
      var n := |xs| - 1;
      ExistingOnce(files, d, xs[..n], p);
      ExistingIs(files, d, xs[..n], p);
      assert xs[n] !in xs[..n];
    }
  }

  lemma ListingOnce(x: Suffix, files: Files, d: Dir, e: Dir)
    requires At(e, Main) in files && At(e, x) in files
    ensures multiset(Listing(files, d))[At(e, x)] == if d == e then 1 else 0
  {
    ExistingOnce(files, d, BY_AGE, At(e, x));
    ExistingIs(files, d, BY_AGE, At(e, x));
    AllListed(x);
  }

  /** A file of a database is listed once for every visit to its directory. */
  lemma {:induction false} ListedPerVisit(files: Files, ds: seq<Dir>, d: Dir, x: Suffix)
    requires At(d, Main) in files && At(d, x) in files
    ensures multiset(Listings(files, ds))[At(d, x)] == Visits(ds, d)
  {
    if ds != [] {
      var n := |ds| - 1;
      ListedPerVisit(files, ds[..n], d, x);
      ListingOnce(x, files, ds[n], d);
    }
  }

  // ---------------------------------------------------------------- the most recent database

  predicate Counts(files: Files, c: Path) { c in files && Base(c) in files }

  /** The candidates of one database, in order. */
  function GroupOf(files: Files, cs: seq<Path>, b: Path): (r: seq<Path>)
    ensures forall c :: c in r <==> c in cs && Counts(files, c) && Base(c) == b
  {
    if cs == [] then [] else
    var last := cs[|cs| - 1];
    GroupOf(files, cs[..|cs| - 1], b) + if Counts(files, last) && Base(last) == b then [last] else []
  }

  /** The databases in the order in which they first appear. */
  function Bases(files: Files, cs: seq<Path>): (r: seq<Path>)
    ensures forall b :: b in r <==> GroupOf(files, cs, b) != []
  {
    if cs == [] then [] else
    var last := cs[|cs| - 1];
    var before := Bases(files, cs[..|cs| - 1]);
    if Counts(files, last) && Base(last) !in before then before + [Base(last)] else before
  }

  function Newest(ps: seq<Path>, mtime: Path -> int): (r: int)
    requires ps != []
    ensures forall p :: p in ps ==> mtime(p) <= r
    ensures exists p :: p in ps && mtime(p) == r
  {
    if |ps| == 1 then mtime(ps[0])
    else
      var rest := Newest(ps[1..], mtime);
      assert ps == [ps[0]] + ps[1..];
      if mtime(ps[0]) > rest then mtime(ps[0]) else rest
  }

  /** When the group of `b` was last written. */
  function Time(files: Files, cs: seq<Path>, mtime: Path -> int, b: Path): int {
    var group := GroupOf(files, cs, b);
    if group == [] then 0 else Newest(group, mtime)
  }

  /** The place of the maximum that `max` returns: of several the first. */
  ghost predicate IsFirstMaximum(times: seq<int>, i: nat) {
    && i < |times|
    && (forall j :: 0 <= j < i ==> times[j] < times[i])
    && (forall j :: i < j < |times| ==> times[j] <= times[i])
  }

  method FirstMaximum(times: seq<int>) returns (at: nat)
    requires times != []
    ensures IsFirstMaximum(times, at)
  {
    at := 0;
    for i := 1 to |times|
      invariant IsFirstMaximum(times[..i], at)
    {
      if times[i] > times[at] { at := i; }
    }
    assert times[..|times|] == times;
  }

  function Times(files: Files, cs: seq<Path>, mtime: Path -> int): seq<int> {
    var bs := Bases(files, cs);
    seq(|bs|, i requires 0 <= i < |bs| => Time(files, cs, mtime, bs[i]))
  }

  /** `b` is the first of the most recently written databases. */
  ghost predicate IsMostRecent(files: Files, cs: seq<Path>, mtime: Path -> int, b: Path) {
    exists i: nat :: IsFirstMaximum(Times(files, cs, mtime), i) && Bases(files, cs)[i] == b
  }

  /** `_get_most_recent_database` */
  method MostRecent(disk: Disk, candidates: seq<Path>, mtime: Path -> int) returns (best: Option<Path>)
    ensures best.None? <==> Bases(disk.files, candidates) == []
    ensures best.Some? ==> IsMostRecent(disk.files, candidates, mtime, best.value)
  {
    var groups, order := GroupByBase(disk, candidates);
    if order == [] {
      return None;
    }
    forall i | 0 <= i < |order| ensures order[i] in groups { assert order[i] in order; }
    var times := seq(|order|, i requires 0 <= i < |order| && order[i] in groups && groups[order[i]] != [] =>
      Newest(groups[order[i]], mtime));
    assert times == Times(disk.files, candidates, mtime);
    var at := FirstMaximum(times);
    return Some(order[at]);
  }

  /** The dictionary of groups, with its insertion order. */
  method GroupByBase(disk: Disk, candidates: seq<Path>) returns (groups: map<Path, seq<Path>>, order: seq<Path>)
    ensures order == Bases(disk.files, candidates) && forall b :: b in groups <==> b in order
    ensures forall b :: b in groups ==> groups[b] == GroupOf(disk.files, candidates, b) != []
  {
    groups, order := map[], [];
    for i := 0 to |candidates|
      invariant order == Bases(disk.files, candidates[..i]) && forall b :: b in groups <==> b in order
      invariant forall b :: b in groups ==> groups[b] == GroupOf(disk.files, candidates[..i], b) != []
    {
      var c := candidates[i];
      assert candidates[..i + 1][..i] == candidates[..i];
      if c in disk.files && Base(c) in disk.files {
        if Base(c) !in groups {
          groups := groups[Base(c) := []];
          order := order + [Base(c)];
          assert GroupOf(disk.files, candidates[..i], Base(c)) == [];
        }
        groups := groups[Base(c) := groups[Base(c)] + [c]];
      }
    }
    assert candidates[..|candidates|] == candidates;
  }

  lemma TimeIsReached(files: Files, cs: seq<Path>, mtime: Path -> int, b: Path) returns (p: Path)
    requires b in Bases(files, cs)
    ensures p in cs && Counts(files, p) && Base(p) == b && mtime(p) == Time(files, cs, mtime, b)
  {
    var group := GroupOf(files, cs, b);
    var latest := Newest(group, mtime);
    p :| p in group && mtime(p) == latest;
  }

  lemma TimeIsBound(files: Files, cs: seq<Path>, mtime: Path -> int, c: Path)
    requires c in cs && Counts(files, c)
    ensures Base(c) in Bases(files, cs) && mtime(c) <= Time(files, cs, mtime, Base(c))
  {
    assert c in GroupOf(files, cs, Base(c));
  }

  /** No candidate with a main file is newer than the newest file of the chosen group. */
  lemma MostRecentIsNewest(files: Files, cs: seq<Path>, mtime: Path -> int, b: Path) returns (p: Path)
    requires IsMostRecent(files, cs, mtime, b)
    ensures p in cs && Counts(files, p) && Base(p) == b
    ensures forall c :: c in cs && Counts(files, c) ==> mtime(c) <= mtime(p)
  {
    var bs := Bases(files, cs);
    var i: nat :| IsFirstMaximum(Times(files, cs, mtime), i) && bs[i] == b;
    assert bs[i] in bs;
    p := TimeIsReached(files, cs, mtime, b);
    forall c | c in cs && Counts(files, c) ensures mtime(c) <= mtime(p) {
      TimeIsBound(files, cs, mtime, c);
      NoneIsLater(files, cs, mtime, i, Base(c));
    }
  }

  lemma NoneIsLater(files: Files, cs: seq<Path>, mtime: Path -> int, i: nat, b: Path)
    requires IsFirstMaximum(Times(files, cs, mtime), i) && b in Bases(files, cs)
    ensures Time(files, cs, mtime, b) <= Time(files, cs, mtime, Bases(files, cs)[i])
  {
    var bs := Bases(files, cs);
    var j :| 0 <= j < |bs| && bs[j] == b;
    MaximumBounds(Times(files, cs, mtime), i, j);
  }

  lemma MaximumBounds(times: seq<int>, i: nat, j: nat)
    requires IsFirstMaximum(times, i) && j < |times|
    ensures times[j] <= times[i]
  {
  }

  // ---------------------------------------------------------------- the migration

  /** Nothing is listed twice when every suffix occurs at most once. */
  lemma DistinctByCount(group: seq<Suffix>)
    ensures Distinct(group) <==> forall x :: multiset(group)[x] <= 1
  {
    if !Distinct(group) {
      var i, j :| 0 <= i < j < |group| && group[i] == group[j];
      assert group == group[..j] + [group[j]] + group[j + 1..];
      assert group[i] in multiset(group[..j]);
      assert multiset(group)[group[j]] >= 2;
    } else {
      DistinctCounts(group);
    }
  }

  lemma {:induction false} DistinctCounts(group: seq<Suffix>)
    requires Distinct(group)
    ensures forall x :: multiset(group)[x] <= 1
  {
    if group != [] {
      var n := |group| - 1;
      assert group == group[..n] + [group[n]];
      DistinctCounts(group[..n]);
      assert group[n] !in group[..n];
    }
  }

  /** The suffixes of the candidates that belong to `best`, in their order. */
  method CandidatesOf(candidates: seq<Path>, best: Path) returns (group: seq<Suffix>)
    requires best == At(best.dir, Main) && forall c :: c in candidates ==> c.name.Db?
    ensures forall x :: multiset(group)[x] == multiset(candidates)[At(best.dir, x)]
  {
    group := [];
    for i := 0 to |candidates|
      invariant forall x :: multiset(group)[x] == multiset(candidates[..i])[At(best.dir, x)]
    {
      var c := candidates[i];
      assert c in candidates && candidates[..i + 1] == candidates[..i] + [c];
      if Base(c) == best {
        assert c == At(best.dir, c.name.suffix);
        group := group + [c.name.suffix];
      }
    }
    assert candidates[..|candidates|] == candidates;
  }

  lemma AppendKeepsDistinct(group: seq<Suffix>, x: Suffix)
    requires x !in group
    ensures Distinct(group + [x]) <==> Distinct(group)
    ensures Distinct([x] + group) <==> Distinct(group)
  {
    if Distinct(group + [x]) {
      assert forall i :: 0 <= i < |group| ==> (group + [x])[i] == group[i];
    }
    if Distinct([x] + group) {
      assert forall i :: 0 <= i < |group| ==> ([x] + group)[i + 1] == group[i];
    }
  }

  /** Files of the chosen database that are not among the candidates. */
  method AddMissing(disk: Disk, best: Path, found: seq<Suffix>) returns (group: seq<Suffix>)
    requires best == At(best.dir, Main) && best in disk.files
    requires forall x :: x in found ==> At(best.dir, x) in disk.files
    ensures forall x :: x in group <==> At(best.dir, x) in disk.files
    ensures Distinct(group) <==> Distinct(found)
  {
    group := found;
    if Main !in group {
      AppendKeepsDistinct(group, Main);
      group := [Main] + group;
    }
    for i := 1 to |BY_AGE|
      invariant Main in group && (Distinct(group) <==> Distinct(found))
      invariant forall x :: x in group ==> At(best.dir, x) in disk.files
      invariant forall j :: 1 <= j < i && At(best.dir, BY_AGE[j]) in disk.files ==> BY_AGE[j] in group
    {
      if At(best.dir, BY_AGE[i]) in disk.files && BY_AGE[i] !in group {
        AppendKeepsDistinct(group, BY_AGE[i]);
        group := group + [BY_AGE[i]];
      }
    }
    assert BY_AGE[0] == Main;
    forall x | At(best.dir, x) in disk.files ensures x in group { AllListed(x); }
  }

  /** All files of the chosen database: the candidates in their order, missing ones behind. */
  method SelectGroup(disk: Disk, candidates: seq<Path>, best: Path) returns (group: seq<Suffix>)
    requires forall c :: c in candidates ==> c in disk.files && c.name.Db?
    requires best == At(best.dir, Main) && best in disk.files
    ensures forall x :: x in group <==> At(best.dir, x) in disk.files
    ensures Distinct(group) <==> forall x :: multiset(candidates)[At(best.dir, x)] <= 1
  {
    var found := CandidatesOf(candidates, best);
    forall x | x in found ensures At(best.dir, x) in disk.files {
      assert x in multiset(found) && At(best.dir, x) in multiset(candidates);
    }
    DistinctByCount(found);
    group := AddMissing(disk, best, found);
  }

  datatype Action = AlreadyAtTarget | AlreadyMigrated | NotFound | SkipForceRequired | DryRun | Moved | Raised

  datatype Report = Report(action: Action, src: Dir, backups: seq<Restore>, migrated: set<Suffix>)

  /** No legacy root is the staging area, and the staging area holds no folders. */
  ghost predicate StagingApart(files: Files, roots: seq<Dir>, home: Dir) {
    && StagingDir(home) !in Visited(roots, home)
    && (forall x :: At(StagingDir(home), x) in files ==> files[At(StagingDir(home), x)].File?)
  }

  ghost predicate FreshStamp(files: Files, home: Dir, stamp: string) {
    forall x :: Path(BackupDir(home), Stamped(Db(x), stamp)) !in files
  }

  /** The chosen database is complete in the group, and the newest of all that were found. */
  ghost predicate WellChosen(files: Files, cs: seq<Path>, mtime: Path -> int, src: Dir, group: seq<Suffix>) {
    && IsMostRecent(files, cs, mtime, At(src, Main))
    && Main in group && forall x :: x in group <==> At(src, x) in files
  }

  lemma BestIsFound(files: Files, roots: seq<Dir>, home: Dir, mtime: Path -> int, b: Path)
    requires StagingApart(files, roots, home) && IsMostRecent(files, Candidates(files, roots, home), mtime, b)
    ensures b in files && b == At(b.dir, Main) && b.dir != DbDir(home) && b.dir != StagingDir(home)
  {
    CandidatesAreFound(files, roots, home);
    var p := MostRecentIsNewest(files, Candidates(files, roots, home), mtime, b);
  }

  lemma SomethingFound(files: Files, home: Dir, cs: seq<Path>)
    requires Found(files, home, cs) && cs != []
    ensures Bases(files, cs) != []
  {
    var c := cs[0];
    assert c in cs && c in GroupOf(files, cs, Base(c));
    assert Base(c) in Bases(files, cs);
  }

  /** The files of a database are listed at most once if and only if its directory is searched at most once. */
  lemma ListedOnceExactly(files: Files, roots: seq<Dir>, home: Dir, d: Dir)
    requires At(d, Main) in files
    ensures (forall x :: multiset(Candidates(files, roots, home))[At(d, x)] <= 1) <==> Visits(Visited(roots, home), d) <= 1
  {
    var cs, ds := Candidates(files, roots, home), Visited(roots, home);
    ListedPerVisit(files, ds, d, Main);
    forall x ensures multiset(cs)[At(d, x)] <= 1 || multiset(cs)[At(d, x)] == Visits(ds, d) {
      if At(d, x) in files {
        ListedPerVisit(files, ds, d, x);
      } else {
        ListingsAre(files, ds, At(d, x));
        assert At(d, x) !in multiset(cs);
      }
    }
  }

  /** There is a legacy database to move, and leave to do it. */
  ghost predicate Due(files: Files, roots: seq<Dir>, home: Dir, dryRun: bool, force: bool) {
    && !AlreadyThere(files, roots, home) && Candidates(files, roots, home) != []
    && (force || At(DbDir(home), Main) !in files) && !dryRun
  }

  /** What the chosen database needs: one way that leads to it, plain files, no folder in their place. */
  ghost predicate CanMove(files: Files, roots: seq<Dir>, home: Dir, src: Dir, group: seq<Suffix>, sound: bool) {
    && sound && Visits(Visited(roots, home), src) <= 1
    && AllFiles(files, src, group) && NoFolders(files, DbDir(home), group)
  }

  /**
   `migrate_database`. Without `force` an existing database is never touched; nothing is
   touched in a dry run; and a migration, finished or not, keeps every byte of the
   selected group and of the destination. Unless an operation fails for no reason, the
   newest database is moved if and only if it is sound, exactly one visit leads to it, and
   no folder is in the way; a database that two roots lead to is never moved at all.
   */
  method MigrateDatabase(disk: Disk, roots: seq<Dir>, home: Dir, dryRun: bool, force: bool, mtime: Path -> int, stamp: string, sound: bool)
      returns (r: Report, ghost group: seq<Suffix>)
    requires StagingApart(disk.files, roots, home) && FreshStamp(disk.files, home, stamp)
    modifies disk
    ensures r.action.Moved? || r.action.Raised? <==> Due(old(disk.files), roots, home, dryRun, force)
    ensures !r.action.Moved? && !r.action.Raised? ==> disk.files == old(disk.files)
    ensures r.action.AlreadyAtTarget? <==> AlreadyThere(old(disk.files), roots, home)
    ensures r.action.NotFound? || r.action.AlreadyMigrated? <==>
      !AlreadyThere(old(disk.files), roots, home) && Candidates(old(disk.files), roots, home) == []
    ensures r.action.NotFound? ==> At(DbDir(home), Main) !in old(disk.files)
    ensures r.action.AlreadyMigrated? ==> At(DbDir(home), Main) in old(disk.files)
    ensures r.action.SkipForceRequired? <==>
      && !AlreadyThere(old(disk.files), roots, home) && Candidates(old(disk.files), roots, home) != []
      && At(DbDir(home), Main) in old(disk.files) && !force
    ensures r.action.DryRun? <==>
      && !AlreadyThere(old(disk.files), roots, home) && Candidates(old(disk.files), roots, home) != []
      && (force || At(DbDir(home), Main) !in old(disk.files)) && dryRun
    ensures disk.faults >= old(disk.faults)
    ensures r.action.Moved? || r.action.Raised? ==>
      && WellChosen(old(disk.files), Candidates(old(disk.files), roots, home), mtime, r.src, group)
      && Apart(PlacesOf(r.src, home, stamp))
      && SameBut(old(disk.files), disk.files, Touched(PlacesOf(r.src, home, stamp)))
      && SourcesKept(old(disk.files), disk.files, PlacesOf(r.src, home, stamp), group)
      && TargetsKept(old(disk.files), disk.files, PlacesOf(r.src, home, stamp))
    ensures r.action.Moved? ==>
      && Installed(old(disk.files), disk.files, PlacesOf(r.src, home, stamp), group)
      && BackedUp(old(disk.files), disk.files, PlacesOf(r.src, home, stamp))
      && Lists(old(disk.files), PlacesOf(r.src, home, stamp), r.backups)
      && (forall x :: x in r.migrated <==> x in group)
    ensures r.action.Moved? ==> CanMove(old(disk.files), roots, home, r.src, group, sound)
    ensures r.action.Raised? && disk.faults == old(disk.faults) ==> !CanMove(old(disk.files), roots, home, r.src, group, sound)
  {
    group := [];
    var target := At(DbDir(home), Main);
    var atTarget, candidates := CollectCandidates(disk, roots, home);
    if atTarget {
      return Report(AlreadyAtTarget, [], [], {}), group;
    }
    if candidates == [] {
      return Report(if target in disk.files then AlreadyMigrated else NotFound, [], [], {}), group;
    }
    if target in disk.files && !force {
      return Report(SkipForceRequired, [], [], {}), group;
    }
    if dryRun {
      return Report(DryRun, [], [], {}), group;
    }
    CandidatesAreFound(disk.files, roots, home);
    SomethingFound(disk.files, home, candidates);
    var best := MostRecent(disk, candidates, mtime);
    BestIsFound(disk.files, roots, home, mtime, best.value);
    r, group := MoveChosen(disk, roots, home, candidates, best.value, stamp, sound);
  }

  /** The chosen database is moved with all its files. */
  method MoveChosen(disk: Disk, ghost roots: seq<Dir>, home: Dir, candidates: seq<Path>, best: Path, stamp: string, sound: bool)
      returns (r: Report, ghost group: seq<Suffix>)
    requires candidates == Candidates(disk.files, roots, home) && Found(disk.files, home, candidates)
    requires best in disk.files && best == At(best.dir, Main) && best.dir != DbDir(home) && best.dir != StagingDir(home)
    requires StagingApart(disk.files, roots, home) && FreshStamp(disk.files, home, stamp)
    modifies disk
    ensures r.src == best.dir && (r.action.Moved? || r.action.Raised?) && Apart(PlacesOf(best.dir, home, stamp))
    ensures Main in group && forall x :: x in group <==> At(best.dir, x) in old(disk.files)
    ensures SameBut(old(disk.files), disk.files, Touched(PlacesOf(best.dir, home, stamp)))
    ensures disk.faults >= old(disk.faults)
    ensures SourcesKept(old(disk.files), disk.files, PlacesOf(best.dir, home, stamp), group)
    ensures TargetsKept(old(disk.files), disk.files, PlacesOf(best.dir, home, stamp))
    ensures r.action.Moved? ==>
      && Installed(old(disk.files), disk.files, PlacesOf(best.dir, home, stamp), group)
      && BackedUp(old(disk.files), disk.files, PlacesOf(best.dir, home, stamp))
      && Lists(old(disk.files), PlacesOf(best.dir, home, stamp), r.backups)
      && (forall x :: x in r.migrated <==> x in group)
    ensures r.action.Moved? ==> CanMove(old(disk.files), roots, home, best.dir, group, sound)
    ensures r.action.Raised? && disk.faults == old(disk.faults) ==> !CanMove(old(disk.files), roots, home, best.dir, group, sound)
  {
    var selected := SelectGroup(disk, candidates, best);
    group := selected;
    ListedOnceExactly(disk.files, roots, home, best.dir);
    var pl := PlacesOf(best.dir, home, stamp);
    PlacesApart(pl.src, home, stamp);
    var ok, backups, migrated := MoveGroup(disk, pl, selected, sound);
    r := Report(if ok then Moved else Raised, pl.src, backups, migrated);
  }

  // ---------------------------------------------------------------- two roots, one database

  lemma VisitsConcat(a: seq<Dir>, b: seq<Dir>, d: Dir)
    ensures Visits(a + b, d) == Visits(a, d) + Visits(b, d)
  {
    if b == [] {
      assert a + b == a;
    } else {
      var n := |b| - 1;
      assert (a + b)[..|a + b| - 1] == a + b[..n];
      VisitsConcat(a, b[..n], d);
    }
  }

  lemma VisitsInRoot(root: Dir, home: Dir, d: Dir)
    requires root != DbDir(home) && (d == root || d == root + ["data"])
    ensures Visits(PlacesIn(root, home), d) == 1
  {
    assert |root| != |root + ["data"]| && (root + ["data"])[|root|] != (root + ["database"])[|root|];
    VisitsConcat([root, root + ["data"]], if root + ["database"] == DbDir(home) then [] else [root + ["database"]], d);
    assert [root, root + ["data"]][..1] == [root];
    assert Visits([root, root + ["data"]], d) == 1;
  }

  /** A root and its own `data` directory, as two environment variables can name them, lead there twice. */
  lemma NestedRootsVisitTwice(base: Dir, home: Dir)
    requires base != DbDir(home)
    ensures Visits(Visited([base, base + ["data"]], home), base + ["data"]) == 2
  {
    var inner := base + ["data"];
    var roots := [base, inner];
    DataIsNotTarget(base, home);
    VisitsInRoot(base, home, inner);
    VisitsInRoot(inner, home, inner);
    assert roots[..1] == [base] && [base][..0] == [];
    assert Visited([base], home) == [] + PlacesIn(base, home) == PlacesIn(base, home);
    VisitsConcat(PlacesIn(base, home), PlacesIn(inner, home), inner);
  }

  /** So the only legacy database, in that directory, cannot be moved however sound it is. */
  method NestedRootsFail(disk: Disk, base: Dir, home: Dir, mtime: Path -> int, stamp: string) returns (r: Report)
    requires base != DbDir(home) && disk.files == map[At(base + ["data"], Main) := File([])]
    requires StagingDir(home) !in Visited([base, base + ["data"]], home)
    modifies disk
    ensures r.action.Raised?
    ensures Has(disk.files, At(base + ["data"], Main), File([])) || Has(disk.files, At(DbDir(home), Main), File([]))
  {
    var inner := base + ["data"];
    DataIsNotTarget(base, home);
    NestedRootsVisitTwice(base, home);
    CandidatesAreFound(disk.files, [base, inner], home);
    assert inner in PlacesIn(base, home) && inner in Visited([base, inner], home);
    assert At(inner, Main) in Candidates(disk.files, [base, inner], home);
    ghost var before, group := disk.files, [];
    r, group := MigrateDatabase(disk, [base, inner], home, false, false, mtime, stamp, true);
    assert At(r.src, Main) in before;
  }
}
