/**
 A file system as a mutable map from paths to contents, with operations that may fail at
 any call and may leave rubbish where they were writing.

 A path that holds a folder holds the whole tree as one content; the paths the callers use
 never lie inside one another.
 */
module FileSystem {
  import opened Common

  /** Suffixes of the files SQLite keeps beside a database. */
  datatype Suffix = Main | Wal | Shm | Journal

  /** `Db` is `meshtastic.sqlite` with a suffix, `Stamped` a backup name made from another name. */
  datatype FileName = Db(suffix: Suffix) | Stamped(name: FileName, stamp: string) | Named(text: string)

  type Dir = seq<string>

  datatype Path = Path(dir: Dir, name: FileName)

  datatype Content = File(bytes: seq<nat>) | Folder(entries: map<FileName, Content>)

  type Files = map<Path, Content>

  const DATABASE_FILENAME := "meshtastic.sqlite"

  function SuffixText(x: Suffix): string {
    match x
    case Main => ""
    case Wal => "-wal"
    case Shm => "-shm"
    case Journal => "-journal"
  }

  /** The name as the original writes it. */
  function Text(n: FileName): string {
    match n
    case Db(x) => DATABASE_FILENAME + SuffixText(x)
    case Stamped(m, stamp) => Text(m) + ".bak." + stamp
    case Named(text) => text
  }

  /** The files of one database: structured names and the strings they stand for tell the same files apart. */
  predicate IsDatabaseOrBackup(n: FileName) { n.Db? || (n.Stamped? && n.name.Db?) }

  /** Character `i` of a database name, or of a backup of one. */
  function Tail(n: FileName): string
    requires IsDatabaseOrBackup(n)
  {
    if n.Db? then SuffixText(n.suffix) else SuffixText(n.name.suffix) + ".bak." + n.stamp
  }

  lemma TextIsStemAndTail(n: FileName)
    requires IsDatabaseOrBackup(n)
    ensures Text(n) == DATABASE_FILENAME + Tail(n)
  {
    if n.Stamped? {
      assert Text(n) == (DATABASE_FILENAME + SuffixText(n.name.suffix)) + ".bak." + n.stamp;
    }
  }

  function SuffixOf(n: FileName): Suffix
    requires IsDatabaseOrBackup(n)
  {
    if n.Db? then n.suffix else n.name.suffix
  }

  /** Where the tail of a backup name goes on after the suffix. */
  lemma TailParts(n: FileName)
    requires IsDatabaseOrBackup(n)
    ensures var x := |SuffixText(SuffixOf(n))|;
      |Tail(n)| >= x && Tail(n)[..x] == SuffixText(SuffixOf(n)) && Tail(n)[x..] == if n.Db? then "" else ".bak." + n.stamp
  {
    var x := SuffixText(SuffixOf(n));
    if n.Stamped? { assert Tail(n) == x + (".bak." + n.stamp); }
  }

  /** The second and third characters tell which suffix it is, if any. */
  lemma TailHead(n: FileName)
    requires IsDatabaseOrBackup(n)
    ensures SuffixOf(n).Main? ==> Tail(n) == "" || Tail(n)[0] == '.'
    ensures SuffixOf(n).Wal? ==> |Tail(n)| > 1 && Tail(n)[0] == '-' && Tail(n)[1] == 'w'
    ensures SuffixOf(n).Shm? ==> |Tail(n)| > 1 && Tail(n)[0] == '-' && Tail(n)[1] == 's'
    ensures SuffixOf(n).Journal? ==> |Tail(n)| > 1 && Tail(n)[0] == '-' && Tail(n)[1] == 'j'
  {
  }

  lemma TailTellsSuffix(n: FileName, m: FileName)
    requires IsDatabaseOrBackup(n) && IsDatabaseOrBackup(m) && Tail(n) == Tail(m)
    ensures SuffixOf(n) == SuffixOf(m)
  {
    TailHead(n);
    TailHead(m);
  }

  lemma StampedTail(n: FileName, m: FileName)
    requires IsDatabaseOrBackup(n) && IsDatabaseOrBackup(m) && Tail(n) == Tail(m) && SuffixOf(n) == SuffixOf(m)
    ensures n == m
  {
    TailParts(n);
    TailParts(m);
    if n.Stamped? && m.Stamped? {
      assert (".bak." + n.stamp)[5..] == n.stamp && (".bak." + m.stamp)[5..] == m.stamp;
    }
  }

  lemma TextIsInjective(n: FileName, m: FileName)
    requires IsDatabaseOrBackup(n) && IsDatabaseOrBackup(m)
    ensures Text(n) == Text(m) ==> n == m
  {
    TextIsStemAndTail(n);
    TextIsStemAndTail(m);
    if Text(n) == Text(m) {
      assert Tail(n) == Text(n)[|DATABASE_FILENAME|..] == Text(m)[|DATABASE_FILENAME|..] == Tail(m);
      TailTellsSuffix(n, m);
      StampedTail(n, m);
    }
  }

  predicate EndsWith(s: string, end: string) { |s| >= |end| && s[|s| - |end|..] == end }

  /** `_get_db_base_path` on strings: the first suffix that fits is cut off. */
  function BaseText(s: string): string {
    if EndsWith(s, "-wal") then s[..|s| - 4]
    else if EndsWith(s, "-shm") then s[..|s| - 4]
    else if EndsWith(s, "-journal") then s[..|s| - 8]
    else s
  }

  /** `_get_db_base_path` */
  function Base(p: Path): Path { Path(p.dir, Db(Main)) }

  lemma BaseTextOfDatabase(x: Suffix)
    ensures BaseText(Text(Db(x))) == DATABASE_FILENAME
  {
    var s := Text(Db(x));
    assert s == DATABASE_FILENAME + SuffixText(x);
    match x
    case Main => assert s[|s| - 1] == 'e'; assert "-wal"[3] == 'l' && "-shm"[3] == 'm' && "-journal"[7] == 'l';
    case Wal => assert s[|s| - 4..] == "-wal";
    case Shm => assert s[|s| - 4..] == "-shm"; assert "-wal"[3] == 'l';
    case Journal => assert s[|s| - 8..] == "-journal"; assert s[|s| - 4] == 'r' && "-wal"[0] == '-' && "-shm"[0] == '-';
  }

  // ---------------------------------------------------------------- operations

  /** Nothing outside `touched` differs. */
  ghost predicate SameBut(before: Files, after: Files, touched: set<Path>) {
    forall p :: p !in touched ==> (p in after <==> p in before) && (p in before ==> after[p] == before[p])
  }

  ghost predicate SameAt(before: Files, after: Files, p: Path) {
    (p in after <==> p in before) && (p in before ==> after[p] == before[p])
  }

  ghost predicate Has(files: Files, p: Path, c: Content) { p in files && files[p] == c }

  /** What a copy to `dst` leaves there: into a folder, over anything else. */
  function Landing(files: Files, dst: Path, name: FileName, c: Content): Content {
    if dst in files && files[dst].Folder? then Folder(files[dst].entries[name := c]) else c
  }

  /** `faults` counts the operations that failed for no reason the files themselves give. */
  class Disk {
    var files: Files
    ghost var faults: nat

    /** Some other content, or none, at `p`: what an interrupted write leaves. */
    method Spoil(p: Path)
      modifies this`files
      ensures SameBut(old(files), files, {p})
    {
      var gone: bool, bytes: seq<nat> := *, *;
      files := if gone then files - {p} else files[p := File(bytes)];
    }

    /** `shutil.copy2` */
    method Copy(src: Path, dst: Path) returns (ok: bool)
      modifies this
      ensures SameBut(old(files), files, {dst}) && faults >= old(faults)
      ensures ok ==> src in old(files) && old(files)[src].File?
      ensures ok ==> Has(files, dst, Landing(old(files), dst, src.name, old(files)[src]))
      ensures !ok && faults == old(faults) ==> src !in old(files) || old(files)[src].Folder?
    {
      var fails: bool := *;
      if fails || src !in files || files[src].Folder? {
        if fails { faults := faults + 1; }
        Spoil(dst);
        return false;
      }
      files := files[dst := Landing(files, dst, src.name, files[src])];
      return true;
    }

    /** `shutil.copytree` */
    method CopyTree(src: Path, dst: Path) returns (ok: bool)
      modifies this
      ensures SameBut(old(files), files, {dst}) && faults >= old(faults)
      ensures ok ==> src in old(files) && old(files)[src].Folder? && dst !in old(files) && Has(files, dst, old(files)[src])
      ensures !ok && dst in old(files) ==> files == old(files)
      ensures !ok && faults == old(faults) ==> dst in old(files) || src !in old(files) || old(files)[src].File?
    {
      var fails: bool := *;
      if dst in files {
        return false;
      }
      if fails || src !in files || files[src].File? {
        if fails { faults := faults + 1; }
        Spoil(dst);
        return false;
      }
      files := files[dst := files[src]];
      return true;
    }

    /** `Path.unlink` */
    method Unlink(p: Path) returns (ok: bool)
      modifies this
      ensures faults >= old(faults)
      ensures ok ==> p in old(files) && old(files)[p].File? && files == old(files) - {p}
      ensures !ok ==> files == old(files)
      ensures !ok && faults == old(faults) ==> p !in old(files) || old(files)[p].Folder?
    {
      var fails: bool := *;
      if fails || p !in files || files[p].Folder? {
        if fails { faults := faults + 1; }
        return false;
      }
      files := files - {p};
      return true;
    }

    /** `shutil.rmtree`; a failure leaves part of the tree. */
    method RemoveTree(p: Path) returns (ok: bool)
      modifies this
      ensures SameBut(old(files), files, {p}) && faults >= old(faults)
      ensures ok ==> p in old(files) && p !in files
      ensures !ok && faults == old(faults) ==> p !in old(files) || old(files)[p].File?
    {
      var fails: bool := *;
      if fails || p !in files || files[p].File? {
        if fails { faults := faults + 1; }
        Spoil(p);
        return false;
      }
      files := files - {p};
      return true;
    }

    /** `shutil.move`: a rename, or a copy followed by a removal. A failed move keeps the content at one end. */
    method Move(src: Path, dst: Path) returns (ok: bool)
      requires src != dst
      modifies this
      ensures SameBut(old(files), files, {src, dst}) && faults >= old(faults)
      ensures ok ==> src in old(files) && src !in files
      ensures ok ==> Has(files, dst, Landing(old(files), dst, src.name, old(files)[src]))
      ensures !ok && src in old(files) ==>
        Has(files, src, old(files)[src]) || Has(files, dst, Landing(old(files), dst, src.name, old(files)[src]))
      ensures !ok && src in old(files) && old(files)[src].File? ==> Has(files, src, old(files)[src])
      ensures !ok && faults == old(faults) ==> src !in old(files)
    {
      var fails: bool, copied: bool := *, *;
      if src !in files {
        return false;
      }
      if fails {
        faults := faults + 1;
        if copied && files[src].Folder? {
          files := files[dst := Landing(files, dst, src.name, files[src])];
          Spoil(src);
        } else {
          Spoil(dst);
        }
        return false;
      }
      files := files[dst := Landing(files, dst, src.name, files[src])] - {src};
      return true;
    }
  }
}
