/** A confined directory tree on disk, addressed by relative paths. */
module Workspaces {
  import opened Wrappers
  import opened Paths

  type Path = seq<string>

  /** Whether a path (and whether it is a directory) is left out both ways. */
  type Ignorer = (Path, bool) -> bool

  const EG_DIR := ".eg"

  datatype DiskKind = IsFile | IsDir

  datatype DiskEntry = FileEntry(name: string) | DirEntry(name: string)

  function Parent(p: Path): Path
    requires p != []
  {
    p[..|p| - 1]
  }

  ghost predicate ValidPath(p: Path) {
    p != [] && AllValid(p)
  }

  /** The directories `p` lies in. */
  function Above(p: Path): set<Path> {
    set k | 0 < k < |p| :: p[..k]
  }

  /** Everything on disk lies in directories that are there; nothing is both. */
  ghost predicate GoodDisk(files: map<Path, seq<byte>>, dirs: set<Path>) {
    && (forall p | p in files :: ValidPath(p) && p !in dirs && (|p| > 1 ==> Parent(p) in dirs))
    && (forall p | p in dirs :: ValidPath(p) && (|p| > 1 ==> Parent(p) in dirs))
  }

  lemma {:induction false} AboveAreDirs(files: map<Path, seq<byte>>, dirs: set<Path>, p: Path)
    requires GoodDisk(files, dirs) && (p in files || p in dirs)
    ensures Above(p) <= dirs
    decreases |p|
  {
    if |p| > 1 {
      var up := Parent(p);
      AboveAreDirs(files, dirs, up);
      forall k | 0 < k < |p| ensures p[..k] in dirs {
        if k < |p| - 1 {
          assert up[..k] == p[..k] && up[..k] in Above(up);
        }
      }
    }
  }

  /** Nothing on disk lies below a file. */
  lemma NothingBelowFile(files: map<Path, seq<byte>>, dirs: set<Path>, p: Path, q: Path)
    requires GoodDisk(files, dirs) && p in files && p < q
    ensures q !in files && q !in dirs
  {
    assert p != [] && q[..|p|] == p;
    assert p in Above(q);
    if q in files || q in dirs {
      AboveAreDirs(files, dirs, q);
    }
  }

  predicate NothingIn(files: map<Path, seq<byte>>, dirs: set<Path>, p: Path) {
    (forall q | q in files :: q == [] || Parent(q) != p) && (forall q | q in dirs :: q == [] || Parent(q) != p)
  }

  function Child(p: Path, name: string): Path {
    p + [name]
  }

  predicate IsChild(p: Path, q: Path) {
    q != [] && Parent(q) == p
  }

  function EntryFor(files: map<Path, seq<byte>>, q: Path): DiskEntry
    requires q != []
  {
    if q in files then FileEntry(q[|q| - 1]) else DirEntry(q[|q| - 1])
  }

  /** Entry `e` of `p` is on disk as it says. */
  predicate EntryHolds(files: map<Path, seq<byte>>, dirs: set<Path>, p: Path, e: DiskEntry) {
    if e.FileEntry? then Child(p, e.name) in files else Child(p, e.name) in dirs
  }

  /** `entries` lists what lies directly under `p`, but for what is in `rest`. */
  ghost predicate ListedBut(files: map<Path, seq<byte>>, dirs: set<Path>, p: Path, rest: set<Path>,
                            entries: seq<DiskEntry>) {
    && rest <= files.Keys + dirs
    && (forall e | e in entries :: Child(p, e.name) !in rest && EntryHolds(files, dirs, p, e))
    && (forall q | (q in files || q in dirs) && IsChild(p, q) :: q in rest || EntryFor(files, q) in entries)
    && (forall i, j | 0 <= i < j < |entries| :: entries[i].name != entries[j].name)
  }

  lemma ListedNone(files: map<Path, seq<byte>>, dirs: set<Path>, p: Path, rest: set<Path>)
    requires rest == files.Keys + dirs
    ensures ListedBut(files, dirs, p, rest, [])
  {
  }

  lemma EntryForHolds(files: map<Path, seq<byte>>, dirs: set<Path>, p: Path, q: Path)
    requires IsChild(p, q) && (q in files || q in dirs)
    ensures EntryHolds(files, dirs, p, EntryFor(files, q)) && Child(p, EntryFor(files, q).name) == q
  {
    assert q == p + [q[|q| - 1]];
  }

  lemma ListedOneMore(files: map<Path, seq<byte>>, dirs: set<Path>, p: Path, rest: set<Path>,
                      entries: seq<DiskEntry>, q: Path)
    requires ListedBut(files, dirs, p, rest, entries) && q in rest
    ensures ListedBut(files, dirs, p, rest - {q}, if IsChild(p, q) then entries + [EntryFor(files, q)] else entries)
  {
    hide Child, EntryHolds, EntryFor, Parent;
    if IsChild(p, q) {
      var entry := EntryFor(files, q);
      EntryForHolds(files, dirs, p, q);
      assert forall e :: e in entries + [entry] <==> e in entries || e == entry;
      assert forall e | e in entries :: e.name != entry.name;
    }
  }

  /** `entries` are just what lies directly under `p`, each once and for what it is. */
  ghost predicate Entries(files: map<Path, seq<byte>>, dirs: set<Path>, p: Path, entries: seq<DiskEntry>)
    requires GoodDisk(files, dirs)
  {
    && (forall e | e in entries :: (if e.FileEntry? then p + [e.name] in files else p + [e.name] in dirs))
    && (forall q | q in files && Parent(q) == p :: FileEntry(q[|q| - 1]) in entries)
    && (forall q | q in dirs && Parent(q) == p :: DirEntry(q[|q| - 1]) in entries)
    && (forall i, j | 0 <= i < j < |entries| :: entries[i].name != entries[j].name)
  }

  lemma ListedAll(files: map<Path, seq<byte>>, dirs: set<Path>, p: Path, entries: seq<DiskEntry>)
    requires GoodDisk(files, dirs) && ListedBut(files, dirs, p, {}, entries)
    ensures Entries(files, dirs, p, entries)
  {
    forall q | q in files && Parent(q) == p ensures FileEntry(q[|q| - 1]) in entries {
      assert EntryFor(files, q) in entries;
    }
    forall q | q in dirs && Parent(q) == p ensures DirEntry(q[|q| - 1]) in entries {
      assert EntryFor(files, q) in entries;
    }
  }

  class Disk {
    var files: map<Path, seq<byte>>
    var dirs: set<Path>

    ghost predicate Valid()
      reads this
    {
      GoodDisk(files, dirs)
    }

    constructor ()
      ensures Valid() && files == map[] && dirs == {}
    {
      files, dirs := map[], {};
    }

    function Kind(p: Path): Option<DiskKind>
      reads this
    {
      if p in files then Some(IsFile) else if p in dirs then Some(IsDir) else None
    }

    function ReadFile(p: Path): Option<seq<byte>>
      reads this
    {
      if p in files then Some(files[p]) else None
    }

    predicate Empty(p: Path)
      reads this
    {
      NothingIn(files, dirs, p)
    }

    /** The entries directly under `p`, in no particular order; fails if there is no such directory. */
    method ReadDir(p: Path) returns (r: Option<seq<DiskEntry>>)
      requires Valid()
      ensures r.Some? <==> p == [] || p in dirs
      ensures r.Some? ==> Entries(files, dirs, p, r.value)
    {
      hide ListedBut, EntryFor;
      if p != [] && p !in dirs {
        return None;
      }
      var entries := [];
      var rest := (set q | q in files) + dirs;
      ListedNone(files, dirs, p, rest);
      while rest != {}
        invariant ListedBut(files, dirs, p, rest, entries)
        decreases rest
      {
        var q :| q in rest;
        ListedOneMore(files, dirs, p, rest, entries, q);
        rest := rest - {q};
        if IsChild(p, q) {
          entries := entries + [EntryFor(files, q)];
        }
      }
      ListedAll(files, dirs, p, entries);
      r := Some(entries);
    }

    /** Write a file, creating the directories it lies in. */
    method WriteFile(p: Path, contents: seq<byte>) returns (ok: bool)
      requires Valid() && ValidPath(p)
      modifies this
      ensures Valid()
      ensures ok <==> p !in old(dirs) && Above(p) !! old(files).Keys
      ensures files == if ok then old(files)[p := contents] else old(files)
      ensures dirs == if ok then old(dirs) + Above(p) else old(dirs)
    {
      ok := p !in dirs && Above(p) !! files.Keys;
      if ok {
        GrowDirs(files, dirs, p);
        files, dirs := files[p := contents], dirs + Above(p);
      }
    }

    /** Create a directory and those it lies in. */
    method CreateDir(p: Path) returns (ok: bool)
      requires Valid() && ValidPath(p)
      modifies this`dirs
      ensures Valid()
      ensures ok <==> (Above(p) + {p}) !! files.Keys
      ensures dirs == if ok then old(dirs) + Above(p) + {p} else old(dirs)
    {
      ok := (Above(p) + {p}) !! files.Keys;
      if ok {
        GrowDirs(files, dirs, p);
        dirs := dirs + Above(p) + {p};
      }
    }

    method RemoveFile(p: Path) returns (ok: bool)
      requires Valid()
      modifies this`files
      ensures Valid() && ok == (p in old(files)) && files == old(files) - {p}
    {
      ok := p in files;
      files := files - {p};
    }

    /** Remove a directory, which must be empty. Asked for the root it does nothing and succeeds. */
    method RemoveDir(p: Path) returns (ok: bool)
      requires Valid()
      modifies this`dirs
      ensures Valid() && ok == (p == [] || (p in old(dirs) && old(Empty(p))))
      ensures dirs == if ok then old(dirs) - {p} else old(dirs)
    {
      if p == [] {
        return true;
      }
      ok := p in dirs && Empty(p);
      if ok {
        dirs := dirs - {p};
      }
    }
  }

  lemma GrowDirs(files: map<Path, seq<byte>>, dirs: set<Path>, p: Path)
    requires GoodDisk(files, dirs) && ValidPath(p)
    ensures forall q | q in dirs + Above(p) :: ValidPath(q) && (|q| > 1 ==> Parent(q) in dirs + Above(p))
    ensures |p| > 1 ==> Parent(p) in Above(p)
    ensures p !in Above(p)
  {
    if |p| > 1 {
      assert Parent(p) == p[..|p| - 1];
    }
    forall q | q in Above(p) ensures ValidPath(q) && (|q| > 1 ==> Parent(q) in Above(p)) {
      var k :| 0 < k < |p| && q == p[..k];
      if k > 1 {
        assert Parent(q) == p[..k - 1];
      }
    }
  }
}
