/** Reading a directory of text files into a doc. */
module Imports {
  import opened Wrappers
  import opened Utf8
  import opened SharedText
  import opened FileTree
  import opened TreeEdits
  import opened Docs
  import opened Workspaces
  import opened Exports

  /** What a path shows: its kind and, for a file, its text. */
  datatype View = Nothing | Shows(kind: Option<Kind>, text: string)

  ghost function ViewAt(t: Tree, cs: Path): View {
    match NodeAt(t, cs) case None => Nothing case Some(n) => Shows(t.KindOf(n), TextOf(t, n))
  }

  /** What import makes of a path on disk. */
  predicate Kept(ign: Ignorer, files: map<Path, seq<byte>>, dirs: set<Path>, p: Path) {
    && p != [] && p[0] != EG_DIR && !Skips(ign, p, p in dirs)
    && (p in dirs || (p in files && Decode(files[p]).Some?))
  }

  function DiskView(ign: Ignorer, files: map<Path, seq<byte>>, dirs: set<Path>, p: Path): View {
    if !Kept(ign, files, dirs, p) then Nothing
    else if p in dirs then Shows(Some(Dir), "")
    else Shows(Some(File), Decode(files[p]).value)
  }

  /** Exactly what import takes in: directories and text files outside `.eg`, neither ignored nor below what is. */
  lemma KeptIsExact(ign: Ignorer, files: map<Path, seq<byte>>, dirs: set<Path>, p: Path)
    requires GoodDisk(files, dirs)
    ensures DiskView(ign, files, dirs, p) == Shows(Some(Dir), "") <==>
      p in dirs && p[0] != ".eg" && NotIgnored(ign, p, true)
    ensures forall text :: DiskView(ign, files, dirs, p) == Shows(Some(File), text) <==>
      p in files && p[0] != ".eg" && NotIgnored(ign, p, false) && files[p] == Encode(text)
  {
    hide Decode, Encode;
    SkipsIsIgnored(ign, p, true);
    SkipsIsIgnored(ign, p, false);
    forall text ensures p in files ==> (Decode(files[p]) == Some(text) <==> files[p] == Encode(text)) {
      if p in files {
        Utf8Codec(text, files[p]);
      }
    }
  }

  /** Every node of `t` is in `u` as it was. */
  ghost predicate Grew(t: Tree, u: Tree) {
    forall n | n in t.nodes :: n in u.nodes && u.nodes[n] == t.nodes[n]
  }

  /** From `t` to `u`, the paths of `region` came to show the disk, and the rest stayed. */
  ghost predicate Imported(ign: Ignorer, files: map<Path, seq<byte>>, dirs: set<Path>, region: iset<Path>, t: Tree,
                           u: Tree) {
    && Grew(t, u)
    && (forall cs :: if cs in region then ViewAt(u, cs) == DiskView(ign, files, dirs, cs)
                                     else Walk(u, Root, cs) == Walk(t, Root, cs))
  }

  predicate StartsAt(key: Path, cs: Path) {
    key <= cs
  }

  predicate LiesBelow(at: Path, cs: Path) {
    at < cs
  }

  predicate StartsAtAny(at: Path, entries: seq<DiskEntry>, cs: Path) {
    exists e | e in entries :: at + [e.name] <= cs
  }

  ghost function From(key: Path): iset<Path> {
    iset cs: Path | StartsAt(key, cs)
  }

  ghost function Below(at: Path): iset<Path> {
    iset cs: Path | LiesBelow(at, cs)
  }

  ghost function FromAny(at: Path, entries: seq<DiskEntry>): iset<Path> {
    iset cs: Path | StartsAtAny(at, entries, cs)
  }

  lemma SameView(t: Tree, u: Tree, cs: Path)
    requires t.WellFormed() && Grew(t, u) && Walk(u, Root, cs) == Walk(t, Root, cs)
    ensures ViewAt(u, cs) == ViewAt(t, cs)
  {
    if cs != [] && Walk(t, Root, cs).Some? {
      WalkLast(t, Root, cs);
    }
  }

  lemma ImportedBoth(ign: Ignorer, files: map<Path, seq<byte>>, dirs: set<Path>,
                        r1: iset<Path>, r2: iset<Path>, t: Tree, u: Tree, v: Tree)
    requires u.WellFormed() && r1 !! r2
    requires Imported(ign, files, dirs, r1, t, u) && Imported(ign, files, dirs, r2, u, v)
    ensures Imported(ign, files, dirs, r1 + r2, t, v)
  {
    hide Tree.WellFormed, Walk, ViewAt, DiskView;
    forall cs ensures
      if cs in r1 + r2 then ViewAt(v, cs) == DiskView(ign, files, dirs, cs) else Walk(v, Root, cs) == Walk(t, Root, cs)
    {
      if cs in r1 {
        assert cs !in r2;
        SameView(u, v, cs);
      }
    }
  }

  lemma ImportedNothing(ign: Ignorer, files: map<Path, seq<byte>>, dirs: set<Path>, region: iset<Path>, t: Tree)
    requires forall cs | cs in region :: Walk(t, Root, cs) == None && DiskView(ign, files, dirs, cs) == Nothing
    ensures Imported(ign, files, dirs, region, t, t)
  {
  }

  /** What import passes over, with all below it, was to stay out. */
  lemma PassedOver(ign: Ignorer, files: map<Path, seq<byte>>, dirs: set<Path>, key: Path, cs: Path)
    requires GoodDisk(files, dirs) && key != [] && key <= cs
    requires key[0] == EG_DIR || Skips(ign, key, key in dirs) || (key in files && Decode(files[key]).None?)
    ensures DiskView(ign, files, dirs, cs) == Nothing
  {
    hide Skips, Decode;
    if Kept(ign, files, dirs, cs) && cs != key {
      assert cs[..|key|] == key && key in Above(cs);
      AboveAreDirs(files, dirs, cs);
      SkipsBelow(ign, key, cs, cs in dirs);
    }
  }

  lemma FileHidesBelow(ign: Ignorer, files: map<Path, seq<byte>>, dirs: set<Path>, key: Path, cs: Path)
    requires GoodDisk(files, dirs) && key in files && key < cs
    ensures DiskView(ign, files, dirs, cs) == Nothing
  {
    NothingBelowFile(files, dirs, key, cs);
  }

  // ---- one entry ----

  lemma DirImported(ign: Ignorer, files: map<Path, seq<byte>>, dirs: set<Path>,
                       t: Tree, at: Path, p: Place, name: string, n: NodeId)
    requires t.WellFormed() && n !in t.nodes && Walk(t, Root, at) == Some(p)
    requires (p.Under? ==> t.KindOf(p.parent) == Some(Dir)) && Walk(t, Root, at + [name]) == None
    requires Kept(ign, files, dirs, at + [name]) && at + [name] in dirs
    ensures var u := t.Create(n, p, name, Dir, None);
      && u.WellFormed() && Walk(u, Root, at + [name]) == Some(Under(n)) && u.KindOf(n) == Some(Dir)
      && Imported(ign, files, dirs, iset{at + [name]}, t, u)
      && forall cs | at + [name] < cs :: Walk(u, Root, cs) == None
  {
    hide Tree.WellFormed, Kept;
    var u := t.Create(n, p, name, Dir, None);
    WalkConcat(t, Root, at, [name]);
    forall cs ensures Walk(u, Root, cs) == if cs == at + [name] then Some(Under(n)) else Walk(t, Root, cs)
              ensures u.WellFormed()
    {
      CreateEffect(t, n, at, p, name, Dir, None, cs);
    }
    assert u.WellFormed() && Walk(u, Root, at + [name]) == Some(Under(n));
    forall cs | at + [name] < cs ensures Walk(u, Root, cs) == None {
      NothingThere(t, at + [name], cs);
    }
  }

  lemma {:induction false} FileImported(ign: Ignorer, files: map<Path, seq<byte>>, dirs: set<Path>, t: Tree,
                                        at: Path, p: Place, name: string, n: NodeId, text: string,
                                        h: seq<Tree>, h': seq<Tree>, next: NodeId)
    requires t.WellFormed() && n !in t.nodes && Walk(t, Root, at) == Some(p)
    requires (p.Under? ==> t.KindOf(p.parent) == Some(Dir)) && Walk(t, Root, at + [name]) == None
    requires GoodDisk(files, dirs) && Kept(ign, files, dirs, at + [name])
    requires at + [name] in files && Decode(files[at + [name]]) == Some(text)
    requires h != [] && GoodHistory(h, next) && Last(h) == t.Create(n, p, name, File, Some([]))
    requires h' != [] && Edited(h, h', n, text, |h| - 1)
    ensures Imported(ign, files, dirs, From(at + [name]), t, Last(h'))
  {
    hide Tree.WellFormed, Kept, Edited;
    var key, v := at + [name], Last(h');
    WalkConcat(t, Root, at, [name]);
    EditedTip(h, h', next, n, text, |h| - 1);
    assert UpTo(Last(h).nodes[n].content.value, |h| - 1);
    EditedExactly(h, h', next, n, text, |h| - 1);
    assert t.ChildNamed(p, name) == None;
    forall cs ensures Walk(v, Root, cs) == if cs == key then Some(Under(n)) else Walk(t, Root, cs) {
      CreateEffect(t, n, at, p, name, File, Some([]), cs);
    }
    FileTakesOver(ign, files, dirs, key, text, n, t, v);
  }

  lemma FileTakesOver(ign: Ignorer, files: map<Path, seq<byte>>, dirs: set<Path>, key: Path, text: string,
                         n: NodeId, t: Tree, v: Tree)
    requires GoodDisk(files, dirs) && Kept(ign, files, dirs, key) && key in files && Decode(files[key]) == Some(text)
    requires Grew(t, v) && Walk(t, Root, key) == None
    requires v.KindOf(n) == Some(File) && TextOf(v, n) == text
    requires forall cs :: Walk(v, Root, cs) == if cs == key then Some(Under(n)) else Walk(t, Root, cs)
    ensures Imported(ign, files, dirs, From(key), t, v)
  {
    hide Kept, Walk, Decode;
    forall cs ensures if cs in From(key) then ViewAt(v, cs) == DiskView(ign, files, dirs, cs)
                                         else Walk(v, Root, cs) == Walk(t, Root, cs)
    {
      if cs in From(key) && cs != key {
        FileHidesBelow(ign, files, dirs, key, cs);
        NothingThere(t, key, cs);
      }
    }
  }

  lemma NothingThere(t: Tree, key: Path, cs: Path)
    requires Walk(t, Root, key) == None && key <= cs
    ensures Walk(t, Root, cs) == None
  {
    assert cs == key + cs[|key|..];
    WalkConcat(t, Root, key, cs[|key|..]);
  }

  // ---- a directory ----

  ghost function DirsBelow(dirs: set<Path>, at: Path): set<Path> {
    set q | q in dirs && at < q
  }

  lemma FewerBelow(dirs: set<Path>, at: Path, name: string)
    requires at + [name] in dirs
    ensures DirsBelow(dirs, at + [name]) < DirsBelow(dirs, at)
  {
    assert at < at + [name];
    assert at + [name] in DirsBelow(dirs, at) && at + [name] !in DirsBelow(dirs, at + [name]);
  }

  lemma KeepIfNotSkipped(ign: Ignorer, files: map<Path, seq<byte>>, dirs: set<Path>, at: Path, name: string)
    requires GoodDisk(files, dirs) && (at + [name] in files || at + [name] in dirs)
    requires at != [] ==> at in dirs && Kept(ign, files, dirs, at)
    ensures var key, bad := at + [name], ign(at + [name], at + [name] in dirs);
      && Skips(ign, key, key in dirs) == bad
      && (Kept(ign, files, dirs, key) <==>
          !(at == [] && name == EG_DIR) && !bad && (key in dirs || Decode(files[key]).Some?))
  {
    SkipsChild(ign, at, name, at + [name] in dirs);
    assert (at + [name])[0] == if at == [] then name else at[0];
  }

  /** Everything the import of `at` needs to know of the doc. */
  ghost predicate Ready(t: Tree, ign: Ignorer, files: map<Path, seq<byte>>, dirs: set<Path>, at: Path, p: Place) {
    && t.WellFormed() && p != Trash && Walk(t, Root, at) == Some(p)
    && (p.Under? ==> t.KindOf(p.parent) == Some(Dir))
    && (at != [] ==> at in dirs && Kept(ign, files, dirs, at))
  }

  lemma ReadyDir(t: Tree, ign: Ignorer, files: map<Path, seq<byte>>, dirs: set<Path>, at: Path, p: Place)
    requires Ready(t, ign, files, dirs, at, p)
    ensures at == [] || at in dirs
  {
  }

  lemma StillReady(t: Tree, u: Tree, ign: Ignorer, files: map<Path, seq<byte>>, dirs: set<Path>,
                      at: Path, p: Place, region: iset<Path>)
    requires Ready(t, ign, files, dirs, at, p) && Imported(ign, files, dirs, region, t, u) && at !in region
      && u.WellFormed()
    ensures Ready(u, ign, files, dirs, at, p)
  {
  }

  lemma NeverBoth(files: map<Path, seq<byte>>, dirs: set<Path>, p: Path)
    requires GoodDisk(files, dirs)
    ensures p !in files || p !in dirs
  {
  }

  /** One entry of the directory `at`. */
  method ImportEntry(ws: Disk, doc: Doc, ign: Ignorer, at: Path, p: Place, entry: DiskEntry)
    requires ws.Valid() && doc.Valid() && Ready(doc.Tip(), ign, ws.files, ws.dirs, at, p)
    requires Walk(doc.Tip(), Root, at + [entry.name]) == None
    requires if entry.FileEntry? then at + [entry.name] in ws.files else at + [entry.name] in ws.dirs
    modifies doc
    ensures doc.Valid()
    ensures Imported(ign, ws.files, ws.dirs, From(at + [entry.name]), old(doc.Tip()), doc.Tip())
    decreases DirsBelow(ws.dirs, at), 0
  {
    hide Tree.WellFormed, Kept, ViewAt, DiskView, Skips, Decode, Stamped, Carries, Edited, GoodDisk;
    ghost var t := doc.Tip();
    var name, key := entry.name, at + [entry.name];
    NeverBoth(ws.files, ws.dirs, key);
    KeepIfNotSkipped(ign, ws.files, ws.dirs, at, name);
    WalkConcat(t, Root, at, [name]);
    if (at == [] && name == EG_DIR) || ign(key, entry.DirEntry?) {
      LeaveOut(ign, ws.files, ws.dirs, key, t);
      return;
    }
    if entry.DirEntry? {
      var n := doc.CreateNode(p, name, Dir);
      DirImported(ign, ws.files, ws.dirs, t, at, p, name, n);
      ghost var u := doc.Tip();
      FewerBelow(ws.dirs, at, name);
      ImportDir(ws, doc, ign, key, Under(n));
      WithItsDir(ign, ws.files, ws.dirs, key, t, u, doc.Tip());
    } else {
      var text := Decode(ws.ReadFile(key).value);
      if text.Some? {
        var n := doc.CreateNode(p, name, File);
        ghost var h, next := doc.history, doc.next;
        doc.Update(n, text.value, doc.Frontiers());
        FileImported(ign, ws.files, ws.dirs, t, at, p, name, n, text.value, h, doc.history, next);
      } else {
        LeaveOut(ign, ws.files, ws.dirs, key, t);
      }
    }
  }

  lemma LeaveOut(ign: Ignorer, files: map<Path, seq<byte>>, dirs: set<Path>, key: Path, t: Tree)
    requires GoodDisk(files, dirs) && key != [] && Walk(t, Root, key) == None
    requires key[0] == EG_DIR || Skips(ign, key, key in dirs) || (key in files && Decode(files[key]).None?)
    ensures Imported(ign, files, dirs, From(key), t, t)
  {
    forall cs | cs in From(key) ensures Walk(t, Root, cs) == None && DiskView(ign, files, dirs, cs) == Nothing {
      NothingThere(t, key, cs);
      PassedOver(ign, files, dirs, key, cs);
    }
    ImportedNothing(ign, files, dirs, From(key), t);
  }

  lemma WithItsDir(ign: Ignorer, files: map<Path, seq<byte>>, dirs: set<Path>, key: Path, t: Tree, u: Tree, v: Tree)
    requires u.WellFormed()
    requires Imported(ign, files, dirs, iset{key}, t, u) && Imported(ign, files, dirs, Below(key), u, v)
    ensures Imported(ign, files, dirs, From(key), t, v)
  {
    ImportedBoth(ign, files, dirs, iset{key}, Below(key), t, u, v);
    assert forall cs :: StartsAt(key, cs) <==> cs == key || LiesBelow(key, cs);
    assert iset{key} + Below(key) == From(key);
  }

  /** Read the directory `at` into the doc, under the place that stands for it. */
  method ImportDir(ws: Disk, doc: Doc, ign: Ignorer, at: Path, p: Place)
    requires ws.Valid() && doc.Valid() && Ready(doc.Tip(), ign, ws.files, ws.dirs, at, p)
    requires forall cs | at < cs :: Walk(doc.Tip(), Root, cs) == None
    modifies doc
    ensures doc.Valid() && Imported(ign, ws.files, ws.dirs, Below(at), old(doc.Tip()), doc.Tip())
    decreases DirsBelow(ws.dirs, at), 1
  {
    hide Tree.WellFormed, Walk, Kept, ViewAt, DiskView, Skips, Decode, Imported, Ready, GoodDisk, Stamped, Carries;
    ghost var t := doc.Tip();
    var read := ws.ReadDir(at);
    ReadyDir(doc.Tip(), ign, ws.files, ws.dirs, at, p);
    var entries := read.value;
    ImportedNothing(ign, ws.files, ws.dirs, FromAny(at, []), t);
    assert entries[..0] == [];
    for i := 0 to |entries|
      invariant doc.Valid() && Imported(ign, ws.files, ws.dirs, FromAny(at, entries[..i]), t, doc.Tip())
    {
      ghost var u := doc.Tip();
      NextEntry(at, entries, i);
      StillReady(t, u, ign, ws.files, ws.dirs, at, p, FromAny(at, entries[..i]));
      StillNothing(ign, ws.files, ws.dirs, FromAny(at, entries[..i]), t, u, at + [entries[i].name]);
      ImportEntry(ws, doc, ign, at, p, entries[i]);
      ImportedBoth(ign, ws.files, ws.dirs, FromAny(at, entries[..i]), From(at + [entries[i].name]), t, u, doc.Tip());
    }
    assert entries[..|entries|] == entries;
    AllEntries(ws, ign, at, entries, t, doc.Tip());
  }

  lemma NextEntry(at: Path, entries: seq<DiskEntry>, i: nat)
    requires i < |entries| && forall i, j | 0 <= i < j < |entries| :: entries[i].name != entries[j].name
    ensures FromAny(at, entries[..i]) !! From(at + [entries[i].name])
    ensures FromAny(at, entries[..i + 1]) == FromAny(at, entries[..i]) + From(at + [entries[i].name])
    ensures at !in FromAny(at, entries[..i])
  {
    assert entries[..i + 1] == entries[..i] + [entries[i]];
    forall cs | cs in FromAny(at, entries[..i]) ensures cs !in From(at + [entries[i].name]) {
      var e :| e in entries[..i] && at + [e.name] <= cs;
      assert cs[|at|] == (at + [e.name])[|at|];
      assert (at + [entries[i].name])[|at|] == entries[i].name;
    }
  }

  lemma StillNothing(ign: Ignorer, files: map<Path, seq<byte>>, dirs: set<Path>, region: iset<Path>, t: Tree,
                     u: Tree, key: Path)
    requires Imported(ign, files, dirs, region, t, u) && key !in region && Walk(t, Root, key) == None
    ensures Walk(u, Root, key) == None
  {
  }

  /** What no entry leads to is not on disk. */
  lemma AllEntries(ws: Disk, ign: Ignorer, at: Path, entries: seq<DiskEntry>, t: Tree, u: Tree)
    requires ws.Valid() && forall cs | at < cs :: Walk(t, Root, cs) == None
    requires forall q | (q in ws.files || q in ws.dirs) && Parent(q) == at ::
      exists e :: e in entries && e.name == q[|q| - 1]
    requires Imported(ign, ws.files, ws.dirs, FromAny(at, entries), t, u)
    ensures Imported(ign, ws.files, ws.dirs, Below(at), t, u)
  {
    hide Skips, Walk;
    forall cs ensures if cs in Below(at) then ViewAt(u, cs) == DiskView(ign, ws.files, ws.dirs, cs)
                                         else Walk(u, Root, cs) == Walk(t, Root, cs)
    {
      if cs in FromAny(at, entries) {
        var e :| e in entries && at + [e.name] <= cs;
        assert at < at + [e.name] <= cs;
      } else if cs in Below(at) && (cs in ws.files || cs in ws.dirs) {
        OnDiskIsListed(ws, at, entries, cs);
      }
    }
  }

  lemma {:induction false} OnDiskIsListed(ws: Disk, at: Path, entries: seq<DiskEntry>, cs: Path)
    requires ws.Valid() && at < cs && (cs in ws.files || cs in ws.dirs)
    requires forall q | (q in ws.files || q in ws.dirs) && Parent(q) == at ::
      exists e :: e in entries && e.name == q[|q| - 1]
    ensures cs in FromAny(at, entries)
  {
    hide GoodDisk;
    var key := cs[..|at| + 1];
    assert Parent(key) == at && key == at + [key[|at|]];
    AboveAreDirs(ws.files, ws.dirs, cs);
    assert key == cs || key in Above(cs);
  }

  /** Import a whole workspace into an empty doc: the doc shows exactly what the disk keeps. */
  method ImportTree(ws: Disk, doc: Doc, ign: Ignorer)
    requires ws.Valid() && doc.Valid() && forall cs | cs != [] :: Walk(doc.Tip(), Root, cs) == None
    modifies doc
    ensures doc.Valid()
    ensures forall cs | cs != [] :: ViewAt(doc.Tip(), cs) == DiskView(ign, ws.files, ws.dirs, cs)
  {
    ImportDir(ws, doc, ign, [], Root);
    assert forall cs: Path | cs != [] :: cs in Below([]);
  }

  // ---- import, then export ----

  lemma ImportedShows(ign: Ignorer, out: Ignorer, files: map<Path, seq<byte>>, dirs: set<Path>, t: Tree, p: Path)
    requires GoodDisk(files, dirs)
    requires forall cs | cs != [] :: ViewAt(t, cs) == DiskView(ign, files, dirs, cs)
    ensures DirAt(t, out, p).Some? <==> p in dirs && Kept(ign, files, dirs, p) && !Skips(out, p, true)
    ensures FileAt(t, out, p).Some? <==> p in files && Kept(ign, files, dirs, p) && !Skips(out, p, false)
    ensures FileAt(t, out, p).Some? ==> Encode(TextOf(t, FileAt(t, out, p).value)) == files[p]
  {
    hide Skips, Decode, Encode;
    if p != [] {
      assert ViewAt(t, p) == DiskView(ign, files, dirs, p);
      if p in files && Decode(files[p]).Some? {
        Utf8Codec(Decode(files[p]).value, files[p]);
      }
    }
  }

  /** The files that go through an import under `ign` and an export under `out`. */
  function FilesThrough(ign: Ignorer, out: Ignorer, files: map<Path, seq<byte>>,
                        dirs: set<Path>): map<Path, seq<byte>> {
    map p | p in files && Kept(ign, files, dirs, p) && !Skips(out, p, false) :: files[p]
  }

  function DirsThrough(ign: Ignorer, out: Ignorer, files: map<Path, seq<byte>>, dirs: set<Path>): set<Path> {
    set p | p in dirs && Kept(ign, files, dirs, p) && !Skips(out, p, true)
  }

  /**
   Exporting an imported workspace into an empty one gives back exactly the
   directories and text files that neither side leaves out, byte for byte.
   */
  lemma {:induction false} ImportThenExport(ign: Ignorer, out: Ignorer, files: map<Path, seq<byte>>,
                                            dirs: set<Path>, t: Tree, w: Out)
    requires GoodDisk(files, dirs)
    requires forall cs | cs != [] :: ViewAt(t, cs) == DiskView(ign, files, dirs, cs)
    requires Wrote(t, out, Everywhere(), Out(map[], {}, [], []), w)
    ensures w.files == FilesThrough(ign, out, files, dirs)
    ensures w.dirs == DirsThrough(ign, out, files, dirs)
  {
    hide FileAt, DirAt, Kept, Encode, Skips;
    forall p ensures p in w.files <==> p in FilesThrough(ign, out, files, dirs)
             ensures p in w.files ==> w.files[p] == files[p]
             ensures p in w.dirs <==> p in DirsThrough(ign, out, files, dirs)
    {
      assert p in Everywhere();
      ImportedShows(ign, out, files, dirs, t, p);
    }
  }

  /** Snapshot a directory into a doc, then restore that into an empty directory. */
  method SnapshotThenRestore(ws: Disk, ign: Ignorer, out: Ignorer) returns (restored: Disk)
    requires ws.Valid()
    ensures fresh(restored) && restored.Valid()
    ensures restored.files == FilesThrough(ign, out, ws.files, ws.dirs)
    ensures restored.dirs == DirsThrough(ign, out, ws.files, ws.dirs)
  {
    hide Kept, Skips, Wrote, ViewAt, DiskView, Tree.WellFormed, Everywhere, Stamped, Carries;
    var doc := new Doc();
    EmptyShowsNothing(doc.Tip());
    ImportTree(ws, doc, ign);
    restored := new Disk();
    var plan := ExportTree(doc, restored, out);
    ImportThenExport(ign, out, ws.files, ws.dirs, doc.Tip(), Snapshot(restored, plan));
  }

  lemma EmptyShowsNothing(t: Tree)
    requires t == Tree(map[], [])
    ensures forall cs | cs != [] :: Walk(t, Root, cs) == None
  {
  }
}
