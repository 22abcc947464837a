/** Writing a doc's tree out to disk. */
module Exports {
  import opened Wrappers
  import opened Utf8
  import opened SharedText
  import opened Paths
  import opened FileTree
  import opened Docs
  import opened Workspaces

  /** Whether `p` is left out, by its own match or by that of a directory it lies in. */
  predicate Skips(ign: Ignorer, p: Path, isDir: bool) {
    ign(p, isDir) || exists up | up in Above(p) :: ign(up, true)
  }

  lemma SkipsBelow(ign: Ignorer, p: Path, q: Path, isDir: bool)
    requires p != [] && p < q && Skips(ign, p, true)
    ensures Skips(ign, q, isDir)
  {
    if ign(p, true) {
      assert q[..|p|] == p && p in Above(q);
    } else {
      var up :| up in Above(p) && ign(up, true);
      var k :| 0 < k < |p| && up == p[..k];
      assert q[..k] == up && up in Above(q);
    }
  }

  /** Inside a directory that is not left out, only the path's own match counts. */
  lemma SkipsChild(ign: Ignorer, at: Path, name: string, isDir: bool)
    requires at == [] || !Skips(ign, at, true)
    ensures Skips(ign, at + [name], isDir) <==> ign(at + [name], isDir)
  {
    var key := at + [name];
    forall up | up in Above(key) ensures !ign(up, true) {
      var k :| 0 < k < |key| && up == key[..k];
      if k == |at| {
        assert up == at;
      } else {
        assert up == at[..k] && up in Above(at);
      }
    }
  }

  function TextOf(t: Tree, n: NodeId): string {
    if n in t.nodes && t.nodes[n].content.Some? then Visible(t.nodes[n].content.value) else ""
  }

  /** Whether export would write a node named `name` at `p`. */
  predicate Materializable(name: string, p: Path, isDir: bool, ign: Ignorer) {
    ValidName(name) && !ign(p, isDir)
  }

  /** The node a path shows on disk, if it shows any. */
  function Shown(t: Tree, ign: Ignorer, p: Path): Option<NodeId> {
    if p == [] || !AllValid(p) || p[0] == EG_DIR then None
    else match NodeAt(t, p)
         case None => None
         case Some(n) => if Skips(ign, p, t.KindOf(n) == Some(Dir)) then None else Some(n)
  }

  function FileAt(t: Tree, ign: Ignorer, p: Path): Option<NodeId> {
    match Shown(t, ign, p) case Some(n) => (if t.KindOf(n) == Some(File) then Some(n) else None) case None => None
  }

  function DirAt(t: Tree, ign: Ignorer, p: Path): Option<NodeId> {
    match Shown(t, ign, p) case Some(n) => (if t.KindOf(n) == Some(Dir) then Some(n) else None) case None => None
  }

  /** Neither the path nor any directory it lies in is ignored. */
  ghost predicate NotIgnored(ign: Ignorer, p: Path, isDir: bool) {
    !ign(p, isDir) && forall k | 0 < k < |p| :: !ign(p[..k], true)
  }

  /**
   Exactly which nodes show on disk: those under a safe path outside `.eg` that
   is not ignored and does not lie in an ignored directory, by their kind.
   */
  lemma ShownIsExact(t: Tree, ign: Ignorer, p: Path, n: NodeId)
    requires t.WellFormed()
    ensures FileAt(t, ign, p) == Some(n) <==>
      && p != [] && AllValid(p) && p[0] != ".eg" && Walk(t, Root, p) == Some(Under(n))
      && t.KindOf(n) == Some(File) && NotIgnored(ign, p, false)
    ensures DirAt(t, ign, p) == Some(n) <==>
      && p != [] && AllValid(p) && p[0] != ".eg" && Walk(t, Root, p) == Some(Under(n))
      && t.KindOf(n) == Some(Dir) && NotIgnored(ign, p, true)
  {
    SkipsIsIgnored(ign, p, false);
    SkipsIsIgnored(ign, p, true);
  }

  lemma SkipsIsIgnored(ign: Ignorer, p: Path, isDir: bool)
    ensures Skips(ign, p, isDir) <==> !NotIgnored(ign, p, isDir)
  {
    if k :| 0 < k < |p| && ign(p[..k], true) {
      assert p[..k] in Above(p);
    }
  }

  /** No path is a file on one side and a directory on the other. */
  ghost predicate NoClash(t: Tree, ign: Ignorer, files: map<Path, seq<byte>>, dirs: set<Path>) {
    && (forall p | p in dirs :: FileAt(t, ign, p) == None)
    && (forall p | p in files :: DirAt(t, ign, p) == None)
  }

  /** What an export has written so far. */
  class ExportPlan {
    var files: seq<(Path, NodeId)>
    var dirs: seq<(Path, NodeId)>

    constructor ()
      ensures files == [] && dirs == []
    {
      files, dirs := [], [];
    }
  }

  datatype Out = Out(files: map<Path, seq<byte>>, dirs: set<Path>, planFiles: seq<(Path, NodeId)>,
    planDirs: seq<(Path, NodeId)>)

  /** From `a` to `b`, exactly what the paths of `region` show was written and planned. */
  ghost predicate Wrote(t: Tree, ign: Ignorer, region: iset<Path>, a: Out, b: Out) {
    && (forall p, n :: (p, n) in b.planFiles <==>
         (p, n) in a.planFiles || (p in region && FileAt(t, ign, p) == Some(n)))
    && (forall p, n :: (p, n) in b.planDirs <==> (p, n) in a.planDirs || (p in region && DirAt(t, ign, p) == Some(n)))
    && (forall p :: p in b.files <==> p in a.files || (p in region && FileAt(t, ign, p).Some?))
    && (forall p | p in b.files :: b.files[p] ==
          if p in region && FileAt(t, ign, p).Some? then Encode(TextOf(t, FileAt(t, ign, p).value))
          else if p in a.files then a.files[p] else [])
    && (forall p :: p in b.dirs <==> p in a.dirs || (p in region && DirAt(t, ign, p).Some?))
  }

  lemma WroteNothing(t: Tree, ign: Ignorer, region: iset<Path>, a: Out)
    requires forall p | p in region :: FileAt(t, ign, p) == None && DirAt(t, ign, p) == None
    ensures Wrote(t, ign, region, a, a)
  {
  }

  lemma WroteBoth(t: Tree, ign: Ignorer, r1: iset<Path>, r2: iset<Path>, a: Out, b: Out, c: Out)
    requires Wrote(t, ign, r1, a, b) && Wrote(t, ign, r2, b, c)
    ensures Wrote(t, ign, r1 + r2, a, c)
  {
    hide FileAt, DirAt;
  }

  /** Only the paths of a region that show something matter. */
  lemma WroteSame(t: Tree, ign: Ignorer, r1: iset<Path>, r2: iset<Path>, a: Out, b: Out)
    requires Wrote(t, ign, r1, a, b)
    requires forall p | Shown(t, ign, p).Some? :: p in r1 <==> p in r2
    ensures Wrote(t, ign, r2, a, b)
  {
    forall p ensures (p in r1 && FileAt(t, ign, p).Some?) <==> (p in r2 && FileAt(t, ign, p).Some?)
             ensures (p in r1 && DirAt(t, ign, p).Some?) <==> (p in r2 && DirAt(t, ign, p).Some?)
    {
    }
  }

  /** Writing keeps the two sides from clashing. */
  lemma WroteKeepsNoClash(t: Tree, ign: Ignorer, region: iset<Path>, a: Out, b: Out)
    requires Wrote(t, ign, region, a, b) && NoClash(t, ign, a.files, a.dirs)
    ensures NoClash(t, ign, b.files, b.dirs)
  {
    hide Shown;
  }

  // ---- the subtree of a node ----

  predicate RunsThrough(t: Tree, at: Path, n: NodeId, p: Path) {
    t.NameOf(n).Some? && at + [t.NameOf(n).value] <= p
  }

  predicate RunsThroughAny(t: Tree, at: Path, ids: seq<NodeId>, p: Path) {
    exists n :: n in ids && RunsThrough(t, at, n, p)
  }

  predicate AnyPath(p: Path) {
    true
  }

  /** The paths that run through the child `n` of the node at `at`. */
  ghost function Through(t: Tree, at: Path, n: NodeId): iset<Path> {
    iset p: Path | RunsThrough(t, at, n, p)
  }

  ghost function ThroughAny(t: Tree, at: Path, ids: seq<NodeId>): iset<Path> {
    iset p: Path | RunsThroughAny(t, at, ids, p)
  }

  ghost function Everywhere(): iset<Path> {
    iset p: Path | AnyPath(p)
  }

  /** `at` is a place export goes into. */
  ghost predicate Entered(t: Tree, ign: Ignorer, at: Path, p: Place) {
    && p != Trash && AllValid(at) && Walk(t, Root, at) == Some(p)
    && (at != [] ==> DirAt(t, ign, at).Some?)
    && (at == [] ==> p == Root)
  }

  ghost function Inside(t: Tree, n: NodeId): set<NodeId> {
    set x | x in t.nodes && Beneath(t, n, Under(x))
  }

  lemma InsideShrinks(t: Tree, n: NodeId, child: NodeId)
    requires t.WellFormed() && n in t.nodes && child in t.nodes && t.PlaceOf(child) == Under(n)
    ensures Inside(t, child) < Inside(t, n)
  {
    assert Climb(t, Under(n), 0) == Under(n);
    NotBeneathItself(t, child);
    assert n !in Inside(t, child) && n in Inside(t, n);
    forall x | x in Inside(t, child) ensures x in Inside(t, n) {
      var k: nat :| Climb(t, Under(x), k) == Under(child);
      ClimbTwice(t, Under(x), k, child, n);
    }
  }

  lemma {:induction false} ClimbTwice(t: Tree, p: Place, k: nat, child: NodeId, n: NodeId)
    requires Climb(t, p, k) == Under(child) && child in t.nodes && t.PlaceOf(child) == Under(n)
    ensures Beneath(t, n, p)
    decreases k
  {
    if p == Under(child) {
      assert Climb(t, p, 1) == Climb(t, Under(n), 0) == Under(n);
    } else {
      ClimbTwice(t, t.nodes[p.parent].place, k - 1, child, n);
      BeneathStep(t, n, p.parent);
    }
  }

  /** Every path below `at` that shows something runs through one of the children there. */
  lemma ShownThroughChild(t: Tree, ign: Ignorer, at: Path, p: Place, cs: Path)
    requires t.WellFormed() && p != Trash && Walk(t, Root, at) == Some(p)
    requires at <= cs && cs != at && Shown(t, ign, cs).Some?
    ensures cs in ThroughAny(t, at, t.Children(p))
  {
    assert cs == at + cs[|at|..];
    WalkConcat(t, Root, at, cs[|at|..]);
    var name := cs[|at|];
    assert t.ChildNamed(p, name).Some?;
    FoundIsChild(t, p, name);
    assert at + [name] == cs[..|at| + 1];
  }

  /** Nothing is shown below what is no directory, or below an ignored directory. */
  lemma HiddenBelow(t: Tree, ign: Ignorer, key: Path, n: NodeId, cs: Path)
    requires t.WellFormed() && key != [] && NodeAt(t, key) == Some(n) && key < cs
    requires t.KindOf(n) != Some(Dir) || Skips(ign, key, true)
    ensures Shown(t, ign, cs) == None
  {
    assert cs == key + cs[|key|..];
    WalkConcat(t, Root, key, cs[|key|..]);
    ParentIsDir(t, n, cs[|key|]);
    if Skips(ign, key, true) && NodeAt(t, cs).Some? {
      SkipsBelow(ign, key, cs, t.KindOf(NodeAt(t, cs).value) == Some(Dir));
    }
  }

  lemma ChildPathFound(t: Tree, at: Path, p: Place, n: NodeId)
    requires t.WellFormed() && p != Trash && Walk(t, Root, at) == Some(p)
    requires n in t.nodes && t.PlaceOf(n) == p && t.NameOf(n).Some?
    ensures NodeAt(t, at + [t.NameOf(n).value]) == Some(n)
  {
    var name := t.NameOf(n).value;
    SlotHolds(t, p, name);
    WalkConcat(t, Root, at, [name]);
  }

  /** What a node that export skips, or writes as a leaf, contributes. */
  lemma LeafRegion(t: Tree, ign: Ignorer, at: Path, p: Place, n: NodeId, cs: Path)
    requires t.WellFormed() && Entered(t, ign, at, p)
    requires n in t.nodes && t.PlaceOf(n) == p && t.NameOf(n).Some?
    requires var key := at + [t.NameOf(n).value];
      !Materializable(t.NameOf(n).value, key, t.KindOf(n) == Some(Dir), ign) || t.KindOf(n) != Some(Dir)
    requires cs in Through(t, at, n)
    ensures var key := at + [t.NameOf(n).value];
      && (cs != key ==> Shown(t, ign, cs) == None)
      && (cs == key && !Materializable(t.NameOf(n).value, key, t.KindOf(n) == Some(Dir), ign) ==>
           Shown(t, ign, cs) == None)
  {
    var name := t.NameOf(n).value;
    var key := at + [name];
    ChildPathFound(t, at, p, n);
    SkipsChild(ign, at, name, t.KindOf(n) == Some(Dir));
    if !ValidName(name) {
      assert cs[|at|] == key[|at|] == name && name in cs;
    } else if cs != key {
      HiddenBelow(t, ign, key, n, cs);
    }
  }

  lemma ShownChild(t: Tree, ign: Ignorer, at: Path, p: Place, n: NodeId)
    requires t.WellFormed() && Entered(t, ign, at, p)
    requires n in t.nodes && t.PlaceOf(n) == p && t.NameOf(n).Some?
    requires at == [] ==> t.NameOf(n).value != EG_DIR
    requires Materializable(t.NameOf(n).value, at + [t.NameOf(n).value], t.KindOf(n) == Some(Dir), ign)
    ensures var key := at + [t.NameOf(n).value];
      Shown(t, ign, key) == Some(n) && Walk(t, Root, key) == Some(Under(n)) && ValidPath(key)
  {
    ChildPathFound(t, at, p, n);
    SkipsChild(ign, at, t.NameOf(n).value, t.KindOf(n) == Some(Dir));
    var key := at + [t.NameOf(n).value];
    if at != [] {
      assert key[0] == at[0];
    }
  }

  /** A shown path's directories are shown, so they are on disk once `at` is. */
  lemma AboveChild(files: map<Path, seq<byte>>, dirs: set<Path>, at: Path, name: string)
    requires GoodDisk(files, dirs) && (at != [] ==> at in dirs)
    ensures Above(at + [name]) <= dirs && Above(at + [name]) !! files.Keys
  {
    var key := at + [name];
    if at != [] {
      AboveAreDirs(files, dirs, at);
    }
    forall k | 0 < k < |key| ensures key[..k] in dirs {
      if k == |at| {
        assert key[..k] == at;
      } else {
        assert key[..k] == at[..k] && at[..k] in Above(at);
      }
    }
  }

  function Snapshot(ws: Disk, plan: ExportPlan): Out
    reads ws, plan
  {
    Out(ws.files, ws.dirs, plan.files, plan.dirs)
  }

  /** Write `node` and its subtree under `parent`. */
  method ExportNode(t: Tree, ws: Disk, ign: Ignorer, node: NodeId, parent: Path, plan: ExportPlan, ghost p: Place)
    requires t.WellFormed() && ws.Valid() && NoClash(t, ign, ws.files, ws.dirs)
    requires Entered(t, ign, parent, p) && (parent != [] ==> parent in ws.dirs)
    requires node in t.nodes && t.PlaceOf(node) == p
    requires parent == [] ==> t.NameOf(node) != Some(EG_DIR)
    modifies ws, plan
    ensures ws.Valid() && NoClash(t, ign, ws.files, ws.dirs) && old(ws.dirs) <= ws.dirs
    ensures Wrote(t, ign, Through(t, parent, node), old(Snapshot(ws, plan)), Snapshot(ws, plan))
    decreases Inside(t, node), 1
  {
    hide Tree.WellFormed, Walk, Beneath, NoClash;
    ghost var a := Snapshot(ws, plan);
    var name := t.NameOf(node);
    if name.None? {
      WroteNothing(t, ign, Through(t, parent, node), a);
      return;
    }
    var rel := parent + [name.value];
    var kind := t.KindOf(node);
    if !Materializable(name.value, rel, kind == Some(Dir), ign) {
      SkippedWrites(t, ign, parent, p, node, a);
      return;
    }
    ShownChild(t, ign, parent, p, node);
    ClashFree(t, ign, ws.files, ws.dirs, rel);
    AboveChild(ws.files, ws.dirs, parent, name.value);
    if kind == Some(Dir) {
      var ok := ws.CreateDir(rel);
      assert ok;
      plan.dirs := plan.dirs + [(rel, node)];
      ghost var b := Snapshot(ws, plan);
      DirWrites(t, ign, parent, node, a, b);
      WroteKeepsNoClash(t, ign, iset{rel}, a, b);
      HangingHolds(t, t.order, Under(node));
      ExportChildren(t, ws, ign, t.Children(Under(node)), rel, plan, node);
      SubtreeWrites(t, ign, parent, p, node, a, b, Snapshot(ws, plan));
      WroteKeepsNoClash(t, ign, Through(t, parent, node), a, Snapshot(ws, plan));
    } else if kind == Some(File) {
      var ok := ws.WriteFile(rel, Encode(TextOf(t, node)));
      assert ok;
      plan.files := plan.files + [(rel, node)];
      FileWrites(t, ign, parent, p, node, a, Snapshot(ws, plan));
      WroteKeepsNoClash(t, ign, Through(t, parent, node), a, Snapshot(ws, plan));
    } else {
      OtherWrites(t, ign, parent, p, node, a);
    }
  }

  method ExportChildren(t: Tree, ws: Disk, ign: Ignorer, ids: seq<NodeId>, parent: Path, plan: ExportPlan,
                        ghost node: NodeId)
    requires t.WellFormed() && ws.Valid() && NoClash(t, ign, ws.files, ws.dirs)
    requires node in t.nodes && Entered(t, ign, parent, Under(node)) && parent in ws.dirs
    requires forall x | x in ids :: x in t.nodes && t.PlaceOf(x) == Under(node)
    modifies ws, plan
    ensures ws.Valid() && NoClash(t, ign, ws.files, ws.dirs) && old(ws.dirs) <= ws.dirs
    ensures Wrote(t, ign, ThroughAny(t, parent, ids), old(Snapshot(ws, plan)), Snapshot(ws, plan))
    decreases Inside(t, node), 0, |ids|
  {
    hide Tree.WellFormed, Walk, Beneath, NoClash, Wrote;
    ghost var a := Snapshot(ws, plan);
    WroteNothing(t, ign, ThroughAny(t, parent, []), a);
    assert ids[..0] == [];
    for i := 0 to |ids|
      invariant ws.Valid() && NoClash(t, ign, ws.files, ws.dirs) && old(ws.dirs) <= ws.dirs
      invariant Wrote(t, ign, ThroughAny(t, parent, ids[..i]), a, Snapshot(ws, plan))
    {
      ghost var b := Snapshot(ws, plan);
      assert ids[i] in ids;
      InsideShrinks(t, node, ids[i]);
      ExportNode(t, ws, ign, ids[i], parent, plan, Under(node));
      WroteBoth(t, ign, ThroughAny(t, parent, ids[..i]), Through(t, parent, ids[i]), a, b, Snapshot(ws, plan));
      ThroughMore(t, parent, ids, i);
    }
    assert ids[..|ids|] == ids;
  }

  lemma ThroughMore(t: Tree, at: Path, ids: seq<NodeId>, i: nat)
    requires i < |ids|
    ensures ThroughAny(t, at, ids[..i]) + Through(t, at, ids[i]) == ThroughAny(t, at, ids[..i + 1])
  {
    assert ids[..i + 1] == ids[..i] + [ids[i]];
    forall p: Path
      ensures p in ThroughAny(t, at, ids[..i]) + Through(t, at, ids[i]) <==> p in ThroughAny(t, at, ids[..i + 1]) {
      if p in ThroughAny(t, at, ids[..i]) {
        var n :| n in ids[..i] && p in Through(t, at, n);
        assert n in ids[..i + 1];
      }
    }
  }

  lemma ClashFree(t: Tree, ign: Ignorer, files: map<Path, seq<byte>>, dirs: set<Path>, p: Path)
    requires NoClash(t, ign, files, dirs)
    ensures FileAt(t, ign, p).Some? ==> p !in dirs
    ensures DirAt(t, ign, p).Some? ==> p !in files
  {
  }

  lemma SkippedWrites(t: Tree, ign: Ignorer, at: Path, p: Place, n: NodeId, a: Out)
    requires t.WellFormed() && Entered(t, ign, at, p)
    requires n in t.nodes && t.PlaceOf(n) == p && t.NameOf(n).Some?
    requires !Materializable(t.NameOf(n).value, at + [t.NameOf(n).value], t.KindOf(n) == Some(Dir), ign)
    ensures Wrote(t, ign, Through(t, at, n), a, a)
  {
    forall cs | cs in Through(t, at, n) ensures Shown(t, ign, cs) == None {
      LeafRegion(t, ign, at, p, n, cs);
    }
    WroteNothing(t, ign, Through(t, at, n), a);
  }

  lemma OtherWrites(t: Tree, ign: Ignorer, at: Path, p: Place, n: NodeId, a: Out)
    requires t.WellFormed() && Entered(t, ign, at, p)
    requires n in t.nodes && t.PlaceOf(n) == p && t.NameOf(n).Some?
    requires t.KindOf(n) != Some(Dir) && t.KindOf(n) != Some(File)
    ensures Wrote(t, ign, Through(t, at, n), a, a)
  {
    ChildPathFound(t, at, p, n);
    forall cs | cs in Through(t, at, n) ensures FileAt(t, ign, cs) == None && DirAt(t, ign, cs) == None {
      LeafRegion(t, ign, at, p, n, cs);
    }
    WroteNothing(t, ign, Through(t, at, n), a);
  }

  lemma FileWrites(t: Tree, ign: Ignorer, at: Path, p: Place, n: NodeId, a: Out, b: Out)
    requires t.WellFormed() && Entered(t, ign, at, p)
    requires n in t.nodes && t.PlaceOf(n) == p && t.NameOf(n).Some? && t.KindOf(n) == Some(File)
    requires var key := at + [t.NameOf(n).value];
      && Shown(t, ign, key) == Some(n) && Above(key) <= a.dirs
      && b == Out(a.files[key := Encode(TextOf(t, n))], a.dirs + Above(key), a.planFiles + [(key, n)], a.planDirs)
    ensures Wrote(t, ign, Through(t, at, n), a, b)
  {
    var key := at + [t.NameOf(n).value];
    assert a.dirs + Above(key) == a.dirs;
    forall cs | cs in Through(t, at, n) && cs != key ensures Shown(t, ign, cs) == None {
      LeafRegion(t, ign, at, p, n, cs);
    }
    assert Wrote(t, ign, iset{key}, a, b) by {
      hide Shown, Above;
      assert FileAt(t, ign, key) == Some(n) && DirAt(t, ign, key) == None;
    }
    WroteSame(t, ign, iset{key}, Through(t, at, n), a, b);
  }

  lemma DirWrites(t: Tree, ign: Ignorer, at: Path, n: NodeId, a: Out, b: Out)
    requires t.NameOf(n).Some? && t.KindOf(n) == Some(Dir)
    requires var key := at + [t.NameOf(n).value];
      && Shown(t, ign, key) == Some(n) && Above(key) <= a.dirs
      && b == Out(a.files, a.dirs + Above(key) + {key}, a.planFiles, a.planDirs + [(key, n)])
    ensures Wrote(t, ign, iset{at + [t.NameOf(n).value]}, a, b)
  {
    var key := at + [t.NameOf(n).value];
    hide Shown, Above;
    assert FileAt(t, ign, key) == None && DirAt(t, ign, key) == Some(n);
  }

  lemma SubtreeWrites(t: Tree, ign: Ignorer, at: Path, p: Place, n: NodeId, a: Out, b: Out, c: Out)
    requires t.WellFormed() && t.NameOf(n).Some?
    requires var key := at + [t.NameOf(n).value];
      && Walk(t, Root, key) == Some(Under(n))
      && Wrote(t, ign, iset{key}, a, b) && Wrote(t, ign, ThroughAny(t, key, t.Children(Under(n))), b, c)
    ensures Wrote(t, ign, Through(t, at, n), a, c)
  {
    var key := at + [t.NameOf(n).value];
    var kids := ThroughAny(t, key, t.Children(Under(n)));
    WroteBoth(t, ign, iset{key}, kids, a, b, c);
    forall cs | Shown(t, ign, cs).Some? ensures cs in iset{key} + kids <==> cs in Through(t, at, n) {
      if cs in kids {
        var x :| x in t.Children(Under(n)) && RunsThrough(t, key, x, cs);
        assert key <= key + [t.NameOf(x).value] <= cs;
      } else if key <= cs && cs != key {
        ShownThroughChild(t, ign, key, Under(n), cs);
      }
    }
    WroteSame(t, ign, iset{key} + kids, Through(t, at, n), a, c);
  }

  /**
   Write the whole tree out. The plan and the disk end up with exactly the
   files and directories the tree shows; everything else on disk stays.
   */
  method ExportTree(doc: Doc, ws: Disk, ign: Ignorer) returns (plan: ExportPlan)
    requires doc.Valid() && ws.Valid() && NoClash(doc.Tip(), ign, ws.files, ws.dirs)
    modifies ws
    ensures fresh(plan) && ws.Valid()
    ensures Wrote(doc.Tip(), ign, Everywhere(), Out(old(ws.files), old(ws.dirs), [], []), Snapshot(ws, plan))
  {
    hide Tree.WellFormed, Walk, NoClash, Wrote, Beneath;
    var t := doc.Tip();
    plan := new ExportPlan();
    var roots := t.Children(Root);
    ghost var a := Snapshot(ws, plan);
    WroteNothing(t, ign, ThroughAny(t, [], []), a);
    AtTheTop(t, ign);
    assert roots[..0] == [];
    for i := 0 to |roots|
      invariant ws.Valid() && NoClash(t, ign, ws.files, ws.dirs) && fresh(plan)
      invariant Wrote(t, ign, ThroughAny(t, [], roots[..i]), a, Snapshot(ws, plan))
    {
      ghost var b := Snapshot(ws, plan);
      HangingHolds(t, t.order, Root);
      assert roots[i] in roots;
      if t.NameOf(roots[i]) == Some(EG_DIR) {
        EgHidden(t, ign, roots[i], b);
      } else {
        ExportNode(t, ws, ign, roots[i], [], plan, Root);
      }
      WroteBoth(t, ign, ThroughAny(t, [], roots[..i]), Through(t, [], roots[i]), a, b, Snapshot(ws, plan));
      ThroughMore(t, [], roots, i);
    }
    assert roots[..|roots|] == roots;
    forall cs | Shown(t, ign, cs).Some? ensures cs in ThroughAny(t, [], roots) {
      ShownThroughChild(t, ign, [], Root, cs);
    }
    WroteSame(t, ign, ThroughAny(t, [], roots), Everywhere(), a, Snapshot(ws, plan));
  }

  lemma AtTheTop(t: Tree, ign: Ignorer)
    ensures Entered(t, ign, [], Root) && Walk(t, Root, []) == Some(Root)
  {
  }

  lemma EgHidden(t: Tree, ign: Ignorer, n: NodeId, a: Out)
    requires t.NameOf(n) == Some(EG_DIR)
    ensures Wrote(t, ign, Through(t, [], n), a, a)
  {
    forall p | p in Through(t, [], n) ensures Shown(t, ign, p) == None {
      assert p[0] == ([] + [EG_DIR])[0];
    }
    WroteNothing(t, ign, Through(t, [], n), a);
  }
}
