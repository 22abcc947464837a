/** Finding, at start, what disk and doc already agree on. */
module Seeding {
  import opened Wrappers
  import opened Utf8
  import opened FileTree
  import opened Docs
  import opened Workspaces
  import opened Exports

  /**
   The frontier at which a path last crossed between disk and doc, and the node
   that was there. An ingest sets it even where the doc, having merged, does not
   read as disk does.
   */
  datatype Base = Base(frontier: Frontier, node: NodeId)

  class Tracked {
    var bases: map<Path, Base>
    var dirs: set<Path>

    constructor ()
      ensures bases == map[] && dirs == {}
    {
      bases, dirs := map[], {};
    }
  }

  /** Disk holds at `p` exactly what the tree shows there. */
  ghost predicate FileAgrees(t: Tree, ign: Ignorer, files: map<Path, seq<byte>>, p: Path) {
    p in files && FileAt(t, ign, p).Some? && files[p] == Encode(TextOf(t, FileAt(t, ign, p).value))
  }

  ghost predicate DirAgrees(t: Tree, ign: Ignorer, dirs: set<Path>, p: Path) {
    p in dirs && DirAt(t, ign, p).Some?
  }

  /** One entry of the work list. */
  datatype Visit = Visit(node: NodeId, name: string, parent: Path)

  function VisitKey(v: Visit): Path {
    v.parent + [v.name]
  }

  ghost predicate GoodVisit(t: Tree, ign: Ignorer, v: Visit) {
    && v.node in t.nodes && t.NameOf(v.node) == Some(v.name) && (v.parent == [] ==> v.name != EG_DIR)
    && Entered(t, ign, v.parent, t.PlaceOf(v.node))
  }

  ghost predicate ParentSeen(t: Tree, seen: set<NodeId>, n: NodeId) {
    n in t.nodes && (t.nodes[n].place == Root || (t.nodes[n].place.Under? && t.nodes[n].place.parent in seen))
  }

  /** No node is on the list twice or again, and each hangs from one already seen. */
  ghost predicate Fresh(t: Tree, seen: set<NodeId>, stack: seq<Visit>) {
    && seen <= t.nodes.Keys
    && (forall n | n in seen :: ParentSeen(t, seen, n))
    && (forall v | v in stack :: v.node !in seen && ParentSeen(t, seen, v.node))
    && Distinct(stack)
  }

  predicate Waiting(stack: seq<Visit>, p: Path) {
    exists v | v in stack :: VisitKey(v) <= p
  }

  /** What is tracked agrees, and what agrees is tracked or still on the list. */
  ghost predicate SoFar(t: Tree, ign: Ignorer, files: map<Path, seq<byte>>, ondisk: set<Path>, now: Frontier,
                        stack: seq<Visit>, bases: map<Path, Base>, dirs: set<Path>) {
    && (forall p | p in bases :: FileAgrees(t, ign, files, p) && bases[p] == Base(now, FileAt(t, ign, p).value))
    && (forall p | p in dirs :: DirAgrees(t, ign, ondisk, p))
    && (forall p | FileAgrees(t, ign, files, p) :: p in bases || Waiting(stack, p))
    && (forall p | DirAgrees(t, ign, ondisk, p) :: p in dirs || Waiting(stack, p))
  }

  /** Exactly what agrees is tracked. */
  ghost predicate Seeded(t: Tree, ign: Ignorer, files: map<Path, seq<byte>>, ondisk: set<Path>, now: Frontier,
                         bases: map<Path, Base>, dirs: set<Path>) {
    && (forall p :: p in bases <==> FileAgrees(t, ign, files, p))
    && (forall p | p in bases :: bases[p] == Base(now, FileAt(t, ign, p).value))
    && (forall p :: p in dirs <==> DirAgrees(t, ign, ondisk, p))
  }

  function Visits(t: Tree, ids: seq<NodeId>, parent: Path): seq<Visit> {
    if ids == [] then []
    else (if t.NameOf(ids[0]).Some? then [Visit(ids[0], t.NameOf(ids[0]).value, parent)] else [])
         + Visits(t, ids[1..], parent)
  }

  function NotEg(vs: seq<Visit>): seq<Visit> {
    if vs == [] then [] else (if vs[0].name != EG_DIR then [vs[0]] else []) + NotEg(vs[1..])
  }

  ghost predicate Distinct(vs: seq<Visit>) {
    forall i, j | 0 <= i < j < |vs| :: vs[i].node != vs[j].node
  }

  lemma DistinctCons(v: Visit, rest: seq<Visit>)
    requires Distinct(rest) && forall w | w in rest :: w.node != v.node
    ensures Distinct([v] + rest)
  {
    assert forall j | 0 <= j < |rest| :: rest[j] in rest && ([v] + rest)[j + 1] == rest[j];
  }

  lemma {:induction false} VisitsHold(t: Tree, ids: seq<NodeId>, parent: Path)
    requires forall i, j | 0 <= i < j < |ids| :: ids[i] != ids[j]
    ensures forall v :: v in Visits(t, ids, parent) <==>
      v.node in ids && t.NameOf(v.node) == Some(v.name) && v.parent == parent
    ensures Distinct(Visits(t, ids, parent))
  {
    if ids != [] {
      VisitsHold(t, ids[1..], parent);
      assert forall x :: x in ids <==> x == ids[0] || x in ids[1..];
      assert ids[0] !in ids[1..];
      if t.NameOf(ids[0]).Some? {
        DistinctCons(Visit(ids[0], t.NameOf(ids[0]).value, parent), Visits(t, ids[1..], parent));
      }
    }
  }

  lemma {:induction false} NotEgHolds(vs: seq<Visit>)
    requires Distinct(vs)
    ensures forall v :: v in NotEg(vs) <==> v in vs && v.name != EG_DIR
    ensures Distinct(NotEg(vs))
  {
    if vs != [] {
      NotEgHolds(vs[1..]);
      assert forall x :: x in vs <==> x == vs[0] || x in vs[1..];
      forall w | w in vs[1..] ensures w.node != vs[0].node {
        var k :| 0 <= k < |vs[1..]| && vs[1..][k] == w;
        assert vs[k + 1] == w;
      }
      DistinctCons(vs[0], NotEg(vs[1..]));
    }
  }

  /** Popping a node and pushing what hangs from it keeps the list fresh. */
  lemma FreshPush(t: Tree, seen: set<NodeId>, stack: seq<Visit>, n: NodeId, kids: seq<Visit>)
    requires stack != [] && Fresh(t, seen, stack) && n == stack[|stack| - 1].node
    requires forall v | v in kids :: v.node in t.nodes && t.nodes[v.node].place == Under(n)
    requires Distinct(kids)
    ensures Fresh(t, seen + {n}, stack[..|stack| - 1] + kids)
  {
    var rest := stack[..|stack| - 1];
    assert forall v | v in rest :: v in stack;
    forall v | v in kids ensures v.node !in seen && v.node != n && ParentSeen(t, seen + {n}, v.node)
      ensures forall w | w in stack :: w.node != v.node
    {
      assert v.node in seen ==> ParentSeen(t, seen, v.node);
      forall w | w in stack ensures w.node != v.node {
        assert ParentSeen(t, seen, w.node);
      }
    }
    forall m | m in seen + {n} ensures ParentSeen(t, seen + {n}, m) {
      assert ParentSeen(t, seen, m);
    }
    assert forall v | v in rest :: v.node !in seen + {n};
    forall v | v in rest ensures ParentSeen(t, seen + {n}, v.node) {
      assert ParentSeen(t, seen, v.node);
    }
  }

  lemma PoppedFile(t: Tree, ign: Ignorer, v: Visit, p: Path)
    requires t.WellFormed() && GoodVisit(t, ign, v)
    requires !Materializable(v.name, VisitKey(v), t.KindOf(v.node) == Some(Dir), ign) || t.KindOf(v.node) != Some(Dir)
    requires VisitKey(v) <= p && Shown(t, ign, p).Some?
    ensures p == VisitKey(v) && Shown(t, ign, p) == Some(v.node)
    ensures Materializable(v.name, VisitKey(v), t.KindOf(v.node) == Some(Dir), ign)
  {
    LeafRegion(t, ign, v.parent, t.PlaceOf(v.node), v.node, p);
    ChildPathFound(t, v.parent, t.PlaceOf(v.node), v.node);
  }

  lemma PoppedDir(t: Tree, ign: Ignorer, v: Visit, kids: seq<Visit>, p: Path)
    requires t.WellFormed() && GoodVisit(t, ign, v) && t.KindOf(v.node) == Some(Dir)
    requires Materializable(v.name, VisitKey(v), true, ign)
    requires forall w :: w in kids <==>
      w.node in t.Children(Under(v.node)) && t.NameOf(w.node) == Some(w.name) && w.parent == VisitKey(v)
    ensures DirAt(t, ign, VisitKey(v)) == Some(v.node)
    ensures forall w | w in kids :: GoodVisit(t, ign, w) && t.nodes[w.node].place == Under(v.node)
    ensures VisitKey(v) <= p && Shown(t, ign, p).Some? ==> p == VisitKey(v) || Waiting(kids, p)
  {
    var key := VisitKey(v);
    ShownChild(t, ign, v.parent, t.PlaceOf(v.node), v.node);
    HangingHolds(t, t.order, Under(v.node));
    if key < p && Shown(t, ign, p).Some? {
      ShownThroughChild(t, ign, key, Under(v.node), p);
      var n :| n in t.Children(Under(v.node)) && RunsThrough(t, key, n, p);
      assert Visit(n, t.NameOf(n).value, key) in kids;
      assert VisitKey(Visit(n, t.NameOf(n).value, key)) <= p;
    }
  }

  lemma RootsWait(t: Tree, ign: Ignorer, vs: seq<Visit>, p: Path)
    requires t.WellFormed()
    requires forall v :: v in vs <==>
      v.node in t.Children(Root) && t.NameOf(v.node) == Some(v.name) && v.parent == [] && v.name != EG_DIR
    ensures forall v | v in vs :: GoodVisit(t, ign, v) && ParentSeen(t, {}, v.node)
    ensures Shown(t, ign, p).Some? ==> Waiting(vs, p)
  {
    HangingHolds(t, t.order, Root);
    AtTheTop(t, ign);
    if Shown(t, ign, p).Some? {
      ShownThroughChild(t, ign, [], Root, p);
      var n :| n in t.Children(Root) && RunsThrough(t, [], n, p);
      var v := Visit(n, t.NameOf(n).value, []);
      assert p[0] == ([] + [v.name])[0];
      assert v in vs && VisitKey(v) <= p;
    }
  }

  lemma WaitingSplit(rest: seq<Visit>, v: Visit, kids: seq<Visit>, p: Path)
    ensures Waiting(rest + [v], p) <==> Waiting(rest, p) || VisitKey(v) <= p
    ensures Waiting(rest + kids, p) <==> Waiting(rest, p) || Waiting(kids, p)
  {
  }

  /** Taking off a node that is no directory, or is to be skipped. */
  lemma LeafDone(t: Tree, ign: Ignorer, files: map<Path, seq<byte>>, ondisk: set<Path>, now: Frontier,
                 rest: seq<Visit>, v: Visit, bases: map<Path, Base>, dirs: set<Path>)
    requires t.WellFormed() && GoodVisit(t, ign, v) && SoFar(t, ign, files, ondisk, now, rest + [v], bases, dirs)
    requires !Materializable(v.name, VisitKey(v), t.KindOf(v.node) == Some(Dir), ign) || t.KindOf(v.node) != Some(Dir)
    ensures var key := VisitKey(v);
      if FileAgrees(t, ign, files, key)
      then SoFar(t, ign, files, ondisk, now, rest, bases[key := Base(now, v.node)], dirs)
      else SoFar(t, ign, files, ondisk, now, rest, bases, dirs)
  {
    hide Tree.WellFormed, Walk, GoodVisit, Waiting, Materializable, Encode, Shown;
    var key := VisitKey(v);
    forall p | FileAgrees(t, ign, files, p) || DirAgrees(t, ign, ondisk, p)
      ensures p == key || Waiting(rest, p) || p in bases || p in dirs
      ensures p == key ==> FileAt(t, ign, p) in {Some(v.node), None} && DirAt(t, ign, p) == None
    {
      WaitingSplit(rest, v, [], p);
      assert Shown(t, ign, p).Some?;
      if key <= p {
        PoppedFile(t, ign, v, p);
      }
    }
  }

  lemma LeafAgrees(t: Tree, ign: Ignorer, files: map<Path, seq<byte>>, v: Visit)
    requires t.WellFormed() && GoodVisit(t, ign, v)
    requires !Materializable(v.name, VisitKey(v), t.KindOf(v.node) == Some(Dir), ign) || t.KindOf(v.node) != Some(Dir)
    ensures FileAgrees(t, ign, files, VisitKey(v)) <==>
      && Materializable(v.name, VisitKey(v), false, ign) && t.KindOf(v.node) == Some(File)
      && VisitKey(v) in files && files[VisitKey(v)] == Encode(TextOf(t, v.node))
  {
    hide Tree.WellFormed, Walk, GoodVisit, Materializable, Encode;
    if Materializable(v.name, VisitKey(v), false, ign) && t.KindOf(v.node) == Some(File) {
      ShownVisit(t, ign, v);
    }
    if FileAgrees(t, ign, files, VisitKey(v)) {
      PoppedFile(t, ign, v, VisitKey(v));
    }
  }

  lemma ShownVisit(t: Tree, ign: Ignorer, v: Visit)
    requires t.WellFormed() && GoodVisit(t, ign, v)
    requires Materializable(v.name, VisitKey(v), t.KindOf(v.node) == Some(Dir), ign)
    ensures Shown(t, ign, VisitKey(v)) == Some(v.node)
  {
    ShownChild(t, ign, v.parent, t.PlaceOf(v.node), v.node);
  }

  /** Taking off a directory and putting its children on. */
  lemma DirDone(t: Tree, ign: Ignorer, files: map<Path, seq<byte>>, ondisk: set<Path>, now: Frontier,
                rest: seq<Visit>, v: Visit, kids: seq<Visit>, bases: map<Path, Base>, dirs: set<Path>)
    requires t.WellFormed() && GoodVisit(t, ign, v) && SoFar(t, ign, files, ondisk, now, rest + [v], bases, dirs)
    requires Materializable(v.name, VisitKey(v), true, ign) && t.KindOf(v.node) == Some(Dir)
    requires forall w :: w in kids <==>
      w.node in t.Children(Under(v.node)) && t.NameOf(w.node) == Some(w.name) && w.parent == VisitKey(v)
    ensures SoFar(t, ign, files, ondisk, now, rest + kids, bases,
      if VisitKey(v) in ondisk then dirs + {VisitKey(v)} else dirs)
    ensures forall w | w in kids :: GoodVisit(t, ign, w) && t.nodes[w.node].place == Under(v.node)
  {
    hide Tree.WellFormed, Walk, GoodVisit, Waiting, Materializable, Shown, Encode;
    var key := VisitKey(v);
    PoppedDir(t, ign, v, kids, key);
    forall p | FileAgrees(t, ign, files, p) || DirAgrees(t, ign, ondisk, p)
      ensures Waiting(rest + kids, p) || p in bases || p in dirs || (p == key && DirAt(t, ign, p).Some?)
    {
      WaitingSplit(rest, v, kids, p);
      PoppedDir(t, ign, v, kids, p);
    }
  }

  lemma StartSeed(t: Tree, ign: Ignorer, files: map<Path, seq<byte>>, ondisk: set<Path>, now: Frontier)
    returns (vs: seq<Visit>)
    requires t.WellFormed()
    ensures vs == NotEg(Visits(t, t.Children(Root), []))
    ensures Fresh(t, {}, vs) && forall v | v in vs :: GoodVisit(t, ign, v)
    ensures SoFar(t, ign, files, ondisk, now, vs, map[], {})
  {
    hide Tree.WellFormed, Walk, GoodVisit, Waiting, Shown, Encode;
    KidsHold(t, Root, []);
    vs := NotEg(Visits(t, t.Children(Root), []));
    NotEgHolds(Visits(t, t.Children(Root), []));
    forall p ensures Shown(t, ign, p).Some? ==> Waiting(vs, p)
             ensures forall v | v in vs :: GoodVisit(t, ign, v) && ParentSeen(t, {}, v.node)
    {
      RootsWait(t, ign, vs, p);
    }
    assert forall v | v in vs :: GoodVisit(t, ign, v) && ParentSeen(t, {}, v.node) by {
      RootsWait(t, ign, vs, []);
    }
  }

  lemma KidsHold(t: Tree, p: Place, parent: Path)
    requires t.WellFormed()
    ensures forall v :: v in Visits(t, t.Children(p), parent) <==>
      v.node in t.Children(p) && t.NameOf(v.node) == Some(v.name) && v.parent == parent
    ensures Distinct(Visits(t, t.Children(p), parent))
  {
    HangingApart(t, t.order, p);
    VisitsHold(t, t.Children(p), parent);
  }

  lemma PopOne(t: Tree, seen: set<NodeId>, stack: seq<Visit>)
    requires stack != [] && Fresh(t, seen, stack)
    ensures var v := stack[|stack| - 1];
      && stack == stack[..|stack| - 1] + [v] && v in stack && v.node in t.nodes && v.node !in seen
      && Fresh(t, seen + {v.node}, stack[..|stack| - 1])
      && forall w | w in stack[..|stack| - 1] :: w in stack
  {
    var v := stack[|stack| - 1];
    assert v in stack && ParentSeen(t, seen, v.node);
    FreshPush(t, seen, stack, v.node, []);
    assert stack[..|stack| - 1] + [] == stack[..|stack| - 1];
  }

  /** Track every path on which disk and doc agree right now, and no other. */
  method Seed(doc: Doc, ws: Disk, ign: Ignorer) returns (tracked: Tracked)
    requires doc.Valid() && ws.Valid()
    ensures fresh(tracked)
    ensures Seeded(doc.Tip(), ign, ws.files, ws.dirs, doc.Frontiers(), tracked.bases, tracked.dirs)
  {
    hide Tree.WellFormed, Walk, Shown, Fresh, GoodVisit, SoFar, FileAgrees, Materializable, Waiting, Stamped,
      Carries, Encode;
    var t := doc.Tip();
    var now := doc.Frontiers();
    tracked := new Tracked();
    var roots := t.Children(Root);
    var stack := NotEg(Visits(t, roots, []));
    ghost var seen: set<NodeId> := {};
    ghost var _ := StartSeed(t, ign, ws.files, ws.dirs, now);
    while stack != []
      invariant Fresh(t, seen, stack) && forall v | v in stack :: GoodVisit(t, ign, v)
      invariant fresh(tracked) && seen <= t.nodes.Keys
      invariant SoFar(t, ign, ws.files, ws.dirs, now, stack, tracked.bases, tracked.dirs)
      decreases t.nodes.Keys - seen
    {
      PopOne(t, seen, stack);
      ghost var was := stack;
      var v := stack[|stack| - 1];
      stack := stack[..|stack| - 1];
      var key := VisitKey(v);
      var kind := t.KindOf(v.node);
      if !Materializable(v.name, key, kind == Some(Dir), ign) {
        LeafDone(t, ign, ws.files, ws.dirs, now, stack, v, tracked.bases, tracked.dirs);
        LeafAgrees(t, ign, ws.files, v);
        seen := seen + {v.node};
        continue;
      }
      if kind == Some(Dir) {
        KidsHold(t, Under(v.node), key);
        DirDone(t, ign, ws.files, ws.dirs, now, stack, v, Visits(t, t.Children(Under(v.node)), key), tracked.bases,
          tracked.dirs);
        FreshPush(t, seen, was, v.node, Visits(t, t.Children(Under(v.node)), key));
        if ws.Kind(key) == Some(IsDir) {
          tracked.dirs := tracked.dirs + {key};
        }
        stack := stack + Visits(t, t.Children(Under(v.node)), key);
      } else {
        LeafDone(t, ign, ws.files, ws.dirs, now, stack, v, tracked.bases, tracked.dirs);
        LeafAgrees(t, ign, ws.files, v);
        if kind == Some(File) {
          if ws.ReadFile(key) == Some(Encode(TextOf(t, v.node))) {
            tracked.bases := tracked.bases[key := Base(now, v.node)];
          }
        }
      }
      seen := seen + {v.node};
    }
    SeedDone(t, ign, ws.files, ws.dirs, now, tracked.bases, tracked.dirs);
  }

  lemma SeedDone(t: Tree, ign: Ignorer, files: map<Path, seq<byte>>, ondisk: set<Path>, now: Frontier,
                 bases: map<Path, Base>, dirs: set<Path>)
    requires SoFar(t, ign, files, ondisk, now, [], bases, dirs)
    ensures Seeded(t, ign, files, ondisk, now, bases, dirs)
  {
    hide FileAt, DirAt, Encode;
  }

  /** Seeding right after an export tracks exactly what the export wrote. */
  lemma {:induction false} SeedAfterExport(t: Tree, ign: Ignorer, a: Out, out: Out, now: Frontier,
                                           bases: map<Path, Base>, dirs: set<Path>)
    requires Wrote(t, ign, Everywhere(), a, out) && a.planFiles == [] && a.planDirs == []
    requires Seeded(t, ign, out.files, out.dirs, now, bases, dirs)
    ensures forall p, n: NodeId :: (p, n) in out.planFiles <==> p in bases && bases[p] == Base(now, n)
    ensures forall p :: p in dirs <==> exists n :: (p, n) in out.planDirs
  {
    hide FileAt, DirAt, Encode;
    assert forall p: Path :: p in Everywhere();
    forall p ensures p in dirs <==> exists n :: (p, n) in out.planDirs {
      if p in dirs {
        assert (p, DirAt(t, ign, p).value) in out.planDirs;
      }
    }
    forall p, n: NodeId ensures (p, n) in out.planFiles <==> p in bases && bases[p] == Base(now, n) {
    }
  }
}
