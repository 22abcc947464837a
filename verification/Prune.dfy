/** After an export: moving the bases up, and removing what the doc no longer shows. */
module Pruning {
  import opened Wrappers
  import opened FileTree
  import opened Docs
  import opened Workspaces
  import opened Exports
  import opened Seeding
  import opened Watching

  /** A tracked file the export did not write, whose bytes are still those of its base. */
  predicate Stale(h: seq<Tree>, files: map<Path, seq<byte>>, bases: map<Path, Base>, written: set<Path>, p: Path) {
    p in bases && p !in written && p in files && IsEcho(h, bases[p], files[p])
  }

  /** The file pass: stale files go, with their bases, as do the bases of files already gone. */
  ghost predicate FilesPruned(h: seq<Tree>, written: set<Path>, files: map<Path, seq<byte>>, bases: map<Path, Base>,
                              files': map<Path, seq<byte>>, bases': map<Path, Base>) {
    && (forall p :: p in files' <==> p in files && !Stale(h, files, bases, written, p))
    && (forall p | p in files' :: files'[p] == files[p])
    && (forall p :: p in bases' <==> p in bases && (p in written || (p in files && !IsEcho(h, bases[p], files[p]))))
    && (forall p | p in bases' :: bases'[p] == bases[p])
  }

  method PruneFiles(doc: Doc, ws: Disk, written: set<Path>, tracked: Tracked)
    requires doc.Valid() && ws.Valid()
    modifies ws`files, tracked`bases
    ensures ws.Valid()
    ensures FilesPruned(doc.history, written, old(ws.files), old(tracked.bases), ws.files, tracked.bases)
  {
    hide Tree.WellFormed, Stamped, Carries, IsEcho;
    var candidates := set p | p in tracked.bases && p !in written;
    ghost var all := candidates;
    var files, bases := ws.files, tracked.bases;
    while candidates != {}
      invariant candidates <= all && ws.Valid()
      invariant forall p | p in candidates :: (p in ws.files <==> p in files) && p in tracked.bases
      invariant forall p :: p in ws.files <==>
        p in files && !(Stale(doc.history, files, bases, written, p) && p !in candidates)
      invariant forall p | p in ws.files :: ws.files[p] == files[p]
      invariant forall p :: p in tracked.bases <==>
        (p in bases && (p in candidates || p in written || (p in files && !IsEcho(doc.history, bases[p], files[p]))))
      invariant forall p | p in tracked.bases :: tracked.bases[p] == bases[p]
      decreases candidates
    {
      var rel :| rel in candidates;
      candidates := candidates - {rel};
      var base := tracked.bases[rel];
      var disk := ws.ReadFile(rel);
      if disk.None? {
        tracked.bases := tracked.bases - {rel};
        continue;
      }
      if !IsEcho(doc.history, base, disk.value) {
        continue;
      }
      var again := ws.ReadFile(rel);
      if again.Some? && IsEcho(doc.history, base, again.value) {
        var gone := ws.RemoveFile(rel);
        if gone {
          tracked.bases := tracked.bases - {rel};
        }
      }
    }
  }

  // ---- directories, deepest first ----

  /** Nothing lies below `d` but candidate directories. */
  ghost predicate Clearable(files: map<Path, seq<byte>>, dirs: set<Path>, candidates: set<Path>, d: Path) {
    && d in dirs && d in candidates
    && (forall p | p in files :: !(d < p))
    && (forall q | q in dirs && d < q :: q in candidates)
  }

  /** The directory pass: just the directories that can be emptied go. */
  ghost predicate DirsPruned(files: map<Path, seq<byte>>, candidates: set<Path>, dirs: set<Path>, kept: set<Path>,
                             dirs': set<Path>, kept': set<Path>) {
    && (forall d :: d in dirs' <==> d in dirs && !Clearable(files, dirs, candidates, d))
    && (forall d :: d in kept' <==>
         d in kept && !(d in candidates && ((d !in dirs && d !in files) || Clearable(files, dirs, candidates, d))))
  }

  lemma {:induction false} DeepestExists(s: set<Path>)
    requires s != {}
    ensures exists p :: p in s && forall q | q in s :: |q| <= |p|
    decreases s
  {
    var x :| x in s;
    if s != {x} {
      DeepestExists(s - {x});
      var p :| p in s - {x} && forall q | q in s - {x} :: |q| <= |p|;
      assert forall q | q in s && |q| > |p| :: q == x;
      assert p in s && x in s;
    }
  }

  /** `order` lists the candidates once each, none before a deeper one. */
  ghost predicate DepthOrder(order: seq<Path>, candidates: set<Path>) {
    && (forall p :: p in order <==> p in candidates)
    && (forall i, j | 0 <= i < j < |order| :: |order[j]| <= |order[i]| && order[i] != order[j])
  }

  ghost function Firsts(order: seq<Path>, i: nat): set<Path>
    requires i <= |order|
  {
    set p | p in order[..i]
  }

  method DeepestFirst(candidates: set<Path>) returns (order: seq<Path>)
    ensures DepthOrder(order, candidates)
  {
    order := [];
    var rest := candidates;
    while rest != {}
      invariant rest <= candidates && forall p :: p in order <==> p in candidates && p !in rest
      invariant forall p, q | p in order && q in rest :: |q| <= |p|
      invariant forall i, j | 0 <= i < j < |order| :: |order[j]| <= |order[i]| && order[i] != order[j]
      decreases rest
    {
      DeepestExists(rest);
      var p :| p in rest && forall q | q in rest :: |q| <= |p|;
      order, rest := order + [p], rest - {p};
    }
  }

  /** What is left of the directories once the candidates in `done` were tried. */
  ghost predicate Tried(files: map<Path, seq<byte>>, dirs: set<Path>, candidates: set<Path>, done: set<Path>,
                        now: set<Path>) {
    forall d :: d in now <==> d in dirs && !(d in done && Clearable(files, dirs, candidates, d))
  }

  /** Tried deepest first, a directory is empty by then exactly if all below it could be cleared. */
  lemma EmptyIfClearable(files: map<Path, seq<byte>>, dirs: set<Path>, candidates: set<Path>, done: set<Path>,
                         now: set<Path>, d: Path)
    requires GoodDisk(files, dirs) && Tried(files, dirs, candidates, done, now)
    requires d in candidates && d in dirs && d !in done
    requires forall q | q in candidates && |d| < |q| :: q in done
    ensures NothingIn(files, now, d) <==> Clearable(files, dirs, candidates, d)
  {
    if Clearable(files, dirs, candidates, d) {
      forall q | q in now && Parent(q) == d ensures false {
        ChildClearable(files, dirs, candidates, d, q);
      }
      assert forall q | q in files && Parent(q) == d :: d < q;
    } else {
      StillHolds(files, dirs, candidates, done, now, d);
    }
  }

  lemma ChildClearable(files: map<Path, seq<byte>>, dirs: set<Path>, candidates: set<Path>, d: Path, q: Path)
    requires Clearable(files, dirs, candidates, d) && q in dirs && d < q
    ensures Clearable(files, dirs, candidates, q)
  {
    assert forall p | p in files && q < p :: d < p;
    assert forall p | p in dirs && q < p :: d < p;
  }

  /** A directory that cannot be cleared holds something, directly, that is still there. */
  lemma StillHolds(files: map<Path, seq<byte>>, dirs: set<Path>, candidates: set<Path>, done: set<Path>,
                   now: set<Path>, d: Path)
    requires GoodDisk(files, dirs) && Tried(files, dirs, candidates, done, now)
    requires d in candidates && d in dirs && !Clearable(files, dirs, candidates, d)
    ensures !NothingIn(files, now, d)
  {
    var x :| d < x && (x in files || (x in dirs && x !in candidates));
    var c := x[..|d| + 1];
    assert Parent(c) == d && d < c <= x;
    if c != x {
      AboveAreDirs(files, dirs, x);
      assert c in Above(x);
      assert c < x;
    }
    assert c in files || c in now;
  }

  /** One candidate: forgotten if it is gone, removed if it is empty, and otherwise kept for later. */
  method PruneDir(ws: Disk, rel: Path, tracked: Tracked)
    requires ws.Valid()
    modifies ws`dirs, tracked`dirs
    ensures ws.Valid()
    ensures var empty := rel in old(ws.dirs) && old(ws.Empty(rel));
      && ws.dirs == (if empty then old(ws.dirs) - {rel} else old(ws.dirs))
      && tracked.dirs == (if empty || !(rel in ws.files || rel in old(ws.dirs)) then old(tracked.dirs) - {rel}
           else old(tracked.dirs))
  {
    match ws.Kind(rel)
    case None =>
      tracked.dirs := tracked.dirs - {rel};
    case Some(IsDir) =>
      if ws.Empty(rel) {
        var gone := ws.RemoveDir(rel);
        if gone {
          tracked.dirs := tracked.dirs - {rel};
        }
      }
    case Some(IsFile) =>
  }

  /** Which of the tracked directories are kept once the candidates in `done` were tried. */
  ghost predicate KeptSoFar(files: map<Path, seq<byte>>, dirs: set<Path>, candidates: set<Path>, done: set<Path>,
                            kept: set<Path>, now: set<Path>) {
    forall d :: d in now <==>
      (d in kept && !(d in done && ((d !in dirs && d !in files) || Clearable(files, dirs, candidates, d))))
  }

  lemma {:induction false} TriedOne(files: map<Path, seq<byte>>, dirs: set<Path>, candidates: set<Path>,
                                    done: set<Path>, d: Path, kept: set<Path>, now: set<Path>, track: set<Path>,
                                    now': set<Path>, track': set<Path>)
    requires GoodDisk(files, dirs) && Tried(files, dirs, candidates, done, now)
      && KeptSoFar(files, dirs, candidates, done, kept, track)
    requires d in candidates && d !in done && forall q | q in candidates && |d| < |q| :: q in done
    requires var empty := d in now && NothingIn(files, now, d);
      && now' == (if empty then now - {d} else now)
      && track' == (if empty || !(d in files || d in now) then track - {d} else track)
    ensures Tried(files, dirs, candidates, done + {d}, now')
      && KeptSoFar(files, dirs, candidates, done + {d}, kept, track')
  {
    assert Clearable(files, dirs, candidates, d) ==> d in dirs;
    if d in dirs {
      EmptyIfClearable(files, dirs, candidates, done, now, d);
    }
    hide Clearable, NothingIn;
  }

  method PruneDirs(ws: Disk, written: set<Path>, tracked: Tracked)
    requires ws.Valid()
    modifies ws`dirs, tracked`dirs
    ensures ws.Valid()
    ensures DirsPruned(ws.files, old(tracked.dirs) - written, old(ws.dirs), old(tracked.dirs), ws.dirs, tracked.dirs)
  {
    hide Clearable, Tried, KeptSoFar, GoodDisk, NothingIn, DirsPruned, DepthOrder, Firsts;
    var candidates := set p | p in tracked.dirs && p !in written;
    assert candidates == tracked.dirs - written;
    var order := DeepestFirst(candidates);
    ghost var dirs, kept := ws.dirs, tracked.dirs;
    NoneTried(ws.files, dirs, candidates, kept, order);
    for i := 0 to |order|
      invariant ws.Valid() && Tried(ws.files, dirs, candidates, Firsts(order, i), ws.dirs)
      invariant KeptSoFar(ws.files, dirs, candidates, Firsts(order, i), kept, tracked.dirs)
    {
      ghost var now, track := ws.dirs, tracked.dirs;
      PruneDir(ws, order[i], tracked);
      DeeperFirst(order, candidates, i);
      TriedOne(ws.files, dirs, candidates, Firsts(order, i), order[i], kept, now, track, ws.dirs, tracked.dirs);
    }
    AllTried(ws.files, dirs, candidates, kept, ws.dirs, tracked.dirs, order);
  }

  lemma NoneTried(files: map<Path, seq<byte>>, dirs: set<Path>, candidates: set<Path>, kept: set<Path>,
                  order: seq<Path>)
    ensures Tried(files, dirs, candidates, Firsts(order, 0), dirs)
      && KeptSoFar(files, dirs, candidates, Firsts(order, 0), kept, kept)
  {
  }

  lemma AllTried(files: map<Path, seq<byte>>, dirs: set<Path>, candidates: set<Path>, kept: set<Path>, now: set<Path>,
                 track: set<Path>, order: seq<Path>)
    requires DepthOrder(order, candidates) && Tried(files, dirs, candidates, Firsts(order, |order|), now)
    requires KeptSoFar(files, dirs, candidates, Firsts(order, |order|), kept, track)
    ensures DirsPruned(files, candidates, dirs, kept, now, track)
  {
    assert order[..|order|] == order;
    assert Firsts(order, |order|) == candidates;
    assert forall d | Clearable(files, dirs, candidates, d) :: d in candidates;
    hide Clearable;
  }

  lemma DeeperFirst(order: seq<Path>, candidates: set<Path>, i: nat)
    requires i < |order| && DepthOrder(order, candidates)
    ensures order[i] in candidates && order[i] !in Firsts(order, i)
    ensures Firsts(order, i + 1) == Firsts(order, i) + {order[i]}
    ensures forall q | q in candidates && |order[i]| < |q| :: q in Firsts(order, i)
  {
    assert order[..i + 1] == order[..i] + [order[i]];
    forall q | q in candidates && |order[i]| < |q| ensures q in order[..i] {
      var k :| 0 <= k < |order| && order[k] == q;
    }
  }

  // ---- advance and prune ----

  function PlanPaths(items: seq<(Path, NodeId)>): set<Path> {
    set item | item in items :: item.0
  }

  ghost predicate OneNodeEach(items: seq<(Path, NodeId)>) {
    forall x, y | x in items && y in items && x.0 == y.0 :: x == y
  }

  /** The bases once every written file agrees with the doc at `now`. */
  ghost predicate MovedUp(items: seq<(Path, NodeId)>, now: Frontier, bases: map<Path, Base>, bases': map<Path, Base>) {
    && bases'.Keys == bases.Keys + PlanPaths(items)
    && (forall item | item in items :: bases'[item.0] == Base(now, item.1))
    && (forall p | p in bases && p !in PlanPaths(items) :: bases'[p] == bases[p])
  }

  /** Record what an export wrote. */
  method Advance(doc: Doc, plan: ExportPlan, tracked: Tracked) returns (files: set<Path>, dirs: set<Path>)
    requires doc.Valid() && OneNodeEach(plan.files)
    modifies tracked
    ensures files == PlanPaths(plan.files) && dirs == PlanPaths(plan.dirs)
    ensures MovedUp(plan.files, doc.Frontiers(), old(tracked.bases), tracked.bases)
    ensures tracked.dirs == old(tracked.dirs) + dirs
  {
    hide Tree.WellFormed, Stamped, Carries, MovedUp, PlanPaths, OneNodeEach;
    var now := doc.Frontiers();
    files, dirs := {}, {};
    MovedNone(plan.files, plan.dirs, now, tracked.bases);
    for i := 0 to |plan.files|
      invariant files == PlanPaths(plan.files[..i]) && tracked.dirs == old(tracked.dirs)
      invariant MovedUp(plan.files[..i], now, old(tracked.bases), tracked.bases)
    {
      var (path, node) := plan.files[i];
      PlanMore(plan.files, i);
      MovedOneMore(plan.files, i, now, old(tracked.bases), tracked.bases);
      files := files + {path};
      tracked.bases := tracked.bases[path := Base(now, node)];
    }
    assert plan.files[..|plan.files|] == plan.files;
    for i := 0 to |plan.dirs|
      invariant dirs == PlanPaths(plan.dirs[..i]) && tracked.dirs == old(tracked.dirs) + dirs
      invariant MovedUp(plan.files, now, old(tracked.bases), tracked.bases)
    {
      PlanMore(plan.dirs, i);
      dirs := dirs + {plan.dirs[i].0};
      tracked.dirs := tracked.dirs + {plan.dirs[i].0};
    }
    assert plan.dirs[..|plan.dirs|] == plan.dirs;
  }

  lemma MovedNone(files: seq<(Path, NodeId)>, dirs: seq<(Path, NodeId)>, now: Frontier, bases: map<Path, Base>)
    ensures MovedUp(files[..0], now, bases, bases) && PlanPaths(files[..0]) == {} == PlanPaths(dirs[..0])
  {
  }

  lemma MovedOneMore(items: seq<(Path, NodeId)>, i: nat, now: Frontier, bases: map<Path, Base>, mid: map<Path, Base>)
    requires i < |items| && OneNodeEach(items) && MovedUp(items[..i], now, bases, mid)
    ensures MovedUp(items[..i + 1], now, bases, mid[items[i].0 := Base(now, items[i].1)])
  {
    PlanMore(items, i);
    hide PlanPaths;
    assert items[i] in items;
  }

  lemma PlanMore(items: seq<(Path, NodeId)>, i: nat)
    requires i < |items|
    ensures PlanPaths(items[..i + 1]) == PlanPaths(items[..i]) + {items[i].0}
    ensures forall x :: x in items[..i + 1] <==> x in items[..i] || x == items[i]
    ensures forall x | x in items[..i + 1] :: x in items
  {
    assert items[..i + 1] == items[..i] + [items[i]];
    assert items[i] in items[..i + 1];
    assert forall x | x in items[..i] :: x in items[..i + 1];
  }

  /**
   Move the tracked maps up to what an export just wrote, then remove what it
   did not write. Says how many files were written.
   */
  method AdvanceAndPrune(doc: Doc, ws: Disk, plan: ExportPlan, tracked: Tracked)
    returns (count: nat, ghost bases: map<Path, Base>)
    requires doc.Valid() && ws.Valid() && OneNodeEach(plan.files)
    modifies ws, tracked
    ensures ws.Valid() && count == |PlanPaths(plan.files)|
    ensures MovedUp(plan.files, doc.Frontiers(), old(tracked.bases), bases)
    ensures FilesPruned(doc.history, PlanPaths(plan.files), old(ws.files), bases, ws.files, tracked.bases)
    ensures var kept := old(tracked.dirs) + PlanPaths(plan.dirs);
      DirsPruned(ws.files, kept - PlanPaths(plan.dirs), old(ws.dirs), kept, ws.dirs, tracked.dirs)
  {
    hide Tree.WellFormed, Stamped, Carries, FilesPruned, DirsPruned, MovedUp, GoodDisk;
    var files, dirs := Advance(doc, plan, tracked);
    bases := tracked.bases;
    PruneFiles(doc, ws, files, tracked);
    PruneDirs(ws, dirs, tracked);
    count := |files|;
  }
}
