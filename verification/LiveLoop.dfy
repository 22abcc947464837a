/** The live loop: ingest and egress taking turns over doc, disk and bases. */
module LiveLoops {
  import opened Wrappers
  import opened Utf8
  import opened Paths
  import opened FileTree
  import opened Docs
  import opened Workspaces
  import opened Exports
  import opened Seeding
  import opened Watching
  import opened Batches
  import opened BatchEffects
  import opened Pruning

  // ---- which paths a batch of events touches ----

  predicate Touches(events: seq<seq<Path>>, base: Path, rel: Path) {
    exists e | e in events :: base + rel in e
  }

  /** The paths touched under `base`, each once, less the root itself and all of `.eg`. */
  method ChangedPaths(events: seq<seq<Path>>, base: Path) returns (paths: seq<Path>)
    ensures forall rel :: rel in paths <==> Touches(events, base, rel) && rel != [] && rel[0] != EG_DIR
    ensures forall i, j | 0 <= i < j < |paths| :: paths[i] != paths[j]
  {
    paths := [];
    for i := 0 to |events|
      invariant forall rel :: rel in paths <==> Touches(events[..i], base, rel) && rel != [] && rel[0] != EG_DIR
      invariant forall i, j | 0 <= i < j < |paths| :: paths[i] != paths[j]
    {
      var event := events[i];
      for j := 0 to |event|
        invariant forall rel :: rel in paths <==>
          ((Touches(events[..i], base, rel) || base + rel in event[..j]) && rel != [] && rel[0] != EG_DIR)
        invariant forall i, j | 0 <= i < j < |paths| :: paths[i] != paths[j]
      {
        var path := event[j];
        assert event[..j + 1] == event[..j] + [path];
        if !(base <= path) {
          assert forall rel :: base + rel != path;
          continue;
        }
        var rel := path[|base|..];
        assert base + rel == path;
        assert forall r :: base + r == path ==> r == rel;
        if rel == [] || rel[0] == EG_DIR {
          continue;
        }
        if rel !in paths {
          paths := paths + [rel];
        }
      }
      assert events[..i + 1] == events[..i] + [event];
      assert event[..|event|] == event;
    }
    assert events[..|events|] == events;
  }

  // ---- the state of the loop ----

  datatype World = World(history: seq<Tree>, next: NodeId, files: map<Path, seq<byte>>, dirs: set<Path>,
                         bases: map<Path, Base>, kept: set<Path>)

  predicate OutsideEg(p: Path) {
    p != [] && p[0] != EG_DIR
  }

  /** What holds throughout: a sound doc and disk, bases of the doc's past, nothing of `.eg` tracked. */
  ghost predicate GoodWorld(w: World) {
    && GoodHistory(w.history, w.next) && GoodDisk(w.files, w.dirs) && PastBases(w.history, w.bases)
    && (forall p | p in w.bases || p in w.kept :: OutsideEg(p))
  }

  /** What ingest rests on: a directory on disk that has a node has a directory node. */
  ghost predicate Takeable(w: World) {
    w.history != [] && DirsMatch(Last(w.history), w.dirs)
  }

  /** What egress rests on: no path is a file on one side and a directory on the other. */
  ghost predicate Writable(ign: Ignorer, w: World) {
    w.history != [] && NoClash(Last(w.history), ign, w.files, w.dirs)
  }

  /** An unshown directory below which all that is left is tracked and unshown. */
  ghost predicate Cleared(t: Tree, ign: Ignorer, kept: set<Path>, dirs: set<Path>, files': map<Path, seq<byte>>,
                          d: Path) {
    && d in dirs && d in kept && DirAt(t, ign, d) == None
    && (forall p | p in files' :: !(d < p))
    && (forall q | q in dirs && d < q :: q in kept && DirAt(t, ign, q) == None)
  }

  /** Files: what the tree shows is written, and echoes of what it no longer shows are gone. */
  ghost predicate FilesAfter(t: Tree, ign: Ignorer, w: World, files': map<Path, seq<byte>>) {
    && (forall p :: p in files' <==>
          (FileAt(t, ign, p).Some? || (p in w.files && !TrackedEcho(w.history, w.bases, p, w.files[p]))))
    && (forall p | p in files' :: files'[p] ==
          (if FileAt(t, ign, p).Some? then Encode(TextOf(t, FileAt(t, ign, p).value))
            else if p in w.files then w.files[p] else []))
  }

  /** Bases: at the present for what was written, kept for local edits, dropped for the rest. */
  ghost predicate BasesAfter(t: Tree, ign: Ignorer, w: World, bases': map<Path, Base>)
    requires w.history != []
  {
    && (forall p :: p in bases' <==>
          (FileAt(t, ign, p).Some? || (p in w.bases && p in w.files && !IsEcho(w.history, w.bases[p], w.files[p]))))
    && (forall p | p in bases' :: bases'[p] ==
          (if FileAt(t, ign, p).Some? then Base(|w.history| - 1, FileAt(t, ign, p).value)
           else if p in w.bases then w.bases[p] else bases'[p]))
  }

  /** Directories: what the tree shows is there, and what could be cleared is gone. */
  ghost predicate DirsAfter(t: Tree, ign: Ignorer, w: World, files': map<Path, seq<byte>>, dirs': set<Path>,
                            kept': set<Path>) {
    && (forall d :: d in dirs' <==>
          (DirAt(t, ign, d).Some? || (d in w.dirs && !Cleared(t, ign, w.kept, w.dirs, files', d))))
    && (forall d :: d in kept' <==>
          (DirAt(t, ign, d).Some? ||
           (d in w.kept && (d in w.dirs || d in files') && !Cleared(t, ign, w.kept, w.dirs, files', d))))
  }

  /** One export with its prune, start to end. */
  ghost predicate Egressed(ign: Ignorer, w: World, w': World) {
    && w.history != [] && w'.history == w.history && w'.next == w.next
    && FilesAfter(Last(w.history), ign, w, w'.files)
    && BasesAfter(Last(w.history), ign, w, w'.bases)
    && DirsAfter(Last(w.history), ign, w, w'.files, w'.dirs, w'.kept)
  }

  /** Above what the tree shows, it shows directories. */
  lemma ShownAbove(t: Tree, ign: Ignorer, d: Path, q: Path)
    requires t.WellFormed() && d != [] && d < q && Shown(t, ign, q).Some?
    ensures DirAt(t, ign, d).Some?
  {
    hide Tree.WellFormed, Skips;
    assert q == d + q[|d|..];
    WalkConcat(t, Root, d, q[|d|..]);
    var n := NodeAt(t, q).value;
    if Walk(t, Root, d).Some? {
      WalkNotTrash(t, Root, d);
      var m := NodeAt(t, d).value;
      if t.KindOf(m) != Some(Dir) || Skips(ign, d, true) {
        HiddenBelow(t, ign, d, m, q);
      }
    }
  }

  /** The four parts of an egress, put together. */
  lemma {:induction false} EgressAddsUp(ign: Ignorer, w: World, out: Out, mid: map<Path, Base>, w': World)
    requires GoodWorld(w) && w'.history == w.history && w'.next == w.next
    requires Wrote(Last(w.history), ign, Everywhere(), Out(w.files, w.dirs, [], []), out)
    requires MovedUp(out.planFiles, |w.history| - 1, w.bases, mid)
    requires FilesPruned(w.history, PlanPaths(out.planFiles), out.files, mid, w'.files, w'.bases)
    requires var shown := PlanPaths(out.planDirs);
      DirsPruned(w'.files, (w.kept + shown) - shown, out.dirs, w.kept + shown, w'.dirs, w'.kept)
    ensures Egressed(ign, w, w')
  {
    hide Tree.WellFormed, Stamped, Carries, FilesAfter, BasesAfter, Wrote, MovedUp, FilesPruned, DirsPruned, Everywhere;
    EgressFiles(ign, w, out, mid, w');
    EgressBases(ign, w, out, mid, w');
    EgressDirs(ign, w, out, w');
  }

  /** What the four parts do to one path that the tree shows as a file. */
  lemma {:induction false} EgressShown(ign: Ignorer, w: World, out: Out, mid: map<Path, Base>, w': World, p: Path)
    requires w.history != [] && Wrote(Last(w.history), ign, Everywhere(), Out(w.files, w.dirs, [], []), out)
    requires MovedUp(out.planFiles, |w.history| - 1, w.bases, mid)
    requires FilesPruned(w.history, PlanPaths(out.planFiles), out.files, mid, w'.files, w'.bases)
    requires FileAt(Last(w.history), ign, p).Some?
    ensures var n := FileAt(Last(w.history), ign, p).value;
      && p in w'.files && w'.files[p] == Encode(TextOf(Last(w.history), n))
      && p in w'.bases && w'.bases[p] == Base(|w.history| - 1, n)
  {
    hide FileAt, DirAt, IsEcho, Encode;
    var t := Last(w.history);
    assert p in Everywhere() && (p, FileAt(t, ign, p).value) in out.planFiles;
    assert p in PlanPaths(out.planFiles);
  }

  /** ... and to one that it does not. */
  lemma {:induction false} EgressUnshown(ign: Ignorer, w: World, out: Out, mid: map<Path, Base>, w': World, p: Path)
    requires w.history != [] && Wrote(Last(w.history), ign, Everywhere(), Out(w.files, w.dirs, [], []), out)
    requires MovedUp(out.planFiles, |w.history| - 1, w.bases, mid)
    requires FilesPruned(w.history, PlanPaths(out.planFiles), out.files, mid, w'.files, w'.bases)
    requires FileAt(Last(w.history), ign, p) == None
    ensures p in w'.files <==> p in w.files && !TrackedEcho(w.history, w.bases, p, w.files[p])
    ensures p in w'.files ==> w'.files[p] == w.files[p]
    ensures p in w'.bases <==> p in w.bases && p in w.files && !IsEcho(w.history, w.bases[p], w.files[p])
    ensures p in w'.bases ==> w'.bases[p] == w.bases[p]
  {
    hide FileAt, DirAt, IsEcho, Encode;
    forall item | item in out.planFiles ensures item.0 != p {
      assert item == (item.0, item.1);
    }
    assert p in mid <==> p in w.bases;
    assert p in out.files <==> p in w.files;
  }

  lemma {:induction false} EgressFiles(ign: Ignorer, w: World, out: Out, mid: map<Path, Base>, w': World)
    requires w.history != [] && Wrote(Last(w.history), ign, Everywhere(), Out(w.files, w.dirs, [], []), out)
    requires MovedUp(out.planFiles, |w.history| - 1, w.bases, mid)
    requires FilesPruned(w.history, PlanPaths(out.planFiles), out.files, mid, w'.files, w'.bases)
    ensures FilesAfter(Last(w.history), ign, w, w'.files)
  {
    hide FileAt, IsEcho, Encode, Wrote, MovedUp, FilesPruned, Everywhere, TextOf;
    forall p: Path
      ensures FileAt(Last(w.history), ign, p).Some? ==>
        p in w'.files && w'.files[p] == Encode(TextOf(Last(w.history), FileAt(Last(w.history), ign, p).value))
      ensures FileAt(Last(w.history), ign, p).None? ==>
        (p in w'.files <==> p in w.files && !TrackedEcho(w.history, w.bases, p, w.files[p]))
      ensures FileAt(Last(w.history), ign, p).None? && p in w'.files ==> w'.files[p] == w.files[p]
    {
      if FileAt(Last(w.history), ign, p).Some? {
        EgressShown(ign, w, out, mid, w', p);
      } else {
        EgressUnshown(ign, w, out, mid, w', p);
      }
    }
  }

  lemma {:induction false} EgressBases(ign: Ignorer, w: World, out: Out, mid: map<Path, Base>, w': World)
    requires w.history != [] && Wrote(Last(w.history), ign, Everywhere(), Out(w.files, w.dirs, [], []), out)
    requires MovedUp(out.planFiles, |w.history| - 1, w.bases, mid)
    requires FilesPruned(w.history, PlanPaths(out.planFiles), out.files, mid, w'.files, w'.bases)
    ensures BasesAfter(Last(w.history), ign, w, w'.bases)
  {
    hide FileAt, IsEcho, Encode, Wrote, MovedUp, FilesPruned, Everywhere, TextOf;
    forall p: Path
      ensures FileAt(Last(w.history), ign, p).Some? ==>
        p in w'.bases && w'.bases[p] == Base(|w.history| - 1, FileAt(Last(w.history), ign, p).value)
      ensures FileAt(Last(w.history), ign, p).None? ==>
        (p in w'.bases <==> p in w.bases && p in w.files && !IsEcho(w.history, w.bases[p], w.files[p]))
      ensures FileAt(Last(w.history), ign, p).None? && p in w'.bases ==> w'.bases[p] == w.bases[p]
    {
      if FileAt(Last(w.history), ign, p).Some? {
        EgressShown(ign, w, out, mid, w', p);
      } else {
        EgressUnshown(ign, w, out, mid, w', p);
      }
    }
  }

  lemma {:induction false} PlannedPaths(ign: Ignorer, t: Tree, a: Out, out: Out)
    requires Wrote(t, ign, Everywhere(), a, out) && a.planFiles == [] && a.planDirs == []
    ensures forall p :: p in PlanPaths(out.planFiles) <==> FileAt(t, ign, p).Some?
    ensures forall p :: p in PlanPaths(out.planDirs) <==> DirAt(t, ign, p).Some?
    ensures forall p, n :: (p, n) in out.planFiles <==> FileAt(t, ign, p) == Some(n)
    ensures OneNodeEach(out.planFiles)
  {
    hide FileAt, DirAt;
    assert forall p: Path :: p in Everywhere();
    forall p ensures p in PlanPaths(out.planFiles) <==> FileAt(t, ign, p).Some?
             ensures p in PlanPaths(out.planDirs) <==> DirAt(t, ign, p).Some?
    {
      if FileAt(t, ign, p).Some? {
        assert (p, FileAt(t, ign, p).value) in out.planFiles;
      }
      if DirAt(t, ign, p).Some? {
        assert (p, DirAt(t, ign, p).value) in out.planDirs;
      }
    }
  }

  lemma {:induction false} EgressDirs(ign: Ignorer, w: World, out: Out, w': World)
    requires GoodWorld(w)
    requires Wrote(Last(w.history), ign, Everywhere(), Out(w.files, w.dirs, [], []), out)
    requires var shown := PlanPaths(out.planDirs);
      DirsPruned(w'.files, (w.kept + shown) - shown, out.dirs, w.kept + shown, w'.dirs, w'.kept)
    ensures DirsAfter(Last(w.history), ign, w, w'.files, w'.dirs, w'.kept)
  {
    hide Tree.WellFormed, Stamped, Carries, FileAt, DirAt;
    var t := Last(w.history);
    PlannedPaths(ign, t, Out(w.files, w.dirs, [], []), out);
    var candidates := (w.kept + PlanPaths(out.planDirs)) - PlanPaths(out.planDirs);
    assert forall p: Path :: p in Everywhere();
    forall d ensures Clearable(w'.files, out.dirs, candidates, d) <==> Cleared(t, ign, w.kept, w.dirs, w'.files, d) {
      if Cleared(t, ign, w.kept, w.dirs, w'.files, d) {
        NothingShownBelow(ign, w, d);
      }
    }
  }

  lemma NothingShownBelow(ign: Ignorer, w: World, d: Path)
    requires GoodWorld(w) && d in w.dirs && DirAt(Last(w.history), ign, d) == None
    ensures forall q | d < q :: DirAt(Last(w.history), ign, q) == None
  {
    forall q | d < q ensures DirAt(Last(w.history), ign, q) == None {
      if Shown(Last(w.history), ign, q).Some? {
        ShownAbove(Last(w.history), ign, d, q);
      }
    }
  }

  /** One batch of changed paths taken in. */
  ghost predicate Ingested(w: World, w': World, paths: seq<Path>, trace: seq<DocState>) {
    && w'.files == w.files && w'.dirs == w.dirs && w'.kept == w.kept && w'.history != []
    && Run(Source(w.files, w.dirs, w.bases), paths, trace)
    && trace[0] == DocState(w.history, w.next) && trace[|paths|] == DocState(w'.history, w'.next)
    && w.history <= w'.history
    && Advanced(Last(w'.history), |w'.history| - 1, w.files, paths, w.bases, w'.bases)
  }

  lemma IngestedStaysGood(w: World, w': World, paths: seq<Path>, trace: seq<DocState>)
    requires GoodWorld(w) && Ingested(w, w', paths, trace) && GoodHistory(w'.history, w'.next)
    requires forall p | p in paths :: OutsideEg(p)
    ensures GoodWorld(w')
  {
    hide Tree.WellFormed, Stamped, Carries, GoodDisk, Run;
    forall p | p in w'.bases ensures w'.bases[p].frontier < |w'.history| && OutsideEg(p) {
    }
  }

  lemma EgressedStaysGood(ign: Ignorer, w: World, w': World)
    requires GoodWorld(w) && Egressed(ign, w, w') && GoodDisk(w'.files, w'.dirs)
    ensures GoodWorld(w')
  {
    hide Tree.WellFormed, Stamped, Carries, GoodDisk, FilesAfter, Encode, IsEcho, Skips, Cleared;
    var t := Last(w.history);
    assert forall p | FileAt(t, ign, p).Some? || DirAt(t, ign, p).Some? :: OutsideEg(p);
  }

  class LiveLoop {
    const doc: Doc
    const ws: Disk
    const ign: Ignorer
    const tracked: Tracked

    function Now(): World
      reads doc, ws, tracked
    {
      World(doc.history, doc.next, ws.files, ws.dirs, tracked.bases, tracked.dirs)
    }

    /** Start the loop from whatever disk and doc agree on. */
    constructor (doc: Doc, ws: Disk, ign: Ignorer)
      requires doc.Valid() && ws.Valid()
      ensures this.doc == doc && this.ws == ws && this.ign == ign && fresh(tracked)
      ensures GoodWorld(Now())
      ensures Seeded(doc.Tip(), ign, ws.files, ws.dirs, doc.Frontiers(), tracked.bases, tracked.dirs)
    {
      var seeded := Seed(doc, ws, ign);
      this.doc, this.ws, this.ign, this.tracked := doc, ws, ign, seeded;
      new;
      SeededIsGood(ign, Now());
    }

    /** Ingest: merge what the watcher reported in. Says whether egress is to be nudged. */
    method Ingest(events: seq<seq<Path>>, base: Path)
      returns (nudge: bool, ghost paths: seq<Path>, ghost trace: seq<DocState>)
      requires GoodWorld(Now()) && Takeable(Now())
      requires forall e, p | e in events && p in e :: AllValid(p)
      modifies doc, tracked`bases
      ensures GoodWorld(Now())
      ensures forall rel :: rel in paths <==> Touches(events, base, rel) && OutsideEg(rel)
      ensures forall i, j | 0 <= i < j < |paths| :: paths[i] != paths[j]
      ensures Ingested(old(Now()), Now(), paths, trace)
      ensures nudge <==> doc.history != old(doc.history)
    {
      hide Tree.WellFormed, Stamped, Carries, GoodDisk, DirsMatch, NoClash, Run, Applied, AllValid;
      var changed := ChangedPaths(events, base);
      paths := changed;
      ghost var w := Now();
      TouchedAreValid(events, base, paths);
      nudge, trace := ApplyBatch(ws, doc, changed, tracked);
      IngestedStaysGood(w, Now(), paths, trace);
    }

    /** Egress: write the doc out, then prune. */
    method Egress() returns (count: nat)
      requires GoodWorld(Now()) && Writable(ign, Now())
      modifies ws, tracked
      ensures GoodWorld(Now()) && Egressed(ign, old(Now()), Now())
    {
      hide Tree.WellFormed, Stamped, Carries, DirsMatch, NoClash, Wrote, FilesPruned, DirsPruned, MovedUp,
        GoodDisk, Egressed;
      ghost var w := Now();
      var plan := ExportTree(doc, ws, ign);
      ghost var out := Snapshot(ws, plan);
      PlannedPaths(ign, doc.Tip(), Out(w.files, w.dirs, [], []), out);
      ghost var mid;
      count, mid := AdvanceAndPrune(doc, ws, plan, tracked);
      EgressAddsUp(ign, w, out, mid, Now());
      EgressedStaysGood(ign, w, Now());
    }
  }

  lemma SeededIsGood(ign: Ignorer, w: World)
    requires GoodHistory(w.history, w.next) && GoodDisk(w.files, w.dirs)
    requires Seeded(Last(w.history), ign, w.files, w.dirs, |w.history| - 1, w.bases, w.kept)
    ensures GoodWorld(w)
  {
    hide Tree.WellFormed, Stamped, Carries, GoodDisk, Encode, Skips;
  }

  lemma TouchedAreValid(events: seq<seq<Path>>, base: Path, paths: seq<Path>)
    requires forall e, p | e in events && p in e :: AllValid(p)
    requires forall p | p in paths :: Touches(events, base, p) && p != []
    ensures forall p | p in paths :: ValidPath(p)
  {
    forall p | p in paths ensures ValidPath(p) {
      var e :| e in events && base + p in e;
      assert AllValid(base + p);
      assert forall c | c in p :: c in base + p;
    }
  }
}
