/** Whole runs of the live loop, with peers and local programs editing in between. */
module LoopRuns {
  import opened Wrappers
  import opened Utf8
  import opened SharedText
  import opened FileTree
  import opened Docs
  import opened Workspaces
  import opened Exports
  import opened Imports
  import opened Watching
  import opened Batches
  import opened BatchEffects
  import opened LiveLoops

  datatype Event = Ingest(paths: seq<Path>) | Egress | PeerEdits | DiskEdits

  /** One event. Peers may extend the doc and programs may change the disk as they like. */
  ghost predicate LoopStep(ign: Ignorer, e: Event, w: World, w': World) {
    && w.history != [] && GoodHistory(w'.history, w'.next) && GoodDisk(w'.files, w'.dirs)
    && match e
       case Ingest(paths) =>
         && Takeable(w) && (forall p | p in paths :: OutsideEg(p) && ValidPath(p))
         && exists trace :: Ingested(w, w', paths, trace)
       case Egress => Writable(ign, w) && Egressed(ign, w, w')
       case PeerEdits =>
         w.history <= w'.history && w.next <= w'.next && w' == w.(history := w'.history, next := w'.next)
       case DiskEdits => w' == w.(files := w'.files, dirs := w'.dirs)
  }

  ghost predicate StepOf(ign: Ignorer, events: seq<Event>, worlds: seq<World>, i: int) {
    0 <= i < |events| && |worlds| == |events| + 1 && LoopStep(ign, events[i], worlds[i], worlds[i + 1])
  }

  ghost predicate LoopRun(ign: Ignorer, events: seq<Event>, worlds: seq<World>) {
    && |worlds| == |events| + 1 && GoodWorld(worlds[0])
    && forall i | 0 <= i < |events| :: StepOf(ign, events, worlds, i)
  }

  lemma {:induction false} StepStaysGood(ign: Ignorer, e: Event, w: World, w': World)
    requires GoodWorld(w) && LoopStep(ign, e, w, w')
    ensures GoodWorld(w')
  {
    hide Tree.WellFormed, Stamped, Carries, GoodDisk, Egressed, Ingested, Takeable, Writable;
    match e
    case Ingest(paths) =>
      var trace :| Ingested(w, w', paths, trace);
      IngestedStaysGood(w, w', paths, trace);
    case Egress => EgressedStaysGood(ign, w, w');
    case _ =>
  }

  /** In every state of every run, the bases are of the doc's past and nothing of `.eg` is tracked. */
  lemma {:induction false} AlwaysGood(ign: Ignorer, events: seq<Event>, worlds: seq<World>, i: nat)
    requires LoopRun(ign, events, worlds) && i < |worlds|
    ensures GoodWorld(worlds[i])
    ensures forall p | p in worlds[i].bases || p in worlds[i].kept :: OutsideEg(p)
    decreases i
  {
    hide LoopStep, GoodHistory, GoodDisk;
    if i > 0 {
      AlwaysGood(ign, events, worlds, i - 1);
      assert StepOf(ign, events, worlds, i - 1);
      StepStaysGood(ign, events[i - 1], worlds[i - 1], worlds[i]);
    }
  }

  // ---- a deleted file does not come back ----

  /** The doc has no node at `p`; a file still there is an unmodified echo. */
  ghost predicate Dead(w: World, p: Path) {
    w.history != [] && DeadAt(Last(w.history), w.history, w.files, w.dirs, w.bases, p)
  }

  predicate EgressBefore(events: seq<Event>, i: nat)
    requires i <= |events|
  {
    exists k :: 0 <= k < i && events[k].Egress?
  }

  /** Nothing is left of `p`, not even a base to hold a new file against. */
  predicate Forgotten(w: World, p: Path) {
    p !in w.files && p !in w.bases
  }

  /** Nobody else puts anything at `p`. */
  ghost predicate NotRemade(e: Event, w: World, w': World, p: Path) {
    && (e.PeerEdits? ==> w'.history != [] && NodeAt(Last(w'.history), p) == None)
    && (e.DiskEdits? ==> p !in w'.dirs && (p in w'.files ==> p in w.files && w'.files[p] == w.files[p]))
  }

  lemma DeadStays(ign: Ignorer, e: Event, w: World, w': World, p: Path)
    requires GoodWorld(w) && LoopStep(ign, e, w, w') && Dead(w, p) && NotRemade(e, w, w', p)
    ensures Dead(w', p) && (Forgotten(w, p) || e.Egress? ==> Forgotten(w', p))
  {
    hide Tree.WellFormed, Stamped, Carries, GoodDisk, Run, Walk, IsEcho, Encode, DirsAfter, Takeable, Writable;
    match e
    case Ingest(paths) =>
      var trace :| Ingested(w, w', paths, trace);
      BatchSkipsDead(Source(w.files, w.dirs, w.bases), paths, trace, p);
    case Egress =>
      DeadAfterEgress(ign, w, w', p);
    case PeerEdits =>
      if p in w.files {
        EchoLasts(w.history, w'.history, w.bases[p], w.files[p]);
      }
    case DiskEdits =>
  }

  lemma DeadAfterEgress(ign: Ignorer, w: World, w': World, p: Path)
    requires Egressed(ign, w, w') && Dead(w, p)
    ensures Dead(w', p) && Forgotten(w', p)
  {
    hide Tree.WellFormed, Walk, IsEcho, Encode, Skips, Cleared;
    assert FileAt(Last(w.history), ign, p) == None && DirAt(Last(w.history), ign, p) == None;
  }

  /**
   No resurrection. However ingest, egress, peers and programs interleave, a
   file whose node is gone and whose bytes are those last written never gets a
   node again, and from the first egress on it is off the disk for good and its
   base dropped, so that what a program should write there is new.
   */
  lemma {:induction false} NoResurrection(ign: Ignorer, events: seq<Event>, worlds: seq<World>, p: Path, i: nat)
    requires LoopRun(ign, events, worlds) && i < |worlds| && Dead(worlds[0], p)
    requires forall k | 0 <= k < |events| :: NotRemade(events[k], worlds[k], worlds[k + 1], p)
    ensures Dead(worlds[i], p)
    ensures EgressBefore(events, i) ==> Forgotten(worlds[i], p)
    decreases i
  {
    hide LoopStep, GoodHistory, GoodDisk, Dead, NotRemade, Forgotten;
    if i > 0 {
      NoResurrection(ign, events, worlds, p, i - 1);
      AlwaysGood(ign, events, worlds, i - 1);
      assert StepOf(ign, events, worlds, i - 1);
      DeadStays(ign, events[i - 1], worlds[i - 1], worlds[i], p);
    }
  }

  /**
   A local delete is forgotten too: once its ingest reports it, whatever is
   written at the path is held against no base, and counts as new even if it
   reads as before.
   */
  lemma DeleteIsForgotten(w: World, w': World, paths: seq<Path>, trace: seq<DocState>, p: Path, later: World)
    requires GoodWorld(w) && Ingested(w, w', paths, trace) && ValidPath(p) && p in paths
    requires p !in w.files && p !in w.dirs
    requires later.history == w'.history && later.bases == w'.bases && p in later.files
    ensures Forgotten(w', p) && w'.history != [] && NodeAt(Last(w'.history), p) == None && Raced(later, p)
  {
    hide Tree.WellFormed, Stamped, Carries, GoodDisk, Run, Walk, IsEcho;
    BatchDeletes(Source(w.files, w.dirs, w.bases), paths, trace, p);
  }

  // ---- an edit wins over a delete ----

  /** The doc has no node at `p`, but the file there was edited since it was written. */
  ghost predicate Raced(w: World, p: Path) {
    w.history != [] && RacedAt(Last(w.history), w.history, w.files, w.bases, p)
  }

  /** Nothing takes `p` in, and nobody else touches it. */
  ghost predicate NotTaken(e: Event, w: World, w': World, p: Path) {
    && (e.Ingest? ==> p !in e.paths)
    && (e.PeerEdits? ==> w'.history != [] && NodeAt(Last(w'.history), p) == None)
    && (e.DiskEdits? ==> p in w.files && p in w'.files && w'.files[p] == w.files[p])
  }

  lemma RacedStays(ign: Ignorer, e: Event, w: World, w': World, p: Path)
    requires GoodWorld(w) && LoopStep(ign, e, w, w') && NotTaken(e, w, w', p)
    requires Raced(w, p)
    ensures Raced(w', p) && w'.files[p] == w.files[p]
  {
    hide Tree.WellFormed, Stamped, Carries, GoodDisk, Run, Walk, IsEcho, Encode, Decode, DirsAfter, Takeable, Writable;
    match e
    case Ingest(paths) =>
      var trace :| Ingested(w, w', paths, trace);
      BatchKeepsRaced(Source(w.files, w.dirs, w.bases), paths, trace, p);
    case Egress =>
      RacedAfterEgress(ign, w, w', p);
    case PeerEdits =>
      if p in w.bases {
        EchoLasts(w.history, w'.history, w.bases[p], w.files[p]);
      }
    case DiskEdits =>
  }

  lemma RacedAfterEgress(ign: Ignorer, w: World, w': World, p: Path)
    requires Egressed(ign, w, w') && Raced(w, p)
    ensures Raced(w', p) && w'.files[p] == w.files[p]
  {
    hide Tree.WellFormed, Walk, IsEcho, Encode, Skips, DirsAfter;
    assert FileAt(Last(w.history), ign, p) == None;
  }

  /** An edited file whose node is gone, be it text or not, outlasts every egress, byte for byte. */
  lemma {:induction false} RacedLasts(ign: Ignorer, events: seq<Event>, worlds: seq<World>, p: Path, i: nat)
    requires LoopRun(ign, events, worlds) && i < |worlds| && Raced(worlds[0], p)
    requires forall k | 0 <= k < i :: NotTaken(events[k], worlds[k], worlds[k + 1], p)
    ensures Raced(worlds[i], p) && worlds[i].files[p] == worlds[0].files[p]
    decreases i
  {
    hide LoopStep, GoodHistory, GoodDisk, NotTaken;
    if i > 0 {
      RacedLasts(ign, events, worlds, p, i - 1);
      AlwaysGood(ign, events, worlds, i - 1);
      assert StepOf(ign, events, worlds, i - 1);
      RacedStays(ign, events[i - 1], worlds[i - 1], worlds[i], p);
    }
  }

  /**
   Edit wins over delete. An edited text file whose node is gone outlasts every
   egress, byte for byte, and the first ingest that reports it mints one new
   file node reading exactly those bytes.
   */
  lemma EditWins(ign: Ignorer, events: seq<Event>, worlds: seq<World>, p: Path, i: nat)
    requires LoopRun(ign, events, worlds) && i < |events| && Raced(worlds[0], p) && Decode(worlds[0].files[p]).Some?
    requires forall k | 0 <= k < i :: NotTaken(events[k], worlds[k], worlds[k + 1], p)
    requires events[i].Ingest? && p in events[i].paths
    ensures Raced(worlds[i], p) && worlds[i].files[p] == worlds[0].files[p]
    ensures worlds[i].history != [] && worlds[i + 1].history != []
    ensures NewNodeAt(Last(worlds[i].history), Last(worlds[i + 1].history), p, File, Decode(worlds[0].files[p]).value)
  {
    hide Tree.WellFormed, Stamped, Carries, GoodDisk, Run, Walk, IsEcho, Encode, Decode, Egressed, Takeable,
      NewNodeAt, NotTaken;
    RacedLasts(ign, events, worlds, p, i);
    AlwaysGood(ign, events, worlds, i);
    assert StepOf(ign, events, worlds, i);
    var w, w', paths := worlds[i], worlds[i + 1], events[i].paths;
    var trace :| Ingested(w, w', paths, trace);
    BatchMints(Source(w.files, w.dirs, w.bases), paths, trace, p);
  }

  // ---- a local edit and a peer's edit of one file ----

  /**
   Three-way merge, through the loop. When `p` is ingested after a local edit,
   every character a peer put in since the base of `p` is still there, and
   with nothing landed since, the file reads exactly what disk says.
   */
  lemma {:induction false} IngestMerges(w: World, w': World, paths: seq<Path>, trace: seq<DocState>, p: Path,
                                        n: NodeId, live: Text)
    returns (base: Frontier, now: nat, out: Text)
    requires GoodWorld(w) && Ingested(w, w', paths, trace)
    requires forall i, j | 0 <= i < j < |paths| :: paths[i] != paths[j]
    requires p in paths && p in w.files && Decode(w.files[p]).Some?
    requires LiveAt(Last(w.history), p, n, live) && Visible(live) != Decode(w.files[p]).value
    ensures BaseFor(w.history, w.bases, p, n, live, base)
    ensures w'.history != [] && LiveAt(Last(w'.history), p, n, out)
    ensures |Before(out, now)| == |live|
    ensures forall i | 0 <= i < |live| && live[i].born > base :: Before(out, now)[i] == live[i]
    ensures forall i | 0 <= i < |live| && Before(out, now)[i] != live[i] :: AliveAt(live[i], base)
    ensures UpTo(live, base) ==> Visible(out) == Decode(w.files[p]).value
  {
    hide Tree.WellFormed, Carries, GoodDisk, Walk, IsEcho, Encode, Decode, MergedIn, Advanced;
    base, now, out := BatchMerges(Source(w.files, w.dirs, w.bases), paths, trace, p, n, live);
    assert Stamped(Last(w.history), |w.history| - 1, w.next);
    IngestKeepsPeerEdits(live, base, Decode(w.files[p]).value, now, out);
  }

  // ---- the loop falls quiet ----

  /**
   After an egress that left nothing on disk at the given paths but what the
   doc shows, ingesting them changes nothing: the loop does not nudge itself.
   */
  lemma EgressThenQuiet(ign: Ignorer, w: World, w': World, w'': World, paths: seq<Path>, trace: seq<DocState>)
    requires GoodWorld(w) && Egressed(ign, w, w') && GoodWorld(w') && Ingested(w', w'', paths, trace)
    requires forall p | p in paths :: ValidPath(p) && OutsideEg(p) && !Skips(ign, p, true) && !Skips(ign, p, false)
    requires var t := Last(w.history);
      forall p | p in paths ::
        && (p in w'.files ==> FileAt(t, ign, p).Some?) && (p in w'.dirs ==> DirAt(t, ign, p).Some?)
        && (NodeAt(t, p).Some? ==> t.KindOf(NodeAt(t, p).value) in {Some(File), Some(Dir)})
    ensures w''.history == w'.history && w''.next == w'.next
  {
    hide Tree.WellFormed, Stamped, Carries, GoodDisk, Walk, IsEcho, Encode, Skips, Step, Cleared, BasesAfter;
    var t := Last(w.history);
    forall p | p in paths ensures InStep(t, ign, w'.files, w'.dirs, p) {
    }
    EchoFixpoint(Source(w'.files, w'.dirs, w'.bases), ign, paths, trace);
  }

  // ---- a deleted subtree leaves the disk ----

  /**
   One egress takes a whole deleted subtree off the disk, if all of it is
   tracked and unmodified.
   */
  lemma {:induction false} SubtreeGone(ign: Ignorer, w: World, w': World, top: Path)
    requires GoodWorld(w) && Egressed(ign, w, w') && top != [] && Walk(Last(w.history), Root, top) == None
    requires forall p | p in w.files && top <= p :: TrackedEcho(w.history, w.bases, p, w.files[p])
    requires forall d | d in w.dirs && top <= d :: d in w.kept
    ensures forall p | top <= p :: p !in w'.files && p !in w'.dirs && p !in w'.kept
  {
    hide Tree.WellFormed, Stamped, Carries, GoodDisk, Walk, IsEcho, Encode, Skips, BasesAfter;
    var t := Last(w.history);
    forall p | top <= p ensures FileAt(t, ign, p) == None && DirAt(t, ign, p) == None {
      NothingThere(t, top, p);
    }
    forall p | top <= p ensures p !in w'.files {
    }
    forall d | top <= d ensures d !in w'.dirs {
      if d in w.dirs {
        assert Cleared(t, ign, w.kept, w.dirs, w'.files, d);
      }
    }
  }

  /** Egress takes off the disk only unmodified echoes, and directories nothing is left in. */
  lemma EgressRemovesOnly(ign: Ignorer, w: World, w': World, p: Path)
    requires GoodWorld(w) && Egressed(ign, w, w')
    ensures p in w.files && p !in w'.files ==>
      FileAt(Last(w.history), ign, p) == None && TrackedEcho(w.history, w.bases, p, w.files[p])
    ensures p in w.dirs && p !in w'.dirs ==>
      p in w.kept && forall q | p < q :: q !in w'.files && q !in w'.dirs
  {
    hide Tree.WellFormed, Stamped, Carries, GoodDisk, Walk, IsEcho, Encode, Skips, BasesAfter, Shown;
    var t := Last(w.history);
    if p in w.dirs && p !in w'.dirs {
      forall q | p < q ensures q !in w'.dirs {
        NothingShownBelow(ign, w, p);
        if q in w.dirs {
          assert Cleared(t, ign, w.kept, w.dirs, w'.files, q) by {
            assert forall r | r in w'.files && q < r :: p < r;
            assert forall r | r in w.dirs && q < r :: p < r;
          }
        }
      }
    }
  }

  // ---- a deleted directory, and when it stays away ----

  /** The doc has nothing at `top`; what disk has there and below is tracked and unmodified. */
  ghost predicate Fallen(w: World, top: Path) {
    && w.history != [] && top != [] && top !in w.files && NodeAt(Last(w.history), top) == None
    && (forall p | p in w.files && top <= p :: TrackedEcho(w.history, w.bases, p, w.files[p]))
    && (forall d | d in w.dirs && top <= d :: d in w.kept)
  }

  /** Nothing is left at `top` or below, neither on disk nor among the tracked directories. */
  ghost predicate Bare(w: World, top: Path) {
    forall p | p in w.files || p in w.dirs || p in w.kept :: !(top <= p)
  }

  /** Nobody else puts anything at `top` or below. */
  ghost predicate NothingAdded(e: Event, w: World, w': World, top: Path) {
    && (e.PeerEdits? ==> w'.history != [] && NodeAt(Last(w'.history), top) == None)
    && (e.DiskEdits? ==>
          && (forall p | p in w'.files && top <= p :: p in w.files && w'.files[p] == w.files[p])
          && (forall d | d in w'.dirs && top <= d :: d in w.dirs))
  }

  lemma NoNodeNoWalk(t: Tree, top: Path)
    requires top != [] && NodeAt(t, top) == None
    ensures Walk(t, Root, top) == None
  {
    if Walk(t, Root, top).Some? {
      WalkNotTrash(t, Root, top);
    }
  }

  lemma FallenThroughIngest(w: World, w': World, paths: seq<Path>, trace: seq<DocState>, top: Path)
    requires GoodWorld(w) && Ingested(w, w', paths, trace)
    requires Fallen(w, top) && !Revives(w.files, w.dirs, top, paths)
    ensures Fallen(w', top)
  {
    hide Tree.WellFormed, Stamped, Carries, GoodDisk, Run, Walk, IsEcho, Revives;
    var t := Last(w'.history);
    DirStaysAway(Source(w.files, w.dirs, w.bases), paths, trace, top);
    NoNodeNoWalk(t, top);
    forall p | p in w.files && top <= p ensures TrackedEcho(w'.history, w'.bases, p, w.files[p]) {
      NothingThere(t, top, p);
      EchoLasts(w.history, w'.history, w.bases[p], w.files[p]);
    }
  }

  lemma FallenStays(ign: Ignorer, e: Event, w: World, w': World, top: Path)
    requires GoodWorld(w) && LoopStep(ign, e, w, w') && Fallen(w, top) && NothingAdded(e, w, w', top)
    requires e.Ingest? ==> !Revives(w.files, w.dirs, top, e.paths)
    ensures Fallen(w', top) && (Bare(w, top) || e.Egress? ==> Bare(w', top))
  {
    hide Tree.WellFormed, Stamped, Carries, GoodDisk, Run, Walk, IsEcho, Encode, Takeable, Writable, Egressed, Revives;
    match e
    case Ingest(paths) =>
      var trace :| Ingested(w, w', paths, trace);
      FallenThroughIngest(w, w', paths, trace, top);
    case Egress =>
      NoNodeNoWalk(Last(w.history), top);
      SubtreeGone(ign, w, w', top);
      SameDoc(ign, w, w');
    case PeerEdits =>
      forall p | p in w.files && top <= p ensures TrackedEcho(w'.history, w'.bases, p, w.files[p]) {
        EchoLasts(w.history, w'.history, w.bases[p], w.files[p]);
      }
    case DiskEdits =>
  }

  lemma SameDoc(ign: Ignorer, w: World, w': World)
    requires Egressed(ign, w, w')
    ensures w'.history == w.history && w'.next == w.next
  {
  }

  lemma BareRevivesNothing(w: World, top: Path, paths: seq<Path>)
    requires Bare(w, top)
    ensures !Revives(w.files, w.dirs, top, paths)
  {
  }

  /**
   A deleted directory whose contents are tracked and unmodified is off the disk
   for good from the first egress on, provided that no ingest before it reports
   the directory, one below it or a text file below it. `DirComesBack` says that
   any such report does bring it back.
   */
  lemma {:induction false} DirGoneForGood(ign: Ignorer, events: seq<Event>, worlds: seq<World>, top: Path, i: nat)
    requires LoopRun(ign, events, worlds) && i < |worlds| && Fallen(worlds[0], top)
    requires forall k | 0 <= k < |events| :: NothingAdded(events[k], worlds[k], worlds[k + 1], top)
    requires forall k | 0 <= k < |events| && events[k].Ingest? && !EgressBefore(events, k) ::
      !Revives(worlds[k].files, worlds[k].dirs, top, events[k].paths)
    ensures Fallen(worlds[i], top)
    ensures EgressBefore(events, i) ==> Bare(worlds[i], top)
    decreases i
  {
    hide LoopStep, GoodHistory, GoodDisk, Fallen, Bare, NothingAdded, Revives;
    if i > 0 {
      DirGoneForGood(ign, events, worlds, top, i - 1);
      AlwaysGood(ign, events, worlds, i - 1);
      assert StepOf(ign, events, worlds, i - 1);
      if events[i - 1].Ingest? && EgressBefore(events, i - 1) {
        BareRevivesNothing(worlds[i - 1], top, events[i - 1].paths);
      }
      FallenStays(ign, events[i - 1], worlds[i - 1], worlds[i], top);
    }
  }
}
