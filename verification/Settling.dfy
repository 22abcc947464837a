/** How the loop falls quiet once peers and programs do. */
module Settling {
  import opened Wrappers
  import opened Utf8
  import opened FileTree
  import opened Docs
  import opened Workspaces
  import opened Exports
  import opened Watching
  import opened Batches
  import opened BatchEffects
  import opened LiveLoops
  import opened LoopRuns

  /** A path both sides are to agree on: outside `.eg` and not left out. */
  ghost predicate Ours(ign: Ignorer, p: Path) {
    ValidPath(p) && OutsideEg(p) && !Skips(ign, p, true) && !Skips(ign, p, false)
  }

  predicate There(w: World, p: Path) {
    OnDisk(w.files, w.dirs, p)
  }

  // ---- what an ingest takes in stays taken in ----

  /** What disk has at `p` has a node, or is not text, or is an echo of a deleted node. */
  ghost predicate TakenIn(w: World, p: Path) {
    && w.history != []
    && (p in w.dirs ==> NodeAt(Last(w.history), p).Some?)
    && (p in w.files && Decode(w.files[p]).Some? ==>
          NodeAt(Last(w.history), p).Some? || TrackedEcho(w.history, w.bases, p, w.files[p]))
  }

  lemma {:induction false} BatchKeepsNode(s: Source, paths: seq<Path>, trace: seq<DocState>, p: Path)
    requires Run(s, paths, trace) && trace[0].history != [] && p != [] && OnDisk(s.files, s.dirs, p)
    requires GoodDisk(s.files, s.dirs) && NodeAt(Last(trace[0].history), p).Some?
    ensures trace[|paths|].history != [] && NodeAt(Last(trace[|paths|].history), p).Some?
    decreases |paths|
  {
    hide Tree.WellFormed, Stamped, Carries, Walk, Applied, Decode, GoodDisk;
    if paths != [] {
      RunTail(s, paths, trace);
      var q := paths[0];
      StepPath(s, q, trace[0], trace[1], p);
      if q < p && !OnDisk(s.files, s.dirs, q) {
        AboveOnDisk(s.files, s.dirs, q, p);
      }
      assert q <= p <==> q == p || q < p;
      NodeInTree(Last(trace[0].history), p);
      BatchKeepsNode(s, paths[1..], trace[1..], p);
    }
  }

  lemma TakenThroughIngest(w: World, w': World, paths: seq<Path>, trace: seq<DocState>, p: Path)
    requires GoodWorld(w) && Ingested(w, w', paths, trace) && There(w, p)
    requires TakenIn(w, p) || p in paths
    ensures TakenIn(w', p)
  {
    hide Tree.WellFormed, Stamped, Carries, Run, Walk, IsEcho, Decode;
    var s, t := Source(w.files, w.dirs, w.bases), Last(w.history);
    if NodeAt(t, p).Some? {
      BatchKeepsNode(s, paths, trace, p);
    } else if p in w.dirs {
      assert p in paths && Remakes(w.files, w.dirs, p, p);
      DirComesBack(s, paths, trace, p);
    } else if Decode(w.files[p]).Some? {
      if TrackedEcho(w.history, w.bases, p, w.files[p]) {
        BatchSkipsDead(s, paths, trace, p);
      } else {
        BatchMints(s, paths, trace, p);
      }
    }
  }

  lemma TakenThroughEgress(ign: Ignorer, w: World, w': World, p: Path)
    requires Egressed(ign, w, w') && There(w', p) && (There(w, p) ==> TakenIn(w, p))
    ensures TakenIn(w', p)
  {
    hide Walk, IsEcho, Encode, Decode, Skips, Cleared, BasesAfter;
    var t := Last(w.history);
    if NodeAt(t, p) == None {
      assert FileAt(t, ign, p) == None && DirAt(t, ign, p) == None;
    }
  }

  /** Nobody but the loop itself is at work. */
  predicate LoopAlone(events: seq<Event>) {
    forall e | e in events :: e.Ingest? || e.Egress?
  }

  predicate Reported(events: seq<Event>, i: nat, p: Path)
    requires i <= |events|
  {
    exists k :: 0 <= k < i && events[k].Ingest? && p in events[k].paths
  }

  /** With nobody else at work, what was reported, or was not there to begin with, is taken in. */
  lemma {:induction false} ReportedIsTakenIn(ign: Ignorer, events: seq<Event>, worlds: seq<World>, p: Path, i: nat)
    requires LoopRun(ign, events, worlds) && LoopAlone(events) && i < |worlds| && There(worlds[i], p)
    requires There(worlds[0], p) ==> Reported(events, i, p)
    ensures TakenIn(worlds[i], p)
    decreases i
  {
    hide LoopStep, GoodHistory, GoodDisk, GoodWorld, TakenIn;
    if i > 0 {
      var e, w, w' := events[i - 1], worlds[i - 1], worlds[i];
      AlwaysGood(ign, events, worlds, i - 1);
      assert StepOf(ign, events, worlds, i - 1) && e in events;
      if There(w, p) && (There(worlds[0], p) ==> Reported(events, i - 1, p)) {
        ReportedIsTakenIn(ign, events, worlds, p, i - 1);
      }
      TakenStep(ign, e, w, w', p);
    }
  }

  lemma TakenStep(ign: Ignorer, e: Event, w: World, w': World, p: Path)
    requires GoodWorld(w) && LoopStep(ign, e, w, w') && (e.Ingest? || e.Egress?) && There(w', p)
    requires There(w, p) ==> TakenIn(w, p) || (e.Ingest? && p in e.paths)
    ensures TakenIn(w', p)
  {
    hide GoodHistory, GoodDisk, TakenIn, Egressed, Takeable, Writable, Run, Advanced;
    match e
    case Ingest(paths) =>
      var trace :| Ingested(w, w', paths, trace);
      TakenThroughIngest(w, w', paths, trace, p);
    case Egress =>
      TakenThroughEgress(ign, w, w', p);
  }

  // ---- only files and directories ----

  ghost predicate FilesAndDirs(t: Tree) {
    forall p | NodeAt(t, p).Some? :: t.KindOf(NodeAt(t, p).value) in {Some(File), Some(Dir)}
  }

  lemma {:induction false} BatchKeepsKinds(s: Source, paths: seq<Path>, trace: seq<DocState>)
    requires Run(s, paths, trace) && trace[0].history != [] && FilesAndDirs(Last(trace[0].history))
    ensures trace[|paths|].history != [] && FilesAndDirs(Last(trace[|paths|].history))
    decreases |paths|
  {
    hide Tree.WellFormed, Stamped, Carries, Walk, Applied, Decode, GoodDisk;
    if paths != [] {
      RunTail(s, paths, trace);
      var t, u := Last(trace[0].history), Last(trace[1].history);
      forall p | NodeAt(u, p).Some? ensures u.KindOf(NodeAt(u, p).value) in {Some(File), Some(Dir)} {
        StepPath(s, paths[0], trace[0], trace[1], p);
        if Walk(u, Root, p) == Walk(t, Root, p) {
          NodeInTree(t, p);
          StepNode(s, paths[0], trace[0], trace[1], NodeAt(t, p).value);
        }
      }
      BatchKeepsKinds(s, paths[1..], trace[1..]);
    }
  }

  lemma {:induction false} KindsKept(ign: Ignorer, events: seq<Event>, worlds: seq<World>, i: nat)
    requires LoopRun(ign, events, worlds) && LoopAlone(events) && i < |worlds|
    requires worlds[0].history != [] && FilesAndDirs(Last(worlds[0].history))
    ensures worlds[i].history != [] && FilesAndDirs(Last(worlds[i].history))
    decreases i
  {
    hide GoodHistory, GoodDisk, GoodWorld, FilesAndDirs, FilesAfter, BasesAfter, DirsAfter, Run, Takeable,
      Writable, Advanced;
    if i > 0 {
      KindsKept(ign, events, worlds, i - 1);
      assert StepOf(ign, events, worlds, i - 1) && events[i - 1] in events;
      var w, w' := worlds[i - 1], worlds[i];
      if events[i - 1].Ingest? {
        var trace :| Ingested(w, w', events[i - 1].paths, trace);
        BatchKeepsKinds(Source(w.files, w.dirs, w.bases), events[i - 1].paths, trace);
      }
    }
  }

  lemma SomeHistory(w: World)
    requires GoodWorld(w)
    ensures w.history != []
  {
  }

  // ---- rest ----

  /** Disk and doc agree on every path that is not left out. */
  ghost predicate Settled(ign: Ignorer, w: World) {
    && GoodWorld(w) && w.history != [] && FilesAndDirs(Last(w.history))
    && forall p | Ours(ign, p) :: InStep(Last(w.history), ign, w.files, w.dirs, p)
  }

  /** An egress brings a path into step if what was on disk there had been taken in. */
  lemma EgressSettles(ign: Ignorer, w: World, w': World, p: Path)
    requires Writable(ign, w) && Egressed(ign, w, w') && GoodDisk(w'.files, w'.dirs) && FilesAndDirs(Last(w.history))
    requires Ours(ign, p) && (There(w, p) ==> TakenIn(w, p))
    ensures InStep(Last(w'.history), ign, w'.files, w'.dirs, p)
  {
    hide Walk, IsEcho, Encode, Decode, Skips, Cleared, BasesAfter;
    var t := Last(w.history);
    match NodeAt(t, p)
    case None =>
      assert FileAt(t, ign, p) == None && DirAt(t, ign, p) == None;
    case Some(n) =>
      assert FileAt(t, ign, p) == Some(n) || DirAt(t, ign, p) == Some(n);
  }

  ghost predicate SameOurs(ign: Ignorer, w: World, w': World) {
    && w'.history == w.history && w'.next == w.next
    && forall p | Ours(ign, p) ::
         && (p in w'.files <==> p in w.files) && (p in w.files ==> w'.files[p] == w.files[p])
         && (p in w'.dirs <==> p in w.dirs)
  }

  lemma SettledIsTakenIn(ign: Ignorer, w: World, p: Path)
    requires Settled(ign, w) && Ours(ign, p)
    ensures TakenIn(w, p)
  {
    hide Walk, IsEcho, Encode, Decode, Skips, GoodWorld;
    assert InStep(Last(w.history), ign, w.files, w.dirs, p);
  }

  /** In step, a path stays as it is through an egress. */
  lemma InStepSame(ign: Ignorer, w: World, w': World, p: Path)
    requires Egressed(ign, w, w') && InStep(Last(w.history), ign, w.files, w.dirs, p)
    requires InStep(Last(w'.history), ign, w'.files, w'.dirs, p)
    ensures (p in w'.files <==> p in w.files) && (p in w.files ==> w'.files[p] == w.files[p])
      && (p in w'.dirs <==> p in w.dirs)
  {
    hide Walk, Encode, Decode, Skips, DirsAfter, BasesAfter;
    var t := Last(w.history);
    if Binary(t, w.files, p) && TrackedEcho(w.history, w.bases, p, w.files[p]) {
      var text := ContentAt(w.history, w.bases[p].node, w.bases[p].frontier).value;
      Utf8Codec(text, w.files[p]);
    }
  }

  lemma StaysSettled(ign: Ignorer, e: Event, w: World, w': World)
    requires Settled(ign, w) && LoopStep(ign, e, w, w')
      && (e.Egress? || (e.Ingest? && forall p | p in e.paths :: Ours(ign, p)))
    ensures Settled(ign, w') && SameOurs(ign, w, w')
  {
    hide GoodHistory, GoodDisk, GoodWorld, FilesAndDirs, InStep, Ours, FilesAfter, BasesAfter, DirsAfter, Run,
      Takeable, Writable;
    hide Advanced;
    StepStaysGood(ign, e, w, w');
    match e
    case Ingest(paths) =>
      var trace :| Ingested(w, w', paths, trace);
      EchoFixpoint(Source(w.files, w.dirs, w.bases), ign, paths, trace);
    case Egress =>
      forall p | Ours(ign, p)
        ensures InStep(Last(w'.history), ign, w'.files, w'.dirs, p)
        ensures (p in w'.files <==> p in w.files) && (p in w.files ==> w'.files[p] == w.files[p])
          && (p in w'.dirs <==> p in w.dirs)
      {
        SettledIsTakenIn(ign, w, p);
        EgressSettles(ign, w, w', p);
        InStepSame(ign, w, w', p);
      }
  }

  /**
   The loop falls quiet. Once neither peers nor programs change anything, and
   every path then on disk (but for those left out) has been reported, the next
   egress leaves disk and doc agreeing on every path that is not left out; and
   whatever such paths are reported from then on, and however often the doc is
   written out, neither changes again, so that no ingest nudges.
   */
  lemma {:induction false} LoopFallsQuiet(ign: Ignorer, events: seq<Event>, worlds: seq<World>, m: nat, i: nat)
    requires LoopRun(ign, events, worlds) && LoopAlone(events) && m < i < |worlds| && events[m].Egress?
    requires FilesAndDirs(Last(worlds[0].history))
    requires forall p | Ours(ign, p) && There(worlds[0], p) :: Reported(events, m, p)
    requires forall k, p | m < k < i && events[k].Ingest? && p in events[k].paths :: Ours(ign, p)
    ensures Settled(ign, worlds[i]) && worlds[i].history == worlds[m].history && SameOurs(ign, worlds[m + 1], worlds[i])
    decreases i
  {
    hide GoodHistory, GoodDisk, GoodWorld, FilesAndDirs, InStep, Ours, FilesAfter, BasesAfter, DirsAfter, Run,
      Takeable, Writable;
    hide Advanced, TakenIn, There, Reported, Ingested;
    assert StepOf(ign, events, worlds, i - 1) && events[i - 1] in events;
    AlwaysGood(ign, events, worlds, i);
    SomeHistory(worlds[0]);
    if i == m + 1 {
      KindsKept(ign, events, worlds, m);
      forall p | Ours(ign, p) ensures InStep(Last(worlds[i].history), ign, worlds[i].files, worlds[i].dirs, p) {
        if There(worlds[m], p) {
          ReportedIsTakenIn(ign, events, worlds, p, m);
        }
        EgressSettles(ign, worlds[m], worlds[i], p);
      }
    } else {
      LoopFallsQuiet(ign, events, worlds, m, i - 1);
      StaysSettled(ign, events[i - 1], worlds[i - 1], worlds[i]);
    }
  }
}
