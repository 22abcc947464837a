/**
 What becomes of paths that are left out. Import, export and seeding pass them
 over, but ingest does not ask, so a left-out file that is reported is taken in;
 the next egress does not write it and so prunes it.
 */
module LeftOut {
  import opened Wrappers
  import opened Utf8
  import opened SharedText
  import opened FileTree
  import opened Docs
  import opened Workspaces
  import opened Exports
  import opened Seeding
  import opened Watching
  import opened Batches
  import opened BatchEffects
  import opened LiveLoops
  import opened LoopRuns
  import opened Crossings

  lemma SkippedShowsNoFile(t: Tree, ign: Ignorer, p: Path)
    requires Skips(ign, p, false)
    ensures FileAt(t, ign, p) == None
  {
  }

  ghost predicate Echoed(w: World, p: Path) {
    p in w.files && TrackedEcho(w.history, w.bases, p, w.files[p])
  }

  predicate Reports(e: Event, p: Path) {
    e.Ingest? && p in e.paths
  }

  /** Programs neither write nor remove `p`, and no ingest reports it while it is there. */
  ghost predicate LeftAlone(e: Event, w: World, w': World, p: Path) {
    && (e.DiskEdits? ==> SameFile(w, w', p))
    && (p in w.files ==> !Reports(e, p))
  }

  predicate SameFile(w: World, w': World, p: Path) {
    (p in w'.files <==> p in w.files) && (p in w.files ==> w'.files[p] == w.files[p])
  }

  /** Unreported, a left-out file goes at an egress if it is an echo, and else stays as it is. */
  lemma UnreportedStep(ign: Ignorer, e: Event, w: World, w': World, p: Path)
    requires GoodWorld(w) && LoopStep(ign, e, w, w') && Skips(ign, p, false) && LeftAlone(e, w, w', p)
    ensures if e.Egress? && Echoed(w, p) then p !in w'.files
            else SameFile(w, w', p) && (Echoed(w', p) <==> Echoed(w, p))
    ensures p in w.files && p !in w.bases ==> p !in w'.bases
  {
    hide Tree.WellFormed, Stamped, Carries, GoodDisk, Run, Walk, IsEcho, Encode, DirsAfter, Takeable, Writable, Skips;
    SkippedShowsNoFile(Last(w.history), ign, p);
    match e
    case Ingest(paths) =>
      var trace :| Ingested(w, w', paths, trace);
      if p in w.bases {
        EchoLasts(w.history, w'.history, w.bases[p], if p in w.files then w.files[p] else []);
      }
    case PeerEdits =>
      if p in w.bases {
        EchoLasts(w.history, w'.history, w.bases[p], if p in w.files then w.files[p] else []);
      }
    case _ =>
  }

  /**
   A left-out file nobody tracks is safe for as long as no ingest reports it,
   whether or not the doc knows the path and whatever peers do.
   */
  lemma {:induction false} LeftOutIsSafe(ign: Ignorer, events: seq<Event>, worlds: seq<World>, p: Path, i: nat)
    requires LoopRun(ign, events, worlds) && i < |worlds| && Skips(ign, p, false)
    requires p in worlds[0].files && p !in worlds[0].bases
    requires forall k | 0 <= k < i :: LeftAlone(events[k], worlds[k], worlds[k + 1], p)
    ensures p in worlds[i].files && worlds[i].files[p] == worlds[0].files[p] && p !in worlds[i].bases
    decreases i
  {
    hide LoopStep, GoodWorld, LeftAlone, Skips;
    if i > 0 {
      LeftOutIsSafe(ign, events, worlds, p, i - 1);
      AlwaysGood(ign, events, worlds, i - 1);
      assert StepOf(ign, events, worlds, i - 1);
      UnreportedStep(ign, events[i - 1], worlds[i - 1], worlds[i], p);
    }
  }

  predicate EgressIn(events: seq<Event>, i: nat, j: nat)
    requires i <= j <= |events|
  {
    exists k :: i <= k < j && events[k].Egress?
  }

  /** From any state on, a left-out file that is let be goes for good at the first egress if an echo, and else never. */
  lemma {:induction false} EchoGoes(ign: Ignorer, events: seq<Event>, worlds: seq<World>, p: Path, i: nat, j: nat)
    requires LoopRun(ign, events, worlds) && i <= j < |worlds| && Skips(ign, p, false) && p in worlds[i].files
    requires forall k | i <= k < j :: LeftAlone(events[k], worlds[k], worlds[k + 1], p)
    ensures p !in worlds[j].files <==> Echoed(worlds[i], p) && EgressIn(events, i, j)
    ensures p in worlds[j].files ==>
      worlds[j].files[p] == worlds[i].files[p] && (Echoed(worlds[j], p) <==> Echoed(worlds[i], p))
    decreases j
  {
    hide LoopStep, GoodWorld, LeftAlone, Skips, Echoed;
    if i < j {
      EchoGoes(ign, events, worlds, p, i, j - 1);
      AlwaysGood(ign, events, worlds, j - 1);
      assert StepOf(ign, events, worlds, j - 1);
      UnreportedStep(ign, events[j - 1], worlds[j - 1], worlds[j], p);
      assert EgressIn(events, i, j) <==> EgressIn(events, i, j - 1) || events[j - 1].Egress?;
    }
  }

  // ---- what a report does ----

  /** The doc reads at `p` exactly what disk holds. */
  ghost predicate Alike(w: World, p: Path) {
    w.history != [] && NodeAt(Last(w.history), p).Some? && Agrees(w, p, NodeAt(Last(w.history), p).value)
  }

  lemma ReportedEcho(w: World, w': World, paths: seq<Path>, trace: seq<DocState>, p: Path)
    requires GoodWorld(w) && Ingested(w, w', paths, trace) && p in paths && p in w.files
    requires NodeAt(Last(w'.history), p).Some?
    ensures Echoed(w', p) <==> Alike(w', p)
  {
    hide Tree.WellFormed, Stamped, Carries, GoodDisk, Run, Walk, Encode;
    assert w'.bases[p] == Base(|w'.history| - 1, NodeAt(Last(w'.history), p).value);
  }

  /** Ingest takes the file in: it is text, and what the doc has there, if anything, is a file. */
  ghost predicate TakesIn(w: World, p: Path)
    requires w.history != []
  {
    && p in w.files && Decode(w.files[p]).Some?
    && (NodeAt(Last(w.history), p) == None || TextNow(Last(w.history), NodeAt(Last(w.history), p).value).Some?)
  }

  /** A node that is no file stays what it is under a file on disk. */
  lemma {:induction false} BatchKeepsOdd(s: Source, paths: seq<Path>, trace: seq<DocState>, p: Path, n: NodeId)
    requires Run(s, paths, trace) && trace[0].history != [] && GoodDisk(s.files, s.dirs) && p in s.files
    requires NodeAt(Last(trace[0].history), p) == Some(n) && TextNow(Last(trace[0].history), n) == None
    requires n in Last(trace[0].history).nodes
    ensures trace[|paths|].history != [] && NodeAt(Last(trace[|paths|].history), p) == Some(n)
    ensures TextNow(Last(trace[|paths|].history), n) == None
    decreases |paths|
  {
    hide Tree.WellFormed, Stamped, Carries, Walk, GoodDisk;
    if paths != [] {
      RunTail(s, paths, trace);
      OddStep(s, paths[0], trace[0], trace[1], p, n);
      BatchKeepsOdd(s, paths[1..], trace[1..], p, n);
    }
  }

  lemma OddStep(s: Source, q: Path, a: DocState, b: DocState, p: Path, n: NodeId)
    requires Step(s, q, a, b) && p in s.files && n in Last(a.history).nodes
    requires NodeAt(Last(a.history), p) == Some(n) && TextNow(Last(a.history), n) == None
    ensures NodeAt(Last(b.history), p) == Some(n) && n in Last(b.history).nodes && TextNow(Last(b.history), n) == None
  {
    hide Tree.WellFormed, Stamped, Carries, Walk, Edited, Encode, Decode;
    var t := Last(a.history);
    NodeInTree(t, p);
    assert q <= p <==> q == p || q < p;
    StepPath(s, q, a, b, p);
    StepNode(s, q, a, b, n);
    if q < p && !OnDisk(s.files, s.dirs, q) {
      AboveOnDisk(s.files, s.dirs, q, p);
    }
    if q != p && NodeAt(t, q) == Some(n) {
      NodeInTree(t, q);
      PathUnique(t, p, q);
    }
  }

  /** Reported, an untracked file becomes an echo exactly when ingest takes it in; then the doc reads as disk does. */
  lemma {:induction false} UntrackedTaken(w: World, w': World, paths: seq<Path>, trace: seq<DocState>, p: Path)
    requires GoodWorld(w) && Ingested(w, w', paths, trace) && p in paths && p in w.files && p !in w.bases
    requires forall a, b | 0 <= a < b < |paths| :: paths[a] != paths[b]
    ensures Echoed(w', p) <==> TakesIn(w, p)
    ensures TakesIn(w, p) ==> Alike(w', p)
  {
    hide Tree.WellFormed, Carries, Stamped, GoodDisk, Run, Walk, Encode, Decode, MergedIn, IsEcho, Echoed;
    var t := Last(w.history);
    if Decode(w.files[p]) == None {
      NotTextNoEcho(w', p);
    } else if TakesIn(w, p) {
      TakenIsAlike(w, w', paths, trace, p);
      ReportedEcho(w, w', paths, trace, p);
    } else {
      NodeInTree(t, p);
      BatchKeepsOdd(Source(w.files, w.dirs, w.bases), paths, trace, p, NodeAt(t, p).value);
      ReportedEcho(w, w', paths, trace, p);
    }
  }

  lemma NotTextNoEcho(w: World, p: Path)
    requires p in w.files && Decode(w.files[p]) == None
    ensures !Echoed(w, p)
  {
    if Echoed(w, p) {
      Utf8Codec(ContentAt(w.history, w.bases[p].node, w.bases[p].frontier).value, w.files[p]);
    }
  }

  lemma {:induction false} TakenIsAlike(w: World, w': World, paths: seq<Path>, trace: seq<DocState>, p: Path)
    requires GoodWorld(w) && Ingested(w, w', paths, trace) && p in paths && p !in w.bases && TakesIn(w, p)
    requires forall a, b | 0 <= a < b < |paths| :: paths[a] != paths[b]
    ensures Alike(w', p)
  {
    hide Tree.WellFormed, Carries, GoodDisk, Run, Walk, Encode, Decode, MergedIn, IsEcho;
    var s, t, text := Source(w.files, w.dirs, w.bases), Last(w.history), Decode(w.files[p]).value;
    Utf8Codec(text, w.files[p]);
    if NodeAt(t, p) == None {
      BatchMints(s, paths, trace, p);
    } else {
      var n := NodeAt(t, p).value;
      var live := t.nodes[n].content.value;
      if Visible(live) == text {
        BatchLeavesAgreeing(s, paths, trace, p, n, live);
      } else {
        var base, now, out := BatchMerges(s, paths, trace, p, n, live);
        assert Stamped(t, |w.history| - 1, w.next);
        IngestKeepsPeerEdits(live, base, text, now, out);
      }
    }
  }

  /**
   Whatever the doc or the bases had at a left-out path before: once reported,
   with a node to show for it, the file is off the disk from the next egress on if
   and only if the ingest left disk and doc alike. Peers, reports of other paths
   and programs elsewhere may do what they like in between.
   */
  lemma ReportedAlikeGoes(ign: Ignorer, events: seq<Event>, worlds: seq<World>, p: Path, i: nat, j: nat)
    requires LoopRun(ign, events, worlds) && i < j < |worlds| && Skips(ign, p, false)
    requires p in worlds[i].files && Reports(events[i], p)
    requires worlds[i + 1].history != [] && NodeAt(Last(worlds[i + 1].history), p).Some?
    requires forall k | i < k < j :: LeftAlone(events[k], worlds[k], worlds[k + 1], p)
    ensures p !in worlds[j].files <==> Alike(worlds[i + 1], p) && EgressIn(events, i + 1, j)
    ensures p in worlds[j].files ==> worlds[j].files[p] == worlds[i].files[p]
  {
    hide GoodWorld, LeftAlone, Skips, Echoed, Alike, Run, Advanced, Takeable, GoodHistory;
    AlwaysGood(ign, events, worlds, i);
    assert StepOf(ign, events, worlds, i);
    var trace :| Ingested(worlds[i], worlds[i + 1], events[i].paths, trace);
    ReportedEcho(worlds[i], worlds[i + 1], events[i].paths, trace, p);
    EchoGoes(ign, events, worlds, p, i + 1, j);
  }

  /**
   An untracked left-out file is safe until it is reported. From then on it is
   off the disk once an egress has come, for good, if and only if it was text and
   what the doc had at its path at the report, if anything, was a file.
   */
  lemma {:induction false} LeftOutGoesOnceReported(ign: Ignorer, events: seq<Event>, worlds: seq<World>, p: Path,
                                                   i: nat, j: nat)
    requires LoopRun(ign, events, worlds) && i < j < |worlds| && Skips(ign, p, false)
    requires p in worlds[0].files && p !in worlds[0].bases && Reports(events[i], p)
    requires forall a, b | 0 <= a < b < |events[i].paths| :: events[i].paths[a] != events[i].paths[b]
    requires forall k | 0 <= k < j && k != i :: LeftAlone(events[k], worlds[k], worlds[k + 1], p)
    ensures p in worlds[i].files && worlds[i].files[p] == worlds[0].files[p] && worlds[i].history != []
    ensures p !in worlds[j].files <==> TakesIn(worlds[i], p) && EgressIn(events, i + 1, j)
    ensures p in worlds[j].files ==> worlds[j].files[p] == worlds[0].files[p]
    ensures TakesIn(worlds[i], p) ==> Alike(worlds[i + 1], p)
  {
    hide GoodWorld, LeftAlone, Skips, Echoed, Alike, Run, Advanced, Takeable, GoodHistory, TakesIn;
    LeftOutIsSafe(ign, events, worlds, p, i);
    AlwaysGood(ign, events, worlds, i);
    assert StepOf(ign, events, worlds, i);
    var trace :| Ingested(worlds[i], worlds[i + 1], events[i].paths, trace);
    UntrackedTaken(worlds[i], worlds[i + 1], events[i].paths, trace, p);
    EchoGoes(ign, events, worlds, p, i + 1, j);
  }
}
