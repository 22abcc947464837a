/** What a batch of changed paths amounts to, path by path. */
module BatchEffects {
  import opened Wrappers
  import opened Utf8
  import opened SharedText
  import opened FileTree
  import opened Docs
  import opened Workspaces
  import opened Exports
  import opened Seeding
  import opened Watching
  import opened Batches

  // ---- nothing changes while disk and doc agree ----

  /** A file that is not text, of which the doc knows nothing. */
  predicate Binary(t: Tree, files: map<Path, seq<byte>>, p: Path) {
    p in files && Decode(files[p]) == None && NodeAt(t, p) == None
  }

  /** Disk and doc show the same at `p`, a path that is not left out, but for files that are not text. */
  ghost predicate InStep(t: Tree, ign: Ignorer, files: map<Path, seq<byte>>, dirs: set<Path>, p: Path) {
    && ValidPath(p) && p[0] != EG_DIR && !Skips(ign, p, true) && !Skips(ign, p, false)
    && (Binary(t, files, p) || (p in files <==> FileAt(t, ign, p).Some?))
    && (p in files && !Binary(t, files, p) ==> FileAgrees(t, ign, files, p))
    && (p in dirs <==> DirAt(t, ign, p).Some?)
    && (NodeAt(t, p).Some? ==> t.KindOf(NodeAt(t, p).value) in {Some(File), Some(Dir)})
  }

  lemma StillStep(s: Source, ign: Ignorer, p: Path, a: DocState, b: DocState)
    requires Step(s, p, a, b) && InStep(Last(a.history), ign, s.files, s.dirs, p)
    ensures b == a
  {
    hide Tree.WellFormed, Stamped, Carries, Walk, Skips, Encode, Decode, MadeDirs;
    var t := Last(a.history);
    if Binary(t, s.files, p) {
    } else if p in s.files {
      var n := FileAt(t, ign, p).value;
      Utf8Codec(TextOf(t, n), s.files[p]);
    } else if p in s.dirs {
      NodeInTree(t, p);
    } else {
      assert NodeAt(t, p) == None;
    }
  }

  /**
   The echo dies out. When disk equals the export of the doc, a batch of any
   paths leaves the doc as it was, so ingest does not nudge egress again.
   */
  lemma {:induction false} EchoFixpoint(s: Source, ign: Ignorer, paths: seq<Path>, trace: seq<DocState>)
    requires Run(s, paths, trace) && trace[0].history != []
    requires forall p | p in paths :: InStep(Last(trace[0].history), ign, s.files, s.dirs, p)
    ensures trace[|paths|] == trace[0]
    decreases |paths|
  {
    hide Step, InStep;
    if paths != [] {
      RunTail(s, paths, trace);
      StillStep(s, ign, paths[0], trace[0], trace[1]);
      EchoFixpoint(s, ign, paths[1..], trace[1..]);
    }
  }

  // ---- a file gone from disk ----

  lemma AbsentStep(s: Source, p: Path, q: Path, a: DocState, b: DocState)
    requires Step(s, q, a, b) && ValidPath(p) && !OnDisk(s.files, s.dirs, p)
    ensures NodeAt(Last(a.history), p) == None || q == p ==> NodeAt(Last(b.history), p) == None
  {
    hide Tree.WellFormed, Stamped, Carries, Walk, Applied, GoodHistory;
    StepPath(s, q, a, b, p);
    if p < q && OnDisk(s.files, s.dirs, q) {
      AboveOnDisk(s.files, s.dirs, p, q);
    }
    if q == p {
      DeletedHere(s, p, a, b);
    }
  }

  lemma DeletedHere(s: Source, p: Path, a: DocState, b: DocState)
    requires Step(s, p, a, b) && !OnDisk(s.files, s.dirs, p)
    ensures NodeAt(Last(b.history), p) == None
  {
    var t := Last(a.history);
    if NodeAt(t, p).Some? {
      NodeInTree(t, p);
      TreeEdits.DeleteEffect(t, NodeAt(t, p).value, p, p);
    }
  }

  /** A path in the batch that is gone from disk is gone from the doc. */
  lemma {:induction false} BatchDeletes(s: Source, paths: seq<Path>, trace: seq<DocState>, p: Path)
    requires Run(s, paths, trace) && ValidPath(p) && !OnDisk(s.files, s.dirs, p) && trace[0].history != []
    requires p in paths || NodeAt(Last(trace[0].history), p) == None
    ensures trace[|paths|].history != [] && NodeAt(Last(trace[|paths|].history), p) == None
    decreases |paths|
  {
    hide Tree.WellFormed, Stamped, Carries, Walk, Applied;
    if paths != [] {
      RunTail(s, paths, trace);
      AbsentStep(s, p, paths[0], trace[0], trace[1]);
      assert p in paths[1..] || paths[0] == p || p !in paths;
      BatchDeletes(s, paths[1..], trace[1..], p);
    }
  }

  // ---- a file whose node is gone ----

  /** No node at `p`, and whatever file is still there is what the doc last wrote. */
  ghost predicate DeadAt(t: Tree, h: seq<Tree>, files: map<Path, seq<byte>>, dirs: set<Path>,
                         bases: map<Path, Base>, p: Path) {
    ValidPath(p) && NodeAt(t, p) == None && p !in dirs && (p in files ==> TrackedEcho(h, bases, p, files[p]))
  }

  lemma EchoLasts(h: seq<Tree>, h': seq<Tree>, base: Base, bytes: seq<byte>)
    requires h <= h' && base.frontier < |h|
    ensures IsEcho(h', base, bytes) == IsEcho(h, base, bytes)
  {
    PastStays(h, h', base.node, base.frontier);
  }

  /** Every base is of the doc's past. */
  ghost predicate PastBases(h: seq<Tree>, bases: map<Path, Base>) {
    forall p | p in bases :: bases[p].frontier < |h|
  }

  lemma DeadStep(s: Source, p: Path, q: Path, a: DocState, b: DocState)
    requires Step(s, q, a, b) && PastBases(a.history, s.bases)
    requires DeadAt(Last(a.history), a.history, s.files, s.dirs, s.bases, p)
    ensures DeadAt(Last(b.history), b.history, s.files, s.dirs, s.bases, p) && PastBases(b.history, s.bases)
  {
    hide Tree.WellFormed, Stamped, Carries, Walk, IsEcho, Edited;
    assert p <= q <==> p == q || p < q;
    StepPath(s, q, a, b, p);
    if p < q && OnDisk(s.files, s.dirs, q) {
      AboveOnDisk(s.files, s.dirs, p, q);
    }
    if p in s.files {
      EchoLasts(a.history, b.history, s.bases[p], s.files[p]);
    }
  }

  /** No batch brings a deleted file back while its bytes are those the doc last wrote. */
  lemma {:induction false} BatchSkipsDead(s: Source, paths: seq<Path>, trace: seq<DocState>, p: Path)
    requires Run(s, paths, trace) && trace[0].history != [] && PastBases(trace[0].history, s.bases)
    requires DeadAt(Last(trace[0].history), trace[0].history, s.files, s.dirs, s.bases, p)
    ensures var b := trace[|paths|];
      b.history != [] && DeadAt(Last(b.history), b.history, s.files, s.dirs, s.bases, p)
    decreases |paths|
  {
    hide Tree.WellFormed, Stamped, Carries, Walk, DeadAt, Applied;
    if paths != [] {
      RunTail(s, paths, trace);
      DeadStep(s, p, paths[0], trace[0], trace[1]);
      BatchSkipsDead(s, paths[1..], trace[1..], p);
    }
  }

  // ---- a directory whose node is gone ----

  /** Whether a batch takes in anything that needs a directory at `d`. */
  predicate Revives(files: map<Path, seq<byte>>, dirs: set<Path>, d: Path, paths: seq<Path>) {
    exists p | p in paths :: Remakes(files, dirs, d, p)
  }

  lemma DirStep(s: Source, d: Path, p: Path, a: DocState, b: DocState)
    requires Step(s, p, a, b) && d != []
    ensures d !in s.files && NodeAt(Last(a.history), d) == None && !Remakes(s.files, s.dirs, d, p) ==>
      NodeAt(Last(b.history), d) == None
    ensures d in s.dirs && (NodeAt(Last(a.history), d).Some? || Remakes(s.files, s.dirs, d, p)) ==>
      NodeAt(Last(b.history), d).Some?
  {
    hide Tree.WellFormed, Stamped, Carries, Walk, Applied, Decode;
    StepPath(s, p, a, b, d);
    assert p <= d <==> p == d || p < d;
    if d in s.dirs && p < d && !OnDisk(s.files, s.dirs, p) {
      AboveOnDisk(s.files, s.dirs, p, d);
    }
    if Remakes(s.files, s.dirs, d, p) {
      RemadeDir(s, d, p, a, b);
    }
  }

  lemma RemadeDir(s: Source, d: Path, p: Path, a: DocState, b: DocState)
    requires Step(s, p, a, b) && d != [] && Remakes(s.files, s.dirs, d, p)
    ensures NodeAt(Last(b.history), d).Some?
  {
    hide Tree.WellFormed, Stamped, Carries, Encode, Decode, Edited, Walk;
    var t, u := Last(a.history), Last(b.history);
    if p in s.dirs {
      PrefixLeads(u, d, p);
    } else {
      var text := Decode(s.files[p]).value;
      match NodeAt(t, p)
      case None =>
        assert d <= Parent(p);
        PrefixLeads(u, d, if Walk(u, Root, p).Some? then p else Parent(p));
      case Some(n) =>
        if b != a {
          EditedTip(a.history, b.history, a.next, n, text, DiffBase(a.history, s.bases, p, n));
        }
        PrefixLeads(u, d, p);
    }
  }

  lemma PrefixLeads(t: Tree, d: Path, p: Path)
    requires d != [] && d <= p && Walk(t, Root, p).Some?
    ensures NodeAt(t, d).Some?
  {
    assert p == d + p[|d|..];
    WalkConcat(t, Root, d, p[|d|..]);
    WalkNotTrash(t, Root, d);
  }

  /**
   Deleted directories can come back. A directory on disk without a node has one
   after a batch if and only if the batch reports it, a directory below it, or a
   text file below it, be that file an unmodified echo or not.
   */
  lemma {:induction false} DirComesBack(s: Source, paths: seq<Path>, trace: seq<DocState>, d: Path)
    requires Run(s, paths, trace) && trace[0].history != [] && GoodDisk(s.files, s.dirs) && d in s.dirs
    ensures trace[|paths|].history != []
    ensures NodeAt(Last(trace[|paths|].history), d).Some? <==>
      NodeAt(Last(trace[0].history), d).Some? || Revives(s.files, s.dirs, d, paths)
    decreases |paths|
  {
    hide Tree.WellFormed, Stamped, Carries, Walk, Applied, Remakes;
    if paths != [] {
      RunTail(s, paths, trace);
      DirStep(s, d, paths[0], trace[0], trace[1]);
      DirComesBack(s, paths[1..], trace[1..], d);
      assert forall p :: p in paths <==> p == paths[0] || p in paths[1..];
    }
  }

  /** With nothing of the kind reported, a path that is no file and has no node gets none. */
  lemma {:induction false} DirStaysAway(s: Source, paths: seq<Path>, trace: seq<DocState>, d: Path)
    requires Run(s, paths, trace) && trace[0].history != [] && d != [] && d !in s.files
    requires NodeAt(Last(trace[0].history), d) == None && !Revives(s.files, s.dirs, d, paths)
    ensures trace[|paths|].history != [] && NodeAt(Last(trace[|paths|].history), d) == None
    decreases |paths|
  {
    hide Tree.WellFormed, Stamped, Carries, Walk, Applied, Remakes;
    if paths != [] {
      RunTail(s, paths, trace);
      DirStep(s, d, paths[0], trace[0], trace[1]);
      DirStaysAway(s, paths[1..], trace[1..], d);
    }
  }

  // ---- a local edit that raced the deletion ----

  /** The file at `p` has no node, and is not what the doc last wrote there. */
  ghost predicate RacedAt(t: Tree, h: seq<Tree>, files: map<Path, seq<byte>>, bases: map<Path, Base>, p: Path) {
    p in files && NodeAt(t, p) == None && !TrackedEcho(h, bases, p, files[p])
  }

  lemma RacedOnDisk(t: Tree, h: seq<Tree>, files: map<Path, seq<byte>>, bases: map<Path, Base>, p: Path)
    requires RacedAt(t, h, files, bases, p)
    ensures p in files
  {
  }

  lemma RacedStep(s: Source, p: Path, q: Path, a: DocState, b: DocState)
    requires Step(s, q, a, b) && PastBases(a.history, s.bases)
    requires RacedAt(Last(a.history), a.history, s.files, s.bases, p)
    ensures PastBases(b.history, s.bases)
    ensures q != p ==> RacedAt(Last(b.history), b.history, s.files, s.bases, p)
    ensures q == p && Decode(s.files[p]).Some? ==>
      NewNodeAt(Last(a.history), Last(b.history), p, File, Decode(s.files[p]).value)
  {
    hide Tree.WellFormed, Stamped, Carries, Walk, IsEcho, Edited, Encode, Decode;
    if Decode(s.files[p]).Some? {
      Utf8Codec(Decode(s.files[p]).value, s.files[p]);
    }
    StepPath(s, q, a, b, p);
    if q != p {
      if p < q && OnDisk(s.files, s.dirs, q) {
        AboveOnDisk(s.files, s.dirs, p, q);
      }
      if p in s.bases {
        EchoLasts(a.history, b.history, s.bases[p], s.files[p]);
      }
    }
  }

  lemma MintedStays(s: Source, p: Path, q: Path, t: Tree, a: DocState, b: DocState)
    requires Step(s, q, a, b) && p in s.files && Decode(s.files[p]).Some?
    requires NewNodeAt(t, Last(a.history), p, File, Decode(s.files[p]).value)
    ensures NewNodeAt(t, Last(b.history), p, File, Decode(s.files[p]).value)
  {
    hide Tree.WellFormed, Stamped, Carries, Walk, Edited, Encode, Decode;
    var u := Last(a.history);
    var n := NodeAt(u, p).value;
    NodeInTree(u, p);
    assert q <= p <==> q == p || q < p;
    StepPath(s, q, a, b, p);
    StepNode(s, q, a, b, n);
    if q < p && !OnDisk(s.files, s.dirs, q) {
      AboveOnDisk(s.files, s.dirs, q, p);
    }
    if NodeAt(u, q) == Some(n) {
      NodeInTree(u, q);
      PathUnique(u, p, q);
    }
  }

  /** Text or not, an edited file without a node has none until it is reported. */
  lemma {:induction false} BatchKeepsRaced(s: Source, paths: seq<Path>, trace: seq<DocState>, p: Path)
    requires Run(s, paths, trace) && trace[0].history != [] && PastBases(trace[0].history, s.bases) && p !in paths
    requires RacedAt(Last(trace[0].history), trace[0].history, s.files, s.bases, p)
    ensures var b := trace[|paths|];
      b.history != [] && RacedAt(Last(b.history), b.history, s.files, s.bases, p)
    decreases |paths|
  {
    hide Tree.WellFormed, Stamped, Carries, Walk, NewNodeAt, RacedAt, Applied;
    RacedOnDisk(Last(trace[0].history), trace[0].history, s.files, s.bases, p);
    if paths != [] {
      RunTail(s, paths, trace);
      RacedStep(s, p, paths[0], trace[0], trace[1]);
      BatchKeepsRaced(s, paths[1..], trace[1..], p);
    }
  }

  /** Edit wins over delete: the batch mints one new file at `p`, reading exactly the bytes on disk. */
  lemma {:induction false} BatchMints(s: Source, paths: seq<Path>, trace: seq<DocState>, p: Path)
    requires Run(s, paths, trace) && trace[0].history != [] && PastBases(trace[0].history, s.bases)
    requires RacedAt(Last(trace[0].history), trace[0].history, s.files, s.bases, p) && Decode(s.files[p]).Some?
    ensures var b := trace[|paths|];
      && b.history != []
      && if p in paths then NewNodeAt(Last(trace[0].history), Last(b.history), p, File, Decode(s.files[p]).value)
         else RacedAt(Last(b.history), b.history, s.files, s.bases, p)
    decreases |paths|
  {
    hide Tree.WellFormed, Stamped, Carries, Walk, NewNodeAt, RacedAt, Applied;
    RacedOnDisk(Last(trace[0].history), trace[0].history, s.files, s.bases, p);
    if paths != [] {
      RunTail(s, paths, trace);
      RacedStep(s, p, paths[0], trace[0], trace[1]);
      if paths[0] == p {
        BatchKeepsMinted(s, paths[1..], trace[1..], p, Last(trace[0].history));
      } else {
        BatchMints(s, paths[1..], trace[1..], p);
        StepNodes(s, paths[0], trace[0], trace[1]);
        StillNew(Last(trace[0].history), Last(trace[1].history), Last(trace[|paths|].history), p, s.files[p]);
      }
    }
  }

  lemma StepNodes(s: Source, q: Path, a: DocState, b: DocState)
    requires Step(s, q, a, b)
    ensures Last(a.history).nodes.Keys <= Last(b.history).nodes.Keys
  {
    hide Tree.WellFormed, Stamped, Carries, Applied;
    forall n | n in Last(a.history).nodes ensures n in Last(b.history).nodes {
      StepNode(s, q, a, b, n);
    }
  }

  lemma StillNew(t: Tree, u: Tree, v: Tree, p: Path, bytes: seq<byte>)
    requires t.nodes.Keys <= u.nodes.Keys && Decode(bytes).Some?
    ensures NewNodeAt(u, v, p, File, Decode(bytes).value) ==> NewNodeAt(t, v, p, File, Decode(bytes).value)
  {
  }

  lemma {:induction false} BatchKeepsMinted(s: Source, paths: seq<Path>, trace: seq<DocState>, p: Path, t: Tree)
    requires Run(s, paths, trace) && trace[0].history != [] && p in s.files && Decode(s.files[p]).Some?
    requires NewNodeAt(t, Last(trace[0].history), p, File, Decode(s.files[p]).value)
    ensures var b := trace[|paths|];
      b.history != [] && NewNodeAt(t, Last(b.history), p, File, Decode(s.files[p]).value)
    decreases |paths|
  {
    hide Tree.WellFormed, Stamped, Carries, Walk, NewNodeAt, Applied;
    if paths != [] {
      RunTail(s, paths, trace);
      MintedStays(s, p, paths[0], t, trace[0], trace[1]);
      BatchKeepsMinted(s, paths[1..], trace[1..], p, t);
    }
  }

  // ---- a file edited on both sides ----

  /** `n` stands at `p` with text `live`. */
  ghost predicate LiveAt(t: Tree, p: Path, n: NodeId, live: Text) {
    NodeAt(t, p) == Some(n) && n in t.nodes && t.nodes[n].content == Some(live)
  }

  lemma OtherStep(s: Source, p: Path, q: Path, n: NodeId, live: Text, a: DocState, b: DocState)
    requires Step(s, q, a, b) && q != p && p in s.files && LiveAt(Last(a.history), p, n, live)
    ensures LiveAt(Last(b.history), p, n, live)
  {
    hide Tree.WellFormed, Stamped, Carries, Walk, Applied;
    var t := Last(a.history);
    NodeInTree(t, p);
    StepPath(s, q, a, b, p);
    StepNode(s, q, a, b, n);
    if q < p && !OnDisk(s.files, s.dirs, q) {
      AboveOnDisk(s.files, s.dirs, q, p);
    }
    if NodeAt(t, q) == Some(n) {
      NodeInTree(t, q);
      PathUnique(t, p, q);
    }
  }

  lemma {:induction false} OtherSteps(s: Source, paths: seq<Path>, trace: seq<DocState>, p: Path, n: NodeId, live: Text)
    requires Run(s, paths, trace) && trace[0].history != [] && p !in paths && p in s.files
    requires LiveAt(Last(trace[0].history), p, n, live)
    ensures trace[|paths|].history != [] && LiveAt(Last(trace[|paths|].history), p, n, live)
    decreases |paths|
  {
    hide Tree.WellFormed, Stamped, Carries, Walk, LiveAt, Applied;
    if paths != [] {
      RunTail(s, paths, trace);
      OtherStep(s, p, paths[0], n, live, trace[0], trace[1]);
      OtherSteps(s, paths[1..], trace[1..], p, n, live);
    }
  }

  /** The text on disk was merged into `live`, diffed at `base`. */
  ghost predicate MergedIn(live: Text, base: Frontier, text: string, now: nat, out: Text) {
    base < now && exists script ::
      Patch(script, TextAt(live, base)) == Some(text) && Merged(live, base, script, now, out)
  }

  /** `base` is the recorded base of `p` if `n` was a file there, and otherwise shows what is live. */
  ghost predicate BaseFor(h: seq<Tree>, bases: map<Path, Base>, p: Path, n: NodeId, live: Text, base: Frontier) {
    if p in bases && ContentAt(h, n, bases[p].frontier).Some? then base == bases[p].frontier
    else TextAt(live, base) == Visible(live) && UpTo(live, base)
  }

  lemma MergeStep(s: Source, p: Path, n: NodeId, live: Text, a: DocState, b: DocState)
    returns (base: Frontier, out: Text)
    requires Step(s, p, a, b) && p in s.files && Decode(s.files[p]).Some?
    requires LiveAt(Last(a.history), p, n, live) && Visible(live) != Decode(s.files[p]).value
    ensures BaseFor(a.history, s.bases, p, n, live, base)
    ensures MergedIn(live, base, Decode(s.files[p]).value, |a.history|, out) && LiveAt(Last(b.history), p, n, out)
    ensures TextAt(live, base) == Decode(s.files[p]).value ==> out == live
  {
    hide Tree.WellFormed, Walk, Decode, Encode, Merged, Patch, TextAt, Visible, Carries;
    var h, h', text := a.history, b.history, Decode(s.files[p]).value;
    base := DiffBase(h, s.bases, p, n);
    assert Edited(h, h', n, text, base);
    var script: seq<Edit>, res: Text :|
      && Patch(script, TextAt(live, base)) == Some(text) && Merged(live, base, script, |h|, res)
      && (if h' == h then res == live else h' == h + [Last(h).WithContent(n, res)]);
    out := res;
    EditedTip(h, h', a.next, n, text, base);
    assert Stamped(Last(h), |h| - 1, a.next);
    NowIsVisible(live, |h| - 1);
  }

  /**
   Three-way merge. After a batch, the file at `p` is its live text with the
   bytes on disk merged in, diffed at the base recorded for `p`.
   */
  lemma {:induction false} BatchMerges(s: Source, paths: seq<Path>, trace: seq<DocState>, p: Path, n: NodeId,
                                       live: Text)
    returns (base: Frontier, now: nat, out: Text)
    requires Run(s, paths, trace) && trace[0].history != [] && PastBases(trace[0].history, s.bases)
    requires forall i, j | 0 <= i < j < |paths| :: paths[i] != paths[j]
    requires p in paths && p in s.files && Decode(s.files[p]).Some?
    requires LiveAt(Last(trace[0].history), p, n, live) && Visible(live) != Decode(s.files[p]).value
    ensures BaseFor(trace[0].history, s.bases, p, n, live, base) && |trace[0].history| <= now
    ensures MergedIn(live, base, Decode(s.files[p]).value, now, out)
    ensures TextAt(live, base) == Decode(s.files[p]).value ==> out == live
    ensures trace[|paths|].history != [] && LiveAt(Last(trace[|paths|].history), p, n, out)
    decreases |paths|
  {
    hide Tree.WellFormed, Stamped, Carries, Walk, LiveAt, Decode, MergedIn;
    RunTail(s, paths, trace);
    assert trace[0].history <= trace[1].history;
    if paths[0] == p {
      base, out := MergeStep(s, p, n, live, trace[0], trace[1]);
      now := |trace[0].history|;
      assert p !in paths[1..];
      OtherSteps(s, paths[1..], trace[1..], p, n, out);
    } else {
      OtherStep(s, p, paths[0], n, live, trace[0], trace[1]);
      base, now, out := BatchMerges(s, paths[1..], trace[1..], p, n, live);
      if p in s.bases {
        PastStays(trace[0].history, trace[1].history, n, s.bases[p].frontier);
      }
    }
  }

  /** A file that reads as disk says is left alone. */
  lemma {:induction false} BatchLeavesAgreeing(s: Source, paths: seq<Path>, trace: seq<DocState>, p: Path,
                                               n: NodeId, live: Text)
    requires Run(s, paths, trace) && trace[0].history != [] && p in s.files && Decode(s.files[p]) == Some(Visible(live))
    requires LiveAt(Last(trace[0].history), p, n, live)
    ensures trace[|paths|].history != [] && LiveAt(Last(trace[|paths|].history), p, n, live)
    decreases |paths|
  {
    hide Tree.WellFormed, Stamped, Carries, Walk, Decode;
    if paths != [] {
      RunTail(s, paths, trace);
      if paths[0] != p {
        OtherStep(s, p, paths[0], n, live, trace[0], trace[1]);
      }
      BatchLeavesAgreeing(s, paths[1..], trace[1..], p, n, live);
    }
  }

  /** What a peer put in or left alone since the base survives the ingest of a local edit. */
  lemma IngestKeepsPeerEdits(live: Text, base: Frontier, text: string, now: nat, out: Text)
    requires MergedIn(live, base, text, now, out) && forall e | e in live :: e.born < now
    ensures |Before(out, now)| == |live|
    ensures forall i | 0 <= i < |live| && live[i].born > base :: Before(out, now)[i] == live[i]
    ensures forall i | 0 <= i < |live| && Before(out, now)[i] != live[i] :: AliveAt(live[i], base)
    ensures UpTo(live, base) ==> Visible(out) == text
  {
    var script :| Patch(script, TextAt(live, base)) == Some(text) && Merged(live, base, script, now, out);
    MergeKeepsOthers(live, base, script, now, out);
    if UpTo(live, base) {
      MergeExact(live, base, script, now, out);
    }
  }
}
