/** A batch of changed paths: how its steps add up. */
module Batches {
  import opened Wrappers
  import opened Utf8
  import opened FileTree
  import opened TreeEdits
  import opened Docs
  import opened Workspaces
  import opened Imports
  import opened Seeding
  import opened Watching

  predicate OnDisk(files: map<Path, seq<byte>>, dirs: set<Path>, p: Path) {
    p in files || p in dirs
  }

  /** What lies above a path on disk is on disk, as a directory. */
  lemma AboveOnDisk(files: map<Path, seq<byte>>, dirs: set<Path>, p: Path, q: Path)
    requires GoodDisk(files, dirs) && OnDisk(files, dirs, q) && p != [] && p < q
    ensures p in dirs && p !in files
  {
    AboveAreDirs(files, dirs, q);
    assert q[..|p|] == p && p in Above(q);
  }

  /** The files and directories a step may read, fixed for the batch. */
  datatype Source = Source(files: map<Path, seq<byte>>, dirs: set<Path>, bases: map<Path, Base>)

  ghost predicate Step(s: Source, p: Path, a: DocState, b: DocState) {
    && GoodDisk(s.files, s.dirs) && ValidPath(p)
    && GoodHistory(a.history, a.next) && GoodHistory(b.history, b.next)
    && Applied(s.files, s.dirs, s.bases, p, a, b)
  }

  /** Taking in `p` makes sure there is a directory node at `d`: it is one, lies in one, or holds text in one. */
  predicate Remakes(files: map<Path, seq<byte>>, dirs: set<Path>, d: Path, p: Path) {
    (d <= p && p in dirs) || (d < p && p in files && Decode(files[p]).Some?)
  }

  /** A step makes a path only towards what is on disk, and takes one away only if what it starts with is gone. */
  lemma StepPath(s: Source, p: Path, a: DocState, b: DocState, cs: Path)
    requires Step(s, p, a, b)
    ensures var t, u := Last(a.history), Last(b.history);
      || Walk(u, Root, cs) == Walk(t, Root, cs)
      || (cs != [] && Remakes(s.files, s.dirs, cs, p) && Walk(t, Root, cs) == None && NewNodeAt(t, u, cs, Dir, ""))
      || (cs == p && p in s.files && Decode(s.files[p]).Some? && Walk(t, Root, cs) == None
          && !TrackedEcho(a.history, s.bases, p, s.files[p]) && NewNodeAt(t, u, cs, File, Decode(s.files[p]).value))
      || (p <= cs && !OnDisk(s.files, s.dirs, p) && Walk(u, Root, cs) == None)
  {
    hide Tree.WellFormed, Stamped, Carries, Walk, NewNodeAt, Edited, Encode, Decode, Grew;
    var t, u := Last(a.history), Last(b.history);
    if p in s.files {
      if Decode(s.files[p]).Some? {
        var text := Decode(s.files[p]).value;
        Utf8Codec(text, s.files[p]);
        match NodeAt(t, p)
        case None =>
          assert SameOrNewDir(t, u, Parent(p), cs) || cs == p;
        case Some(n) =>
          if b != a {
            EditedTip(a.history, b.history, a.next, n, text, DiffBase(a.history, s.bases, p, n));
          }
      }
    } else if p in s.dirs {
      assert SameOrNewDir(t, u, p, cs);
    } else if NodeAt(t, p).Some? {
      DeleteEffect(t, NodeAt(t, p).value, p, cs);
    }
  }

  /** A step keeps every node and its kind, and edits only the text of the file at `p`. */
  lemma StepNode(s: Source, p: Path, a: DocState, b: DocState, n: NodeId)
    requires Step(s, p, a, b) && n in Last(a.history).nodes
    ensures var t, u := Last(a.history), Last(b.history);
      && n in u.nodes && u.KindOf(n) == t.KindOf(n)
      && (u.nodes[n].content == t.nodes[n].content || (p in s.files && NodeAt(t, p) == Some(n)))
  {
    hide Tree.WellFormed, Stamped, Carries, Walk, NewNodeAt, Edited, Encode, Decode;
    var t := Last(a.history);
    if p in s.files && Decode(s.files[p]).Some? && NodeAt(t, p).Some? && b != a {
      var m := NodeAt(t, p).value;
      EditedTip(a.history, b.history, a.next, m, Decode(s.files[p]).value, DiffBase(a.history, s.bases, p, m));
    }
  }

  lemma StepKeepsDirsMatch(s: Source, p: Path, a: DocState, b: DocState)
    requires Step(s, p, a, b) && DirsMatch(Last(a.history), s.dirs)
    ensures DirsMatch(Last(b.history), s.dirs)
  {
    hide Tree.WellFormed, Stamped, Carries, Walk, Edited, Encode, Decode, Applied;
    var t, u := Last(a.history), Last(b.history);
    forall q | q in s.dirs && NodeAt(u, q).Some? ensures u.KindOf(NodeAt(u, q).value) == Some(Dir) {
      StepPath(s, p, a, b, q);
      if Walk(u, Root, q) == Walk(t, Root, q) {
        NodeInTree(t, q);
        StepNode(s, p, a, b, NodeAt(t, q).value);
      }
    }
  }

  lemma NodeInTree(t: Tree, cs: Path)
    requires t.WellFormed() && NodeAt(t, cs).Some?
    ensures NodeAt(t, cs).value in t.nodes && Walk(t, Root, cs) == Some(Under(NodeAt(t, cs).value)) && cs != []
  {
    if cs != [] {
      WalkLast(t, Root, cs);
    }
  }

  // ---- runs of steps ----

  ghost predicate StepAt(s: Source, paths: seq<Path>, trace: seq<DocState>, i: int) {
    0 <= i < |paths| && |trace| == |paths| + 1 && Step(s, paths[i], trace[i], trace[i + 1])
  }

  ghost predicate Run(s: Source, paths: seq<Path>, trace: seq<DocState>) {
    && |trace| == |paths| + 1
    && forall i | 0 <= i < |paths| :: StepAt(s, paths, trace, i)
  }

  /** The bases after a batch: the present frontier for each file reported that has a node, agreeing with it or not. */
  ghost predicate Advanced(t: Tree, now: Frontier, files: map<Path, seq<byte>>, paths: seq<Path>,
                           bases: map<Path, Base>, bases': map<Path, Base>) {
    forall p ::
      if p in paths && p !in files then p !in bases'
      else if p in paths && NodeAt(t, p).Some? then p in bases' && bases'[p] == Base(now, NodeAt(t, p).value)
      else (p in bases' <==> p in bases) && (p in bases ==> bases'[p] == bases[p])
  }

  /** Merge a batch of changed paths in and move their bases up. Says whether the doc changed. */
  method ApplyBatch(ws: Disk, doc: Doc, paths: seq<Path>, tracked: Tracked)
    returns (moved: bool, ghost trace: seq<DocState>)
    requires Ingestible(doc.history, doc.next, ws.files, ws.dirs, tracked.bases)
    requires forall p | p in paths :: ValidPath(p)
    modifies doc, tracked`bases
    ensures doc.Valid() && Run(Source(ws.files, ws.dirs, old(tracked.bases)), paths, trace)
    ensures trace[0] == old(StateOf(doc)) && trace[|paths|] == StateOf(doc)
    ensures old(doc.history) <= doc.history
    ensures moved <==> doc.history != old(doc.history)
    ensures Advanced(doc.Tip(), doc.Frontiers(), ws.files, paths, old(tracked.bases), tracked.bases)
  {
    hide Tree.WellFormed, Stamped, Carries, Applied, Walk, DirsMatch, GoodDisk;
    var before := doc.history;
    ghost var s := Source(ws.files, ws.dirs, tracked.bases);
    trace := [StateOf(doc)];
    for i := 0 to |paths|
      invariant Ingestible(doc.history, doc.next, ws.files, ws.dirs, tracked.bases) && before <= doc.history
      invariant s == Source(ws.files, ws.dirs, tracked.bases) && tracked.bases == old(tracked.bases)
      invariant Run(s, paths[..i], trace) && trace[0] == old(StateOf(doc)) && trace[i] == StateOf(doc)
    {
      ghost var a := StateOf(doc);
      assert paths[i] in paths;
      ApplyPath(ws, doc, paths[i], tracked);
      assert Step(s, paths[i], a, StateOf(doc));
      StepKeepsDirsMatch(s, paths[i], a, StateOf(doc));
      RunGrows(s, paths[..i], trace, paths[i], StateOf(doc));
      assert paths[..i] + [paths[i]] == paths[..i + 1];
      trace := trace + [StateOf(doc)];
      StepGrows(s, paths[i], a, StateOf(doc));
    }
    assert paths[..|paths|] == paths;
    AdvanceBases(ws, doc, paths, tracked);
    moved := doc.history != before;
  }

  /** The second half of `ApplyBatch`: record the present frontier for every path that crossed. */
  method AdvanceBases(ws: Disk, doc: Doc, paths: seq<Path>, tracked: Tracked)
    requires doc.Valid()
    modifies tracked`bases
    ensures Advanced(doc.Tip(), doc.Frontiers(), ws.files, paths, old(tracked.bases), tracked.bases)
  {
    hide Tree.WellFormed, Stamped, Carries, Walk;
    var now := doc.Frontiers();
    for i := 0 to |paths|
      invariant Advanced(doc.Tip(), now, ws.files, paths[..i], old(tracked.bases), tracked.bases)
    {
      assert forall p :: p in paths[..i + 1] <==> p in paths[..i] || p == paths[i];
      if ws.Kind(paths[i]) == Some(IsFile) {
        var node := NodeAt(doc.Tip(), paths[i]);
        if node.Some? {
          tracked.bases := tracked.bases[paths[i] := Base(now, node.value)];
        }
      } else {
        tracked.bases := tracked.bases - {paths[i]};
      }
    }
    assert paths[..|paths|] == paths;
  }

  lemma StepGrows(s: Source, p: Path, a: DocState, b: DocState)
    requires Step(s, p, a, b)
    ensures a.history <= b.history
  {
  }

  lemma RunGrows(s: Source, paths: seq<Path>, trace: seq<DocState>, p: Path, b: DocState)
    requires Run(s, paths, trace) && Step(s, p, trace[|paths|], b)
    ensures Run(s, paths + [p], trace + [b])
  {
    var ps, tr := paths + [p], trace + [b];
    forall i | 0 <= i < |ps| ensures StepAt(s, ps, tr, i) {
      assert i < |paths| ==> StepAt(s, paths, trace, i);
    }
  }

  lemma RunTail(s: Source, paths: seq<Path>, trace: seq<DocState>)
    requires Run(s, paths, trace) && paths != []
    ensures Step(s, paths[0], trace[0], trace[1]) && Run(s, paths[1..], trace[1..])
  {
    assert StepAt(s, paths, trace, 0);
    forall i | 0 <= i < |paths[1..]| ensures StepAt(s, paths[1..], trace[1..], i) {
      assert StepAt(s, paths, trace, i + 1);
    }
  }
}
